/**
 * The names one conversion job derives in `convert_video` (Flask-VM-App/app.py): the object
 * names in the two buckets and the two scratch files in the processing directory. Every name
 * embeds the job id, which is the only thing that keeps concurrent jobs apart.
 */
module Naming {
  import opened PosixPath

  const InputBucketName := "video-image-input-bucket"
  const OutputBucketName := "video-image-output-bucket"
  const TempProcessingDir := "/tmp/videoconverter_processing"

  /** `str(uuid.uuid4())` is always 36 characters long. */
  const UuidTextLength := 36

  /** The text of `str(uuid.uuid4())`: 36 characters, each a lower-case hex digit or '-'. */
  predicate IsJobId(job: string)
  {
    |job| == UuidTextLength && forall i :: 0 <= i < |job| ==> job[i] in "0123456789abcdef-"
  }

  datatype Bucket = InputBucket | OutputBucket

  /** `base_name`: the uploaded file name without its extension. */
  function BaseName(original: string): string
  {
    SplitExt(original).root
  }

  /** `gcs_input_filename`. */
  function GcsInputFilename(job: string, original: string): string
  {
    job + "_" + original
  }

  /** `gcs_output_filename`: also the identifier the request redirects to. */
  function GcsOutputFilename(job: string, original: string, format: string): string
  {
    job + "_" + BaseName(original) + "." + format
  }

  /** `local_input_path`. */
  function LocalInputPath(job: string, original: string): string
  {
    Join(TempProcessingDir, "input_" + GcsInputFilename(job, original))
  }

  /** `local_output_path`. */
  function LocalOutputPath(job: string, original: string, format: string): string
  {
    Join(TempProcessingDir, "output_" + GcsOutputFilename(job, original, format))
  }

  /** `input_blob_name`, an object of the input bucket. */
  function InputBlobName(job: string, original: string): string
  {
    "uploads/" + GcsInputFilename(job, original)
  }

  /** `output_blob_name`, an object of the output bucket. */
  function OutputBlobName(job: string, original: string, format: string): string
  {
    "converted/" + GcsOutputFilename(job, original, format)
  }

  /** Texts that agree on a prefix and then on the length but not the content of the next part differ. */
  lemma DistinctAfterCommonPrefix(prefix: string, a: string, b: string, r1: string, r2: string)
    requires |a| == |b| && a != b
    ensures prefix + a + r1 != prefix + b + r2
  {
    var i :| 0 <= i < |a| && a[i] != b[i];
    assert (prefix + a + r1)[|prefix| + i] == a[i];
    assert (prefix + b + r2)[|prefix| + i] == b[i];
  }

  /** Each object name is a fixed folder, then the job id, then a tail that does not involve the id. */
  lemma ObjectNamesAroundJobId(job: string, original: string, format: string)
    ensures InputBlobName(job, original) == "uploads/" + job + InputTail(original)
    ensures OutputBlobName(job, original, format) == "converted/" + job + OutputTail(original, format)
  {
  }

  /**
   * Both scratch files sit directly in the processing directory, named `input_` or `output_`,
   * then the job id, then a tail that does not involve the id.
   */
  lemma ScratchPathsOfJob(job: string, original: string, format: string)
    ensures LocalInputPath(job, original) == TempProcessingDir + "/" + "input_" + job + InputTail(original)
    ensures LocalOutputPath(job, original, format) == TempProcessingDir + "/" + "output_" + job + OutputTail(original, format)
  {
    var inName := "input_" + GcsInputFilename(job, original);
    var outName := "output_" + GcsOutputFilename(job, original, format);
    assert TempProcessingDir[|TempProcessingDir| - 1] != '/';
    assert inName[0] == 'i' && outName[0] == 'o';
  }

  function InputTail(original: string): string
  {
    "_" + original
  }

  function OutputTail(original: string, format: string): string
  {
    "_" + BaseName(original) + "." + format
  }

  /**
   * Distinct job ids give distinct upload names, output names and scratch paths, whatever
   * file names and formats the two requests carry.
   */
  lemma {:induction false} DistinctJobsDistinctNames(
    job1: string, original1: string, format1: string,
    job2: string, original2: string, format2: string)
    requires IsJobId(job1) && IsJobId(job2) && job1 != job2
    ensures InputBlobName(job1, original1) != InputBlobName(job2, original2)
    ensures OutputBlobName(job1, original1, format1) != OutputBlobName(job2, original2, format2)
    ensures LocalInputPath(job1, original1) != LocalInputPath(job2, original2)
    ensures LocalOutputPath(job1, original1, format1) != LocalOutputPath(job2, original2, format2)
  {
    ObjectNamesAroundJobId(job1, original1, format1);
    ObjectNamesAroundJobId(job2, original2, format2);
    ScratchPathsOfJob(job1, original1, format1);
    ScratchPathsOfJob(job2, original2, format2);
    var in1, in2 := InputTail(original1), InputTail(original2);
    var out1, out2 := OutputTail(original1, format1), OutputTail(original2, format2);
    DistinctAfterCommonPrefix("uploads/", job1, job2, in1, in2);
    DistinctAfterCommonPrefix("converted/", job1, job2, out1, out2);
    DistinctAfterCommonPrefix(TempProcessingDir + "/" + "input_", job1, job2, in1, in2);
    DistinctAfterCommonPrefix(TempProcessingDir + "/" + "output_", job1, job2, out1, out2);
  }

  /**
   * An input scratch path is never an output scratch path, of this job or of any other:
   * the two differ right after the directory, where one says `input_` and the other `output_`.
   */
  lemma {:induction false} InputAndOutputScratchDiffer(
    job1: string, original1: string, job2: string, original2: string, format2: string)
    ensures LocalInputPath(job1, original1) != LocalOutputPath(job2, original2, format2)
  {
    ScratchPathsOfJob(job1, original1, format2);
    ScratchPathsOfJob(job2, original2, format2);
    var n := |TempProcessingDir| + 1;
    assert LocalInputPath(job1, original1)[n] == 'i';
    assert LocalOutputPath(job2, original2, format2)[n] == 'o';
  }
}
