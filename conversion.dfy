/**
 * `convert_video` (Flask-VM-App/app.py) as a state machine. The process state is the set of
 * files present in the processing directory and the log of objects written to the buckets;
 * each external step (input upload, fetch, ffmpeg, output upload) has an injected outcome, and
 * so does every attempt to delete a scratch file. `Convert` states what one request does;
 * `ConversionServer.ConvertVideo` does it step by step and is proved to agree with it.
 */
module Conversion {
  import opened Wrappers
  import opened Naming
  import opened Downloads
  import opened Utf8

  datatype StoreWrite = Put(bucket: Bucket, name: string)

  /** The multipart form: the file name of the `video` part, if sent, and the `format` field. */
  datatype Request = Request(video: Option<string>, format: Option<string>)

  /** How `download_to_filename` ends; `partial` says whether it left a local file behind. */
  datatype FetchOutcome = Fetched | FetchNotFound(partial: bool) | FetchError(partial: bool)

  /**
   * How the ffmpeg run ends; `stderr` is the raw error output of a failed run, and `partial`
   * says whether the run left an output file behind.
   */
  datatype TranscodeOutcome =
    | Transcoded
    | FfmpegError(stderr: seq<byte>, partial: bool)
    | TranscodeCrashed(partial: bool)

  /** The outcomes of the four external steps of one request. */
  datatype Outcomes = Outcomes(
    inputUploaded: bool,
    fetch: FetchOutcome,
    transcode: TranscodeOutcome,
    outputUploaded: bool)

  /** Why a request was aborted. */
  datatype Failure =
    | StorageUnavailable
    | MissingFile
    | InvalidFileOrFormat
    | InputUploadFailed
    | InputDisappeared
    | FetchFailed
    | ConversionFailed(diagnostic: string)
    | ConversionCrashed
    | OutputUploadFailed
  {
    /** The HTTP status `abort` is called with. */
    function Status(): int
    {
      if MissingFile? || InvalidFileOrFormat? then 400 else 500
    }
  }

  datatype Response = Redirect(identifier: string) | Aborted(failure: Failure)

  /** What the server is configured with: whether storage came up, which scratch files resist deletion. */
  datatype Host = Host(storageReady: bool, undeletable: set<string>)

  /** The state one request changes: scratch files present, and bucket writes so far. */
  datatype Machine = Machine(scratch: set<string>, writes: seq<StoreWrite>)

  /** The request passes the checks on lines 127-136: a `video` part with a name, and a format. */
  predicate ValidRequest(req: Request)
  {
    req.video.Some? && req.video.value != "" && req.format.Some? && req.format.value != ""
  }

  /** The error text shown for a failed ffmpeg run: its stderr decoded, or a fixed text when there is none. */
  function FfmpegMessage(stderr: seq<byte>): string
  {
    if stderr == [] then "Unknown ffmpeg error" else DecodeIgnoring(stderr)
  }

  /**
   * A diagnostic that ffmpeg wrote as UTF-8 is shown as written, and an empty one is replaced
   * by the fixed text.
   */
  lemma {:induction false} FfmpegMessageOfText(text: string)
    ensures text == "" ==> FfmpegMessage(Encode(text)) == "Unknown ffmpeg error"
    ensures text != "" ==> FfmpegMessage(Encode(text)) == text
  {
    DecodeEncoded(text);
    if text != "" {
      assert |Encode(text)| >= |EncodeChar(text[0])| > 0;
    }
  }

  /**
   * The emptiness test is on the raw bytes, before decoding: stderr that is not empty but has
   * no well-formed UTF-8 in it, such as the single byte 0xFF, is shown as an empty text.
   */
  lemma {:induction false} UndecodableStderrShowsEmptyText(stderr: seq<byte>)
    requires stderr != [] && forall i :: 0 <= i < |stderr| ==> IsContinuation(stderr[i]) || stderr[i] >= 0xF5
    ensures FfmpegMessage(stderr) == ""
  {
    NoSequenceDecodesEmpty(stderr);
  }

  lemma {:induction false} NoSequenceDecodesEmpty(s: seq<byte>)
    requires forall i :: 0 <= i < |s| ==> IsContinuation(s[i]) || s[i] >= 0xF5
    ensures DecodeIgnoring(s) == ""
  {
    if s != [] {
      InvalidByteIsDropped(s[0], s[1..]);
      assert [s[0]] + s[1..] == s;
      NoSequenceDecodesEmpty(s[1..]);
    }
  }

  /** `if os.path.exists(path): os.remove(path)`, where removal fails for undeletable paths. */
  function AfterRemoval(scratch: set<string>, undeletable: set<string>, path: string): set<string>
  {
    if path in scratch && path !in undeletable then scratch - {path} else scratch
  }

  /** The scratch files after a step that may have left `path` behind. */
  function LeftBehind(scratch: set<string>, path: string, left: bool): set<string>
  {
    if left then scratch + {path} else scratch
  }

  /** What one call of `convert_video` answers and does, given the outcome of each step. */
  function Convert(host: Host, m: Machine, req: Request, job: string, o: Outcomes): (Response, Machine)
  {
    if !host.storageReady then (Aborted(StorageUnavailable), m)
    else if req.video.None? then (Aborted(MissingFile), m)
    else if !ValidRequest(req) then (Aborted(InvalidFileOrFormat), m)
    else
      var original, format := req.video.value, req.format.value;
      var inputPath, outputPath := LocalInputPath(job, original), LocalOutputPath(job, original, format);
      var u := host.undeletable;
      if !o.inputUploaded then (Aborted(InputUploadFailed), m)
      else
        var uploaded := m.writes + [Put(InputBucket, InputBlobName(job, original))];
        match o.fetch
        case FetchNotFound(partial) =>
          (Aborted(InputDisappeared), Machine(LeftBehind(m.scratch, inputPath, partial), uploaded))
        case FetchError(partial) =>
          var s := AfterRemoval(LeftBehind(m.scratch, inputPath, partial), u, inputPath);
          (Aborted(FetchFailed), Machine(s, uploaded))
        case Fetched =>
          var fetched := m.scratch + {inputPath};
          match o.transcode
          case FfmpegError(stderr, partial) =>
            var s := AfterRemoval(LeftBehind(fetched, outputPath, partial), u, inputPath);
            (Aborted(ConversionFailed(FfmpegMessage(stderr))), Machine(s, uploaded))
          case TranscodeCrashed(partial) =>
            var s := AfterRemoval(LeftBehind(fetched, outputPath, partial), u, inputPath);
            (Aborted(ConversionCrashed), Machine(s, uploaded))
          case Transcoded =>
            var cleaned := AfterRemoval(AfterRemoval(fetched + {outputPath}, u, inputPath), u, outputPath);
            if o.outputUploaded then
              (Redirect(GcsOutputFilename(job, original, format)),
               Machine(cleaned, uploaded + [Put(OutputBucket, OutputBlobName(job, original, format))]))
            else
              (Aborted(OutputUploadFailed), Machine(cleaned, uploaded))
  }

  /**
   * Validation comes first: the request is refused with a 400 exactly when storage is up and
   * the `video` part, its file name or the format is missing, and a refused or unserved request
   * writes nothing and creates no scratch file.
   */
  lemma InvalidRequestHasNoEffect(host: Host, m: Machine, req: Request, job: string, o: Outcomes)
    ensures var (resp, m') := Convert(host, m, req, job, o);
      (resp.Aborted? && resp.failure.Status() == 400) <==> host.storageReady && !ValidRequest(req)
    ensures var (resp, m') := Convert(host, m, req, job, o);
      !host.storageReady || !ValidRequest(req) ==> resp.Aborted? && m' == m
  {
  }

  /**
   * A request touches no scratch file but its own two, and writes its upload and then its
   * output, in that order: both when it redirects, only the upload when it fails after the
   * upload succeeded, and nothing when the upload is not reached or fails.
   */
  lemma {:induction false} ConvertStaysWithinItsJob(host: Host, m: Machine, req: Request, job: string, o: Outcomes, p: string)
    requires ValidRequest(req)
    requires p != LocalInputPath(job, req.video.value)
    requires p != LocalOutputPath(job, req.video.value, req.format.value)
    ensures var (resp, m') := Convert(host, m, req, job, o);
      (p in m'.scratch <==> p in m.scratch) &&
      var ws := [Put(InputBucket, InputBlobName(job, req.video.value)),
                 Put(OutputBucket, OutputBlobName(job, req.video.value, req.format.value))];
      m'.writes == m.writes + ws[..(if resp.Redirect? then 2 else if host.storageReady && o.inputUploaded then 1 else 0)]
  {
    var (resp, m') := Convert(host, m, req, job, o);
    var ws := [Put(InputBucket, InputBlobName(job, req.video.value)),
               Put(OutputBucket, OutputBlobName(job, req.video.value, req.format.value))];
    if resp.Redirect? {
      assert ws[..2] == ws;
    } else if host.storageReady && o.inputUploaded {
      assert ws[..1] == [ws[0]];
    } else {
      assert ws[..0] == [];
    }
  }

  /**
   * A failed fetch other than "not found" deletes the input scratch file, partial or not, unless
   * deletion fails; the output scratch file is not touched.
   */
  lemma {:induction false} FetchFailureRemovesOnlyInput(host: Host, m: Machine, req: Request, job: string, o: Outcomes)
    requires host.storageReady && ValidRequest(req) && o.inputUploaded && o.fetch.FetchError?
    ensures var (resp, m') := Convert(host, m, req, job, o);
      var inputPath := LocalInputPath(job, req.video.value);
      var outputPath := LocalOutputPath(job, req.video.value, req.format.value);
      && resp == Aborted(FetchFailed)
      && (inputPath in m'.scratch <==> inputPath in host.undeletable && (inputPath in m.scratch || o.fetch.partial))
      && (outputPath in m'.scratch <==> outputPath in m.scratch)
  {
    InputAndOutputScratchDiffer(job, req.video.value, job, req.video.value, req.format.value);
  }

  /** A fetch that reports "not found" aborts without deleting anything, so a partial input file stays. */
  lemma {:induction false} FetchNotFoundSkipsCleanup(host: Host, m: Machine, req: Request, job: string, o: Outcomes)
    requires host.storageReady && ValidRequest(req) && o.inputUploaded && o.fetch.FetchNotFound?
    ensures var (resp, m') := Convert(host, m, req, job, o);
      var inputPath := LocalInputPath(job, req.video.value);
      && resp == Aborted(InputDisappeared) && resp.failure.Status() == 500
      && (inputPath in m'.scratch <==> inputPath in m.scratch || o.fetch.partial)
  {
  }

  /**
   * A failed ffmpeg run deletes the input scratch file (unless deletion fails) and leaves the
   * output scratch file as ffmpeg left it; the caller sees ffmpeg's stderr decoded as UTF-8
   * with undecodable bytes dropped, or a fixed text when stderr is empty.
   */
  lemma {:induction false} TranscodeFailureKeepsOutput(host: Host, m: Machine, req: Request, job: string, o: Outcomes)
    requires host.storageReady && ValidRequest(req) && o.inputUploaded && o.fetch.Fetched?
    requires !o.transcode.Transcoded?
    ensures var (resp, m') := Convert(host, m, req, job, o);
      var inputPath := LocalInputPath(job, req.video.value);
      var outputPath := LocalOutputPath(job, req.video.value, req.format.value);
      && resp.Aborted? && resp.failure.Status() == 500
      && (inputPath in m'.scratch <==> inputPath in host.undeletable)
      && (outputPath in m'.scratch <==> outputPath in m.scratch || o.transcode.partial)
      && (o.transcode.FfmpegError? ==>
            && resp.failure.ConversionFailed?
            && (o.transcode.stderr == [] ==> resp.failure.diagnostic == "Unknown ffmpeg error")
            && (o.transcode.stderr != [] ==> resp.failure.diagnostic == DecodeIgnoring(o.transcode.stderr)))
  {
    InputAndOutputScratchDiffer(job, req.video.value, job, req.video.value, req.format.value);
  }

  /**
   * Once ffmpeg succeeded, both scratch files are deleted (unless deletion fails) whether or
   * not the output upload succeeds.
   */
  lemma {:induction false} UploadStageRemovesBoth(host: Host, m: Machine, req: Request, job: string, o: Outcomes)
    requires host.storageReady && ValidRequest(req) && o.inputUploaded && o.fetch.Fetched? && o.transcode.Transcoded?
    ensures var (resp, m') := Convert(host, m, req, job, o);
      var inputPath := LocalInputPath(job, req.video.value);
      var outputPath := LocalOutputPath(job, req.video.value, req.format.value);
      && (inputPath in m'.scratch <==> inputPath in host.undeletable)
      && (outputPath in m'.scratch <==> outputPath in host.undeletable)
      && (resp.Redirect? <==> o.outputUploaded)
  {
    InputAndOutputScratchDiffer(job, req.video.value, job, req.video.value, req.format.value);
  }

  /**
   * A request redirects exactly when every step succeeds; it then redirects to the identifier
   * whose `converted/` object is the output it wrote, right after writing its upload.
   */
  lemma SucceedsIffEveryStepSucceeds(host: Host, m: Machine, req: Request, job: string, o: Outcomes)
    ensures var (resp, m') := Convert(host, m, req, job, o);
      resp.Redirect? <==>
        host.storageReady && ValidRequest(req) && o.inputUploaded && o.fetch.Fetched?
        && o.transcode.Transcoded? && o.outputUploaded
    ensures var (resp, m') := Convert(host, m, req, job, o);
      resp.Redirect? ==>
        && resp.identifier == GcsOutputFilename(job, req.video.value, req.format.value)
        && m'.writes == m.writes + [Put(InputBucket, InputBlobName(job, req.video.value)),
                                    Put(OutputBucket, VideoBlobName(resp.identifier))]
  {
  }

  /** The process: its scratch directory, its bucket writes, and how it was configured. */
  class ConversionServer {
    const storageReady: bool
    const undeletable: set<string>
    var scratch: set<string>
    var writes: seq<StoreWrite>

    constructor (storageReady: bool, undeletable: set<string>, scratch: set<string>)
      ensures this.storageReady == storageReady && this.undeletable == undeletable
      ensures this.scratch == scratch && writes == []
    {
      this.storageReady := storageReady;
      this.undeletable := undeletable;
      this.scratch := scratch;
      writes := [];
    }

    /** `if os.path.exists(path): try: os.remove(path) except OSError: <log>`. */
    method RemoveIfExists(path: string) returns (removed: bool)
      modifies this`scratch
      ensures scratch == AfterRemoval(old(scratch), undeletable, path)
      ensures removed <==> path in old(scratch) && path !in undeletable
      ensures path !in scratch <==> path !in old(scratch) || removed
    {
      removed := false;
      if path in scratch {
        if path !in undeletable {
          scratch := scratch - {path};
          removed := true;
        }
      }
    }

    /** The `finally` block of the output upload: try to delete both scratch files, log what was removed. */
    method CleanUpProcessingFiles(inputPath: string, outputPath: string) returns (removedInput: bool, removedOutput: bool)
      requires inputPath != outputPath
      modifies this`scratch
      ensures scratch == AfterRemoval(AfterRemoval(old(scratch), undeletable, inputPath), undeletable, outputPath)
      ensures removedInput <==> inputPath in old(scratch) && inputPath !in undeletable
      ensures removedOutput <==> outputPath in old(scratch) && outputPath !in undeletable
    {
      removedInput := RemoveIfExists(inputPath);
      removedOutput := RemoveIfExists(outputPath);
    }

    method Write(bucket: Bucket, name: string)
      modifies this`writes
      ensures writes == old(writes) + [Put(bucket, name)]
    {
      writes := writes + [Put(bucket, name)];
    }

    /** `convert_video` for one request with job id `job` and step outcomes `o`. */
    method ConvertVideo(req: Request, job: string, o: Outcomes) returns (resp: Response)
      modifies this`scratch, this`writes
      ensures (resp, Machine(scratch, writes))
           == Convert(Host(storageReady, undeletable), Machine(old(scratch), old(writes)), req, job, o)
    {
      if !storageReady {
        return Aborted(StorageUnavailable);
      }
      if req.video.None? {
        return Aborted(MissingFile);
      }
      var original := req.video.value;
      if original == "" || req.format.None? || req.format.value == "" {
        return Aborted(InvalidFileOrFormat);
      }
      var format := req.format.value;
      var inputPath := LocalInputPath(job, original);
      var outputPath := LocalOutputPath(job, original, format);
      InputAndOutputScratchDiffer(job, original, job, original, format);

      // Upload the input file to the input bucket.
      if !o.inputUploaded {
        return Aborted(InputUploadFailed);
      }
      Write(InputBucket, InputBlobName(job, original));

      // Download it again into the processing directory.
      match o.fetch {
        case FetchNotFound(partial) =>
          if partial {
            scratch := scratch + {inputPath};
          }
          return Aborted(InputDisappeared);
        case FetchError(partial) =>
          if partial {
            scratch := scratch + {inputPath};
          }
          var removed := RemoveIfExists(inputPath);
          return Aborted(FetchFailed);
        case Fetched =>
          scratch := scratch + {inputPath};
      }

      // Run ffmpeg from the input scratch file to the output scratch file.
      match o.transcode {
        case FfmpegError(stderr, partial) =>
          if partial {
            scratch := scratch + {outputPath};
          }
          var removed := RemoveIfExists(inputPath);
          return Aborted(ConversionFailed(FfmpegMessage(stderr)));
        case TranscodeCrashed(partial) =>
          if partial {
            scratch := scratch + {outputPath};
          }
          var removed := RemoveIfExists(inputPath);
          return Aborted(ConversionCrashed);
        case Transcoded =>
          scratch := scratch + {outputPath};
      }

      // Upload the output; the `finally` cleanup runs on success and on failure.
      if o.outputUploaded {
        Write(OutputBucket, OutputBlobName(job, original, format));
      }
      var removedInput, removedOutput := CleanUpProcessingFiles(inputPath, outputPath);
      if !o.outputUploaded {
        return Aborted(OutputUploadFailed);
      }
      return Redirect(GcsOutputFilename(job, original, format));
    }
  }
}
