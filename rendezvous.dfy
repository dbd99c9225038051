/**
 * Where the web application and the storage trigger meet. They share no state: the trigger
 * writes a transcript at a name it derives from the video's object name, and
 * `download_options` looks for a transcript at a name it derives from the identifier. The
 * two agree for converted outputs in the output bucket and for nothing else.
 */
module Rendezvous {
  import opened Wrappers
  import opened Text
  import opened PosixPath
  import opened Naming
  import opened Downloads
  import opened Conversion
  import opened Transcription

  /** The trigger's output folder followed by `converted/` is the folder the page looks in. */
  lemma PolledFolder()
    ensures OutputFolder + "converted/" == "transcriptions/converted/"
  {
  }

  /** The transcript the trigger writes for `converted/X` is the object the page checks for `X`. */
  lemma {:induction false} ConvertedTranscriptIsPolled(x: string)
    ensures TranscriptObjectName("converted/" + x) == TranscriptionBlobName(x)
  {
    SplitExtUnderDirectory("converted/", x);
    PolledFolder();
    calc {
      TranscriptObjectName("converted/" + x);
      OutputFolder + ("converted/" + SplitExt(x).root) + ".json";
      (OutputFolder + "converted/") + (SplitExt(x).root + ".json");
      TranscriptionBlobName(x);
    }
  }

  /**
   * A new `converted/X` object with a video extension, in any bucket, is accepted with an output
   * URI that is, in that bucket, the object `download_options` checks for identifier `X`.
   */
  lemma {:induction false} TriggerOnConvertedWritesPolledObject(bucket: string, x: string, service: ServiceOutcome)
    requires bucket != "" && IsSupportedVideo(x)
    ensures var h := ProcessVideoTranscription(Event(Some(bucket), Some("converted/" + x)), service);
      h.Accepted? && h.request.outputUri == GcsUri(bucket, TranscriptionBlobName(x))
  {
    var name := "converted/" + x;
    assert IsSupportedVideo(name) by {
      SupportedUnderPrefix("converted/", x);
    }
    assert !StartsWith(name, OutputFolder) by {
      assert name[0] == 'c';
    }
    assert TranscriptObjectName(name) == TranscriptionBlobName(x) by {
      ConvertedTranscriptIsPolled(x);
    }
  }

  /**
   * The trigger's transcript of an upload lies under `transcriptions/uploads/`, which the page
   * never looks at: it matches no transcript object the page checks, for any identifier.
   */
  lemma {:induction false} UploadTranscriptIsNeverPolled(y: string, identifier: string)
    ensures StartsWith(TranscriptObjectName("uploads/" + y), OutputFolder + "uploads/")
    ensures TranscriptObjectName("uploads/" + y) != TranscriptionBlobName(identifier)
  {
    SplitExtUnderDirectory("uploads/", y);
    var t := TranscriptObjectName("uploads/" + y);
    assert t == OutputFolder + "uploads/" + (SplitExt(y).root + ".json");
    assert t[15] == 'u';
    assert TranscriptionBlobName(identifier)[15] == 'c';
  }

  /**
   * End to end: when a conversion to a video format succeeds, its last write is the converted
   * object in the output bucket; the event for that object is accepted with an output
   * URI that is the transcript the page for the redirect identifier checks; and once that object exists,
   * the page reports the transcript as available and links to it.
   */
  lemma {:induction false} ConvertedVideoTranscriptIsFound(
    host: Host, m: Machine, req: Request, job: string, o: Outcomes,
    service: ServiceOutcome, outputObjects: set<string>)
    requires Convert(host, m, req, job, o).0.Redirect?
    requires IsSupportedVideo("." + req.format.value)
    ensures var (resp, m') := Convert(host, m, req, job, o);
      var h := ProcessVideoTranscription(Event(Some(OutputBucketName), Some(VideoBlobName(resp.identifier))), service);
      && |m'.writes| > 0
      && m'.writes[|m'.writes| - 1] == Put(OutputBucket, VideoBlobName(resp.identifier))
      && h.Accepted?
      && h.request.outputUri == GcsUri(OutputBucketName, TranscriptionBlobName(resp.identifier))
    ensures var id := Convert(host, m, req, job, o).0.identifier;
      TranscriptObjectName(VideoBlobName(id)) in outputObjects ==>
        var r := DownloadOptions(true, true, outputObjects, id);
        r.Rendered? && r.page.transcriptionAvailable
        && TranscriptionDownloadBlob(r.page.transcriptionLink.value) == TranscriptObjectName(VideoBlobName(id))
  {
    SucceedsIffEveryStepSucceeds(host, m, req, job, o);
    var original, format := req.video.value, req.format.value;
    var id := Convert(host, m, req, job, o).0.identifier;
    assert id == (job + "_" + BaseName(original)) + ("." + format);
    SupportedUnderPrefix(job + "_" + BaseName(original), "." + format);
    TriggerOnConvertedWritesPolledObject(OutputBucketName, id, service);
    ConvertedTranscriptIsPolled(id);
  }

  /** No object URI of the input bucket is an object URI of the output bucket. */
  lemma {:induction false} BucketsNeverShareUris(inputObject: string, outputObject: string)
    ensures GcsUri(InputBucketName, inputObject) != GcsUri(OutputBucketName, outputObject)
  {
    var written := GcsUri(InputBucketName, inputObject);
    var polled := GcsUri(OutputBucketName, outputObject);
    assert written == ("gs://" + InputBucketName + "/") + inputObject;
    assert polled == ("gs://" + OutputBucketName + "/") + outputObject;
    assert written[17] == 'i';
    assert polled[17] == 'o';
  }

  /**
   * The asymmetry, end to end: whatever the trigger does for a job's upload in the input bucket,
   * it never writes the transcript URI the page checks in the output bucket, for any identifier.
   */
  lemma {:induction false} UploadEventNeverFeedsPage(job: string, original: string, identifier: string, service: ServiceOutcome)
    ensures var h := ProcessVideoTranscription(Event(Some(InputBucketName), Some(InputBlobName(job, original))), service);
      h.Accepted? ==>
        && StartsWith(TranscriptObjectName(InputBlobName(job, original)), OutputFolder + "uploads/")
        && h.request.outputUri != GcsUri(OutputBucketName, TranscriptionBlobName(identifier))
  {
    var name := InputBlobName(job, original);
    assert name == "uploads/" + GcsInputFilename(job, original);
    UploadTranscriptIsNeverPolled(GcsInputFilename(job, original), identifier);
    var h := ProcessVideoTranscription(Event(Some(InputBucketName), Some(name)), service);
    BucketsNeverShareUris(TranscriptObjectName(name), TranscriptionBlobName(identifier));
  }
}
