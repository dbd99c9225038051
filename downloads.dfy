/**
 * The availability page and the two download routes of Flask-VM-App/app.py. Given the
 * identifier a conversion redirected to, `download_options` checks the output bucket for the
 * converted video and for its transcript and links each one that exists; the download routes
 * turn the file name in such a link back into an object name.
 */
module Downloads {
  import opened Wrappers
  import opened PosixPath
  import opened Naming

  /** `video_blob_name` in `download_options`. */
  function VideoBlobName(identifier: string): string
  {
    "converted/" + identifier
  }

  /** `transcription_filename` in `download_options`: the identifier's base name with `.json`. */
  function TranscriptionFilename(identifier: string): string
  {
    SplitExt(identifier).root + ".json"
  }

  /** `transcription_blob_name` in `download_options`. */
  function TranscriptionBlobName(identifier: string): string
  {
    "transcriptions/converted/" + TranscriptionFilename(identifier)
  }

  /** The object `download_video_file(filename)` serves from the output bucket. */
  function VideoDownloadBlob(filename: string): string
  {
    "converted/" + filename
  }

  /** The object `download_transcription_file(filename)` serves from the output bucket. */
  function TranscriptionDownloadBlob(filename: string): string
  {
    "transcriptions/converted/" + filename
  }

  /**
   * What `download_options` renders. A link is the `filename` argument of the `url_for` call
   * that builds it, or `None` when the page shows no link.
   */
  datatype OptionsPage = OptionsPage(
    videoFilename: string,
    videoAvailable: bool,
    videoLink: Option<string>,
    transcriptionFilename: string,
    transcriptionAvailable: bool,
    transcriptionLink: Option<string>)

  datatype OptionsResponse = Rendered(page: OptionsPage) | Failed(status: int)

  /**
   * `download_options(identifier)`. `storageReady` says whether the storage client was
   * initialised at start-up, `storeAnswers` whether both existence checks return rather than
   * raise, and `outputObjects` is the set of object names in the output bucket.
   */
  function DownloadOptions(storageReady: bool, storeAnswers: bool, outputObjects: set<string>, identifier: string)
    : (r: OptionsResponse)
    ensures r.Rendered? <==> storageReady && storeAnswers
    ensures r.Failed? ==> r.status == 500
    ensures r.Rendered? ==>
      && r.page.videoFilename == identifier
      && (r.page.videoAvailable <==> VideoBlobName(identifier) in outputObjects)
      && (r.page.videoLink.Some? <==> r.page.videoAvailable)
      && (r.page.videoLink.Some? ==> VideoDownloadBlob(r.page.videoLink.value) == VideoBlobName(identifier))
    ensures r.Rendered? ==>
      && r.page.transcriptionFilename == TranscriptionFilename(identifier)
      && (r.page.transcriptionAvailable <==> TranscriptionBlobName(identifier) in outputObjects)
      && (r.page.transcriptionLink.Some? <==> r.page.transcriptionAvailable)
      && (r.page.transcriptionLink.Some? ==>
            TranscriptionDownloadBlob(r.page.transcriptionLink.value) == TranscriptionBlobName(identifier))
  {
    if !storageReady then Failed(500)
    else
      var videoBlobName := VideoBlobName(identifier);
      var transcriptionFilename := TranscriptionFilename(identifier);
      var transcriptionBlobName := TranscriptionBlobName(identifier);
      if !storeAnswers then Failed(500)
      else
        var videoAvailable := videoBlobName in outputObjects;
        var videoLink := if videoAvailable then Some(identifier) else None;
        var transcriptionAvailable := transcriptionBlobName in outputObjects;
        var transcriptionLink := if transcriptionAvailable then Some(transcriptionFilename) else None;
        Rendered(OptionsPage(identifier, videoAvailable, videoLink,
                             transcriptionFilename, transcriptionAvailable, transcriptionLink))
  }

  /** The identifier a conversion redirects to names exactly the object it uploaded. */
  lemma RedirectIdentifierNamesOutput(job: string, original: string, format: string)
    ensures VideoBlobName(GcsOutputFilename(job, original, format)) == OutputBlobName(job, original, format)
    ensures VideoDownloadBlob(GcsOutputFilename(job, original, format)) == OutputBlobName(job, original, format)
  {
  }

  /**
   * For a conversion of a plain file name (no '/') to a plain format (no '.' or '/'), the
   * transcript the page looks for is named after the job and the original base name.
   */
  lemma {:induction false} TranscriptFilenameOfOutput(job: string, original: string, format: string)
    requires '/' !in job && '/' !in original
    requires '.' !in format && '/' !in format
    ensures TranscriptionFilename(GcsOutputFilename(job, original, format)) == job + "_" + BaseName(original) + ".json"
  {
    var stem := job + "_" + BaseName(original);
    var p := GcsOutputFilename(job, original, format);
    assert p == stem + ("." + format);
    assert '/' !in BaseName(original) by {
      assert original == BaseName(original) + SplitExt(original).ext;
      forall i | 0 <= i < |BaseName(original)| ensures BaseName(original)[i] != '/' {
        assert BaseName(original)[i] == original[i];
      }
    }
    assert p[|job|] == '_';
    forall j | 0 <= j < |stem| ensures p[j] != '/' {
      if j < |job| { assert p[j] == job[j]; }
      else if j > |job| { assert p[j] == BaseName(original)[j - |job| - 1]; }
    }
    forall j | |stem| < j < |p| ensures p[j] != '.' && p[j] != '/' {
      assert p[j] == format[j - |stem| - 1];
    }
    assert ExtensionAt(p, |stem|);
    SplitExtMatchesReference(p);
    assert p[..|stem|] == stem;
  }
}
