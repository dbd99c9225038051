/**
 * `process_video_transcription` (Cloud-Run-Function/main.py): the handler a storage event
 * calls for every new object. It skips events without a bucket or an object name, objects in
 * its own output folder and objects whose name does not end in a video extension; otherwise
 * it asks the Video Intelligence service to transcribe `gs://{bucket}/{name}` into a JSON
 * object in the same bucket. The service is abstracted by how its two steps go.
 */
module Transcription {
  import opened Wrappers
  import opened Text
  import opened PosixPath

  const OutputFolder := "transcriptions/"
  const SupportedExtensions: seq<string> := [".mp4", ".mov", ".avi", ".mpg", ".mpeg", ".mkv", ".webm"]
  const LanguageCode := "en-US"

  /** The `bucket` and `name` entries of the event data, each possibly absent. */
  datatype Event = Event(bucket: Option<string>, name: Option<string>)

  /** The speech-transcription request given to `annotate_video`. */
  datatype AnnotateRequest = AnnotateRequest(
    inputUri: string,
    outputUri: string,
    languageCode: string,
    automaticPunctuation: bool,
    speakerDiarization: bool)

  /**
   * How the two Video Intelligence steps go. Constructing the client (main.py:52) comes before
   * the `try`, so its failure escapes the handler; `annotate_video` runs inside the `try`, so
   * its failure is printed and swallowed.
   */
  datatype ServiceOutcome = ClientFails | StartFails | Starts

  /**
   * How the handler ends. The three skips return at once. An accepted object has its request
   * formed; what then happens is the service outcome.
   */
  datatype Handling =
    | MissingBucketOrName
    | InOutputFolder
    | UnsupportedType
    | Accepted(request: AnnotateRequest, service: ServiceOutcome)
  {
    /** The handler raises instead of returning. */
    predicate Raises()
    {
      Accepted? && service.ClientFails?
    }

    /** A transcription job was started. */
    predicate Started()
    {
      Accepted? && service.Starts?
    }
  }

  /** Python truthiness of `data.get(key)` for a text value: present and not empty. */
  predicate Present(field: Option<string>)
  {
    field.Some? && field.value != ""
  }

  /** `name.lower().endswith(supported_extensions)`. */
  predicate IsSupportedVideo(name: string)
  {
    exists i :: 0 <= i < |SupportedExtensions| && EndsWith(Lower(name), SupportedExtensions[i])
  }

  /** `f"gs://{bucket}/{objectName}"`. */
  function GcsUri(bucket: string, objectName: string): string
  {
    "gs://" + bucket + "/" + objectName
  }

  /** The object, in the source's bucket, that the transcript of `name` is written to. */
  function TranscriptObjectName(name: string): string
  {
    OutputFolder + SplitExt(name).root + ".json"
  }

  /** `process_video_transcription(event)`, where `service` is how the Video Intelligence steps go. */
  function ProcessVideoTranscription(event: Event, service: ServiceOutcome): (h: Handling)
    ensures h.Accepted? <==>
      Present(event.bucket) && Present(event.name)
      && !StartsWith(event.name.value, OutputFolder) && IsSupportedVideo(event.name.value)
    ensures h.Accepted? ==>
      && h.request.inputUri == GcsUri(event.bucket.value, event.name.value)
      && h.request.outputUri == GcsUri(event.bucket.value, TranscriptObjectName(event.name.value))
      && h.request == AnnotateRequest(h.request.inputUri, h.request.outputUri, "en-US", true, true)
      && h.service == service
    ensures h.Raises() <==> h.Accepted? && service.ClientFails?
    ensures h.Started() <==> h.Accepted? && service.Starts?
  {
    if !Present(event.bucket) || !Present(event.name) then MissingBucketOrName
    else
      var bucket, name := event.bucket.value, event.name.value;
      if StartsWith(name, OutputFolder) then InOutputFolder
      else if !IsSupportedVideo(name) then UnsupportedType
      else
        var inputUri := GcsUri(bucket, name);
        var baseName := SplitExt(name).root;
        var outputUri := GcsUri(bucket, OutputFolder + baseName + ".json");
        Accepted(AnnotateRequest(inputUri, outputUri, LanguageCode, true, true), service)
  }

  /** Extension matching ignores case: a name and its upper-cased form pass the extension check alike. */
  lemma {:induction false} MatchIgnoresCase(name: string)
    ensures IsSupportedVideo(Upper(name)) <==> IsSupportedVideo(name)
  {
    LowerOfUpper(name);
  }

  /** The output folder's name is lower case, so no upper-cased name lies in it. */
  lemma UpperIsOutsideOutputFolder(name: string)
    ensures !StartsWith(Upper(name), OutputFolder)
  {
    if |name| > 0 {
      assert Upper(name)[0] != OutputFolder[0];
    }
  }

  /**
   * Outside the output folder the handler ignores case: a name and its upper-cased form are
   * accepted alike, in any bucket.
   */
  lemma {:induction false} CaseIsIgnoredOutsideOutputFolder(bucket: Option<string>, name: string, service: ServiceOutcome)
    requires !StartsWith(name, OutputFolder)
    ensures ProcessVideoTranscription(Event(bucket, Some(Upper(name))), service).Accepted?
        <==> ProcessVideoTranscription(Event(bucket, Some(name)), service).Accepted?
  {
    MatchIgnoresCase(name);
    UpperIsOutsideOutputFolder(name);
  }

  /**
   * The folder check is case-sensitive: a video in the output folder is skipped, but the same
   * name upper-cased, such as `TRANSCRIPTIONS/A.MP4`, is transcribed.
   */
  lemma {:induction false} FolderCheckIsCaseSensitive(bucket: Option<string>, name: string, service: ServiceOutcome)
    requires Present(bucket) && StartsWith(name, OutputFolder) && IsSupportedVideo(name)
    ensures ProcessVideoTranscription(Event(bucket, Some(name)), service).InOutputFolder?
    ensures ProcessVideoTranscription(Event(bucket, Some(Upper(name))), service).Accepted?
  {
    MatchIgnoresCase(name);
    UpperIsOutsideOutputFolder(name);
  }

  /** An upper-case extension is accepted: `CLIP.MOV` is transcribed. */
  lemma {:induction false} UpperCaseExtensionAccepted(bucket: string, service: ServiceOutcome)
    requires bucket != ""
    ensures ProcessVideoTranscription(Event(Some(bucket), Some("CLIP.MOV")), service).Accepted?
  {
    assert Lower("CLIP.MOV") == "clip.mov";
    assert EndsWith(Lower("CLIP.MOV"), SupportedExtensions[1]);
    assert !StartsWith("CLIP.MOV", OutputFolder);
  }

  /** Any object in the output folder is skipped, whatever follows the folder name. */
  lemma OutputFolderIsSkipped(bucket: Option<string>, rest: string, service: ServiceOutcome)
    ensures !ProcessVideoTranscription(Event(bucket, Some(OutputFolder + rest)), service).Accepted?
  {
    assert StartsWith(OutputFolder + rest, OutputFolder);
  }

  /** A name ending in `.json`, in any case, is not a supported video. */
  lemma {:induction false} JsonIsNotVideo(name: string)
    requires EndsWith(Lower(name), ".json")
    ensures !IsSupportedVideo(name)
  {
    var l := Lower(name);
    EndsWithLastChar(l, ".json");
    if i :| 0 <= i < |SupportedExtensions| && EndsWith(l, SupportedExtensions[i]) {
      var e := SupportedExtensions[i];
      EndsWithLastChar(l, e);
      assert e[|e| - 1] in "4vigvm" by {
        assert i in {0, 1, 2, 3, 4, 5, 6};
      }
    }
  }

  /** A transcript object's name, lower-cased, ends in `.json`. */
  lemma {:induction false} TranscriptEndsInJson(name: string)
    ensures EndsWith(Lower(TranscriptObjectName(name)), ".json")
  {
    var stem := OutputFolder + SplitExt(name).root;
    assert TranscriptObjectName(name) == stem + ".json";
    LowerConcat(stem, ".json");
    assert Lower(".json") == ".json";
    EndsWithConcat(Lower(stem), ".json", ".json");
  }

  /**
   * No feedback loop: a transcript object lies in the output folder and ends in `.json`, so the
   * event its creation raises fails both the folder guard and the extension guard.
   */
  lemma {:induction false} TranscriptNeverRetriggers(bucket: Option<string>, name: string, service: ServiceOutcome)
    ensures StartsWith(TranscriptObjectName(name), OutputFolder)
    ensures !IsSupportedVideo(TranscriptObjectName(name))
    ensures !ProcessVideoTranscription(Event(bucket, Some(TranscriptObjectName(name))), service).Accepted?
  {
    TranscriptEndsInJson(name);
    JsonIsNotVideo(TranscriptObjectName(name));
    assert TranscriptObjectName(name) == OutputFolder + (SplitExt(name).root + ".json");
    OutputFolderIsSkipped(bucket, SplitExt(name).root + ".json", service);
  }

  /** A video extension at the end of a name stays at the end when a prefix is put in front. */
  lemma {:induction false} SupportedUnderPrefix(prefix: string, name: string)
    requires IsSupportedVideo(name)
    ensures IsSupportedVideo(prefix + name)
  {
    var i :| 0 <= i < |SupportedExtensions| && EndsWith(Lower(name), SupportedExtensions[i]);
    LowerConcat(prefix, name);
    EndsWithConcat(Lower(prefix), Lower(name), SupportedExtensions[i]);
  }

  /**
   * An error from `annotate_video` is swallowed: the handler makes the same request and
   * returns normally, and only whether the job started differs.
   */
  lemma StartFailureIsSwallowed(event: Event)
    ensures !ProcessVideoTranscription(event, StartFails).Raises()
    ensures !ProcessVideoTranscription(event, StartFails).Started()
    ensures ProcessVideoTranscription(event, StartFails).Accepted?
        <==> ProcessVideoTranscription(event, Starts).Accepted?
    ensures ProcessVideoTranscription(event, StartFails).Accepted? ==>
      ProcessVideoTranscription(event, StartFails) == ProcessVideoTranscription(event, Starts).(service := StartFails)
    ensures !ProcessVideoTranscription(event, StartFails).Accepted? ==>
      ProcessVideoTranscription(event, StartFails) == ProcessVideoTranscription(event, Starts)
  {
  }

  /**
   * A client that cannot be constructed is not caught: the handler raises for exactly the
   * events it would otherwise transcribe, and returns normally for every event it skips.
   */
  lemma ClientFailureEscapes(event: Event)
    ensures ProcessVideoTranscription(event, ClientFails).Raises()
        <==> ProcessVideoTranscription(event, Starts).Started()
    ensures !ProcessVideoTranscription(event, ClientFails).Raises() ==>
      ProcessVideoTranscription(event, ClientFails) == ProcessVideoTranscription(event, Starts)
  {
  }
}
