# Video conversion and transcription: naming protocol and control flow

This project models the core of a two-part video service and proves properties of the model in Dafny.

- The **web application** (`Flask-VM-App/app.py`) accepts an upload and a target format. It stores the upload under `uploads/` in the input bucket. It fetches the upload again into a scratch directory and runs ffmpeg on it. It stores the result under `converted/` in the output bucket, then redirects to an availability page. That page checks the output bucket for the converted video and for its transcript.
- The **storage trigger** (`Cloud-Run-Function/main.py`) runs for every new object. It decides whether the object is a video it should transcribe. If so, it asks the Video Intelligence service to write a JSON transcript into the same bucket, under `transcriptions/`.

The two processes share no state. They agree only through object names, so the model centres on the functions that derive those names:

- the job's upload and output names, and its two scratch paths;
- the names the availability page and the download routes look up;
- the transcript name the trigger writes to.

Both components depend on `os.path.splitext`, so its POSIX rule is modelled exactly and proved against an independent definition.

Names are compared as strings everywhere except in one module. `Resolution` models how the file system resolves a path, component by component. It shows that a client's file name can make a scratch path leave the processing directory (see "## Findings").

Modules, one per component:

- `Text`: ASCII `str.lower`, `startswith`, `endswith`.
- `PosixPath`: `splitext` and two-argument `join`.
- `Naming`: the names derived in `convert_video`.
- `Resolution`: which file a scratch path names once '..' components are resolved.
- `Utf8`: `bytes.decode(errors='ignore')`, used on ffmpeg's error output.
- `Downloads`: `download_options` and the two download routes.
- `Conversion`: `convert_video`.
- `Transcription`: `process_video_transcription`.
- `Rendezvous`: lemmas that cross the two components.

`convert_video` is imperative. It creates and removes scratch files step by step and records bucket writes. It is modelled twice:

- as `Conversion.ConversionServer.ConvertVideo`, a method over a mutable scratch-file set and a write log;
- as `Conversion.Convert`, a pure function that says what one request answers and does.

The method is proved equal to the function, and the cleanup lemmas are proved about the function. Each external step has an injected outcome: input upload, fetch, ffmpeg, output upload, and every attempt to delete a scratch file.

Behaviours of the code worth noting, which the model keeps as they are:

- There is no allow-list of target formats. The code only checks that the format is non-empty.
- A failed ffmpeg run does not remove the output scratch file. Only the input scratch file is removed.
- A fetch that fails with "not found" removes nothing.
- The trigger constructs its Video Intelligence client before its `try`. A failure there escapes the handler, while a failure to start the job is printed and swallowed.
- ffmpeg's error output is tested for emptiness as bytes and only then decoded, dropping undecodable bytes. Non-empty output with no valid UTF-8 in it is shown as an empty message.
- The trigger's extension check ignores case, but its `transcriptions/` folder check does not. An upper-cased name such as `TRANSCRIPTIONS/A.MP4` is transcribed.
- Transcripts of uploads land under `transcriptions/uploads/`, which the availability page never looks at. The model states this asymmetry as proved lemmas and does not change it.

## Model

| member | source | states |
|---|---|---|
| Text.Lower | Cloud-Run-Function/main.py:36 | `str.lower` keeps the length and lower-cases each ASCII capital, position by position |
| PosixPath.SplitExt | Flask-VM-App/app.py:139 | `splitext` returns a root and an extension that concatenate back to the path; the extension is empty or starts with '.' |
| PosixPath.SplitExtMatchesReference | Flask-VM-App/app.py:139 | `splitext` splits iff the path has a split point: a '.' with no '.' or '/' after it and a non-dot character before it in the same component. It then splits exactly there, so leading dots such as `.mov` do not count |
| PosixPath.SplitExtUnderDirectory | Cloud-Run-Function/main.py:47 | for any `dir` ending in '/': `splitext(dir + x) == (dir + splitext(x)[0], splitext(x)[1])` |
| PosixPath.Join | Flask-VM-App/app.py:149-150 | `os.path.join(a, b)` is `b` when `b` is absolute. Otherwise it is `a`, then at most one '/', then `b`, and the '/' is added exactly when `a` is non-empty and does not end in '/' |
| Naming.ScratchPathsOfJob | Flask-VM-App/app.py:148-150 | the scratch paths are `/tmp/videoconverter_processing/input_{job}_{orig}` and `/tmp/videoconverter_processing/output_{job}_{base}.{fmt}` |
| Naming.DistinctJobsDistinctNames | Flask-VM-App/app.py:143-154 | two distinct 36-character job ids give distinct upload names, output names, input scratch path strings and output scratch path strings, whatever the file names and formats |
| Naming.InputAndOutputScratchDiffer | Flask-VM-App/app.py:149-150 | an input scratch path never equals an output scratch path, in the same job or in any other |
| Resolution.Components | Flask-VM-App/app.py:173-174 | how the file system splits the path it opens (and removes, at lines 182-184, 203-205 and 241-250) into components: the '/'-separated pieces, each free of '/' |
| Resolution.JoinComponents | Flask-VM-App/app.py:173-174 | the components the file system reads from a path, joined with '/', give the path back |
| Resolution.ComponentsOfJoin | Flask-VM-App/app.py:173-174 | the components of `p + "/" + q` are those of `p` followed by those of `q` |
| Resolution.Walk | Flask-VM-App/app.py:173-174 | resolving components from the root keeps only names: never an empty component, '.' or '..' |
| Resolution.TraversalEscapesProcessingDirectory | Flask-VM-App/app.py:145-174 | for every job id, the input scratch path of the client file name `/../../x` names the file `/tmp/x`, outside the processing directory |
| Resolution.DistinctJobsShareTraversalFile | Flask-VM-App/app.py:145-174 | two distinct job ids that both receive `/../../x` get different scratch path strings that name the same file |
| Resolution.ConfinedInputStaysInProcessingDirectory | Flask-VM-App/app.py:145-174 | built from the last component of the client's file name only, the input scratch path resolves to itself: a file directly in the processing directory named `input_{job}_{name}` |
| Resolution.ConfinedInputsOfDistinctJobsDiffer | Flask-VM-App/app.py:145-174 | with confined input paths, two distinct job ids always name two distinct files, whatever the file names |
| Utf8.CodePoint | Flask-VM-App/app.py:200 | a well-formed UTF-8 sequence of length 1 to 4 decodes to a Unicode scalar value in that length's range, never a surrogate |
| Utf8.DecodeEncoded | Flask-VM-App/app.py:200 | `text.encode().decode(errors='ignore') == text` for every text |
| Utf8.InvalidByteIsDropped | Flask-VM-App/app.py:200 | a byte that starts no well-formed sequence (0xC0, 0xC1, 0xF5 and above, or a continuation byte) adds nothing to the decoded text |
| Downloads.DownloadOptions | Flask-VM-App/app.py:265-315 | renders iff storage is up and both existence checks answer, otherwise 500. `video_available` iff `converted/{id}` exists, and the video link is present iff that flag is set. `transcription_available` iff `transcriptions/converted/{splitext(id)[0]}.json` exists, and the transcript link is present iff that flag is set. The page shows `identifier` as the video name and `transcription_filename` as the transcript name. Each link's file name, passed to its download route, resolves to the object that was checked |
| Downloads.RedirectIdentifierNamesOutput | Flask-VM-App/app.py:260-275 | `converted/` + the redirect identifier (`gcs_output_filename`) is the `output_blob_name` that was uploaded; the video download route resolves to the same object |
| Downloads.TranscriptFilenameOfOutput | Flask-VM-App/app.py:280-282 | for a plain file name and a format without '.' or '/', the page's transcript file name for the redirect identifier is `{job}_{base}.json` |
| Conversion.InvalidRequestHasNoEffect | Flask-VM-App/app.py:123-136 | the request is refused with 400 exactly when storage is up and the `video` part, its file name or the format is missing or empty. A refused request, or one refused because storage is down, writes nothing and creates no scratch file |
| Conversion.ConvertStaysWithinItsJob | Flask-VM-App/app.py:142-255 | a request touches no scratch file except its own two. Its writes are its upload in the input bucket and then its output in the output bucket when it redirects; only the upload when it fails after the input upload succeeded; nothing when it fails sooner. So a failed input upload writes nothing, and a request that does not redirect never writes `converted/…` |
| Conversion.FetchFailureRemovesOnlyInput | Flask-VM-App/app.py:179-187 | a failed fetch (not "not found") answers 500 and removes the input scratch file, partial or not, unless deletion fails; the output scratch file is untouched |
| Conversion.FetchNotFoundSkipsCleanup | Flask-VM-App/app.py:176-178 | a fetch that reports "not found" answers 500 and removes nothing, so a partial input file stays |
| Conversion.TranscodeFailureKeepsOutput | Flask-VM-App/app.py:199-216 | a failed ffmpeg run answers 500 and removes the input scratch file unless deletion fails. It leaves the output scratch file as ffmpeg left it. The caller sees the fixed text when the stderr bytes are empty, and otherwise those bytes decoded with undecodable bytes dropped |
| Conversion.FfmpegMessageOfText | Flask-VM-App/app.py:200 | stderr that is the UTF-8 encoding of a non-empty text is shown as that text; empty stderr is shown as "Unknown ffmpeg error" |
| Conversion.UndecodableStderrShowsEmptyText | Flask-VM-App/app.py:200 | non-empty stderr made only of bytes that start no UTF-8 sequence, such as the single byte 0xFF, is shown as the empty text |
| Conversion.UploadStageRemovesBoth | Flask-VM-App/app.py:219-255 | once ffmpeg succeeded, both scratch files are removed (unless deletion fails), whether or not the output upload succeeds; the request redirects iff the upload succeeds |
| Conversion.SucceedsIffEveryStepSucceeds | Flask-VM-App/app.py:156-260 | a request redirects iff storage is up, it is valid and all four steps succeed. It then redirects to `gcs_output_filename`, after writing exactly its upload and then `converted/` + that identifier |
| Conversion.ConversionServer.RemoveIfExists | Flask-VM-App/app.py:241-247 | `if exists: remove`. The file is gone afterwards unless its removal fails. The flag reports whether this call removed it |
| Conversion.ConversionServer.CleanUpProcessingFiles | Flask-VM-App/app.py:236-255 | the `finally` block tries to remove both scratch files. `removed_input` and `removed_output` say which ones this block removed |
| Conversion.ConversionServer.ConvertVideo | Flask-VM-App/app.py:118-260 | the step-by-step handler's response, scratch set and write log equal what `Convert` prescribes for the old state |
| Transcription.ProcessVideoTranscription | Cloud-Run-Function/main.py:19-83 | an event is accepted iff bucket and name are present and non-empty, the name is not under `transcriptions/`, and its lower-cased form ends with a supported extension. The input URI is `gs://{bucket}/{name}`. The output URI is `gs://{bucket}/transcriptions/{splitext(name)[0]}.json`. The request is for `en-US` with punctuation and diarization. An accepted event raises iff the client cannot be constructed, and starts a job iff the client is constructed and `annotate_video` returns |
| Transcription.MatchIgnoresCase | Cloud-Run-Function/main.py:35-36 | a name and its upper-cased form pass the extension check alike |
| Transcription.CaseIsIgnoredOutsideOutputFolder | Cloud-Run-Function/main.py:24-38 | for a name outside `transcriptions/`, the handler accepts the name iff it accepts its upper-cased form, in any bucket |
| Transcription.FolderCheckIsCaseSensitive | Cloud-Run-Function/main.py:30-38 | the folder check is case-sensitive: a video under `transcriptions/` is skipped, but the same name upper-cased, such as `TRANSCRIPTIONS/A.MP4`, is accepted |
| Transcription.UpperCaseExtensionAccepted | Cloud-Run-Function/main.py:35-38 | `CLIP.MOV` is accepted |
| Transcription.OutputFolderIsSkipped | Cloud-Run-Function/main.py:30-32 | any name starting with `transcriptions/` is never accepted, whatever follows |
| Transcription.JsonIsNotVideo | Cloud-Run-Function/main.py:35-36 | a name whose lower-cased form ends in `.json` matches none of the seven extensions |
| Transcription.TranscriptEndsInJson | Cloud-Run-Function/main.py:47-49 | every transcript object name, lower-cased, ends in `.json` |
| Transcription.TranscriptNeverRetriggers | Cloud-Run-Function/main.py:30-49 | every transcript object starts with `transcriptions/` and fails the extension check, so the event for it is never accepted |
| Transcription.SupportedUnderPrefix | Cloud-Run-Function/main.py:35-36 | a name with a video extension keeps it when a prefix is put in front |
| Transcription.StartFailureIsSwallowed | Cloud-Run-Function/main.py:64-83 | an error from `annotate_video` is swallowed: the handler does not raise, starts no job, and forms the same request as when the job starts |
| Transcription.ClientFailureEscapes | Cloud-Run-Function/main.py:51-64 | a client that cannot be constructed is outside the `try`: the handler raises for exactly the events it would transcribe, and skips every other event as usual |
| Rendezvous.ConvertedTranscriptIsPolled | Cloud-Run-Function/main.py:47-49 | the transcript the trigger writes for `converted/X` is `transcriptions/converted/{splitext(X)[0]}.json`, the object the page checks for identifier X |
| Rendezvous.TriggerOnConvertedWritesPolledObject | Cloud-Run-Function/main.py:21-49 | in any bucket, a new `converted/X` with a video extension is accepted with an output URI that is that bucket's URI of the object the page checks for X |
| Rendezvous.UploadTranscriptIsNeverPolled | Cloud-Run-Function/main.py:47-49 | the trigger's transcript of `uploads/Y` lies under `transcriptions/uploads/` and equals no object the page checks, for any identifier |
| Rendezvous.BucketsNeverShareUris | Flask-VM-App/app.py:16-17 | no object URI of the input bucket is an object URI of the output bucket |
| Rendezvous.ConvertedVideoTranscriptIsFound | Cloud-Run-Function/main.py:44-49 | after a successful conversion to a video format, the last write is `converted/{id}` in the output bucket. The event for that object is accepted with an output URI that is the transcript the page checks for `id`. Once that object exists, the page shows the transcript and links to it |
| Rendezvous.UploadEventNeverFeedsPage | Cloud-Run-Function/main.py:44-49 | a job's upload in the input bucket may be accepted, but its output lies under `transcriptions/uploads/` and never has the URI the page checks, for any identifier |

## Left out

- Flask routing, templates, `url_for`, `redirect`, `send_file` and `after_this_request` are framework I/O. A link on the page is modelled as the file name passed to `url_for`. The redirect is modelled as its identifier.
- `download_blob_and_serve` is download plumbing and is not modelled. Its `abort(404)` sits inside a `try` whose `except Exception` turns it into a 500, so no 404 behaviour is claimed.
- Storage client and bucket initialisation, the credentials debug block, logging, `print` and `os.makedirs` are global side effects or output. Whether the client came up is a flag (`storageReady`).
- The ffmpeg invocation is a foreign call. It is modelled only as an outcome: success, an ffmpeg error carrying stderr, or another exception, each failure possibly leaving a partial output file.
- The GCS calls are foreign calls. Each upload, fetch and existence check is modelled only as an injected outcome. Whether a failed download leaves a partial file is part of that outcome, because the storage library is not part of this model.
- Each `os.remove` is modelled by a fixed set of paths whose removal raises `OSError`. Such a failure is only logged, so the file simply stays.
- The Video Intelligence client and its configuration are foreign calls. They are modelled only as the request the handler forms (input URI, output URI, language, punctuation, diarization) and an injected outcome: the client fails to construct, the start fails, or the job starts. Exceptions raised while building the configuration objects are not modelled. The operation handle is not modelled, and the service's own writing of the transcript is not modelled.
- uuid generation is external randomness. The job id is a parameter, and injectivity assumes the 36-character length of `str(uuid.uuid4())`.
- `str.lower` is modelled as ASCII lower-casing; Unicode case mapping is not modelled.
- Concurrency across requests is not modelled. For it the model relies on `Naming.DistinctJobsDistinctNames` and `Conversion.ConvertStaysWithinItsJob`, which are about path strings (next line).
- Conversion.ConvertStaysWithinItsJob: scratch paths are compared as unresolved strings, so "no other scratch path" means no other path string. A client file name containing `/../`, such as `/../../x`, makes a job's input path name a file outside its directory and shared with other jobs (`Resolution.DistinctJobsShareTraversalFile`). Symbolic links are not modelled either.
- The content type computed for `mov` and `avi` is never passed to the output upload, so it is not modelled. The content type of the input upload is not modelled either.
- Abort descriptions other than ffmpeg's diagnostic text, and every log message, are not modelled.
- Event data values that are not text (Python `data.get` can return any JSON value) are not modelled. `bucket` and `name` are optional strings.
- The `index` route is not modelled. It only renders a template.
- Downloads.DownloadOptions: a single flag says whether the store answers both existence checks. An exception in either check ends in the same 500, so which check raised is not distinguished.

## Findings

| source | as written | input that shows it | evidently intended | confidence | as-written member | corrected member |
|---|---|---|---|---|---|---|
| Flask-VM-App/app.py:145-174 | the client's file name goes into `local_input_path` unchanged, and `os.makedirs` creates `input_{job}_` before the download writes to that path | the file name `/../../x`: the path `/tmp/videoconverter_processing/input_{job}_/../../x` names `/tmp/x` for every job id, so the download overwrites `/tmp/x` and the cleanup deletes it | each job's input scratch file lies in the processing directory and belongs to that job alone | high that the path names `/tmp/x`; not executed | Resolution.DistinctJobsShareTraversalFile | Resolution.ConfinedInputsOfDistinctJobsDiffer |
