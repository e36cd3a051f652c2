# py-audio transcription service, modelled in Dafny

The application in `app.py` is a small Flask service. A user uploads an audio
or video file. The upload route checks the file's extension and starts a
background worker. The worker does four things in order:

1. It transcribes the file with a speech model.
2. If a speaker-diarization pipeline is configured, it tags one line per
   speaker turn.
3. It writes the result to a text file.
4. It reports its progress in a process-wide status map (10, 60, 90, then
   `done` or `error` at 100).

Two read-only routes answer from that map: the progress poll and the result
page.

The model has five modules:

- `Wrappers`: `Option` and `Result`.
- `Strings`: the Python string operations the code relies on. These are
  `lower`, `strip`, the split point of `rsplit('.', 1)`, `"\n".join` and,
  as the join's inverse, `split`.
- `Upload`: `allowed_file`, `os.path.join`, and the POST branch of the index
  route (`Dispatch`). `Dispatch` decides which error message the form shows,
  or which job (upload path, result file name, language) is launched.
- `Transcript`: the text a finished job carries, and the loop that builds one
  line per diarization turn.
- `Jobs`:
  - the status records, and `Stored`, the shape every record the worker
    writes has;
  - the collaborators, given as values;
  - the worker's writes as a specification function (`WorkerWrites`) with
    lemmas about it;
  - the two queries;
  - the class `JobStore`. It holds the status map (`entries`) and a ghost
    history of every record written to each task. Its methods `Put` and
    `SetProgress` are the two kinds of write in the source.
    `TranscribeAsync` (split into `RecordTranscription` and
    `FinishTranscription` at the points where the source calls a
    collaborator) is the worker. `Submit` is the upload route together with
    the worker it starts.

The worker is proved to append exactly the writes `WorkerWrites` lists to its
own task's history. It leaves its task's entry at the last of them and every
other task untouched. The lemmas about `WorkerWrites` then give the ordering
(10 < 60 < 90 < 100) and the terminal outcome.

## Model

| member | source | states |
|---|---|---|
| Strings.LastIndexOf | app.py:32 | the split point of `rsplit('.', 1)` is an occurrence of the separator with none after it; None exactly when the separator is absent |
| Strings.LastIndexOfLower | app.py:32 | lower-casing the name does not move its last dot |
| Strings.LowerChar | app.py:32 | `lower` maps A–Z to a–z and leaves every other character alone |
| Strings.LowerIdempotent | app.py:32 | lower-casing twice is lower-casing once |
| Strings.StripLeft | app.py:53 | `lstrip` returns a suffix of its input, removes only whitespace, and what remains does not start with whitespace |
| Strings.StripRight | app.py:53 | `rstrip` returns a prefix of its input, removes only whitespace, and what remains does not end with whitespace |
| Strings.StripIsSlice | app.py:53 | `strip` returns a contiguous slice of its input |
| Strings.StripCutsOnlySpace | app.py:53 | everything `strip` removes on either side is whitespace |
| Strings.StripEdges | app.py:53 | a non-empty stripped text neither starts nor ends with whitespace |
| Strings.StripUntrimmed | app.py:53 | text with no whitespace at either end is unchanged by `strip` |
| Strings.StripIdempotent | app.py:53 | stripping twice is stripping once |
| Strings.Join | app.py:54 | joining no lines gives the empty text, and joining one line gives that line |
| Strings.SplitOn | app.py:54 | splitting yields at least one piece and no piece holds the separator |
| Strings.SplitJoin | app.py:54 | splitting the joined lines at the separator gives back the lines, when no line holds the separator |
| Strings.JoinSplit | app.py:54 | joining the pieces of a split gives back the text |
| Upload.AllowedFileIff | app.py:31-32 | both directions: a name is allowed exactly when some dot has no dot after it and the text after that dot, lower-cased, is one of mp3, mp4, wav, m4a |
| Upload.OnlyFinalExtensionCounts | app.py:31-32 | `stem.ext` is allowed exactly when `ext`, lower-cased, is an allowed extension, whatever the stem holds |
| Upload.AllowedFileIgnoresCase | app.py:32 | lower-casing a name does not change whether it is allowed |
| Upload.NoExtensionRefused | app.py:32 | a name with no dot, or ending in its last dot, is refused |
| Upload.LastExtensionAccepted | app.py:32 | `a.txt.WAV` is allowed: only the last extension counts, in any case |
| Upload.LastExtensionRefused | app.py:32 | `a.mp3.exe` is refused although it contains an allowed extension |
| Upload.SampleWavAllowed | app.py:31-32 | `sample.wav` is allowed |
| Upload.PathJoin | app.py:82 | `os.path.join`: an absolute name replaces the folder; otherwise the name follows the folder after one '/' |
| Upload.ResultPathJoins | app.py:59 | a relative result file name lands under `results/` |
| Upload.SampleResultPath | app.py:59 | the result of `sample.wav.txt` is written to `results/sample.wav.txt` |
| Upload.Dispatch | app.py:73-90 | a job is launched exactly when a non-empty, allowed file name is given; otherwise "No file part", "No selected file" or "File type not allowed", in that order of checks; a launched job uploads to `uploads/<sanitized>`, writes its result to `<sanitized>.txt` and takes the form's language, defaulting to "auto" |
| Upload.SampleWavLaunched | app.py:79-86 | uploading `sample.wav` with language "auto" launches the job on `uploads/sample.wav` with result `sample.wav.txt` |
| Transcript.SpeakerLines | app.py:49-53 | one line per diarization turn |
| Transcript.SpeakerLinesAt | app.py:50-53 | line k is `[<speaker of turn k>] <stripped transcript>` |
| Transcript.CollectSegments | app.py:49-53 | the loop over the turns appends exactly the lines `SpeakerLines` lists, in turn order |
| Transcript.NoPipelineKeepsTranscript | app.py:55-56 | without a pipeline the transcript is kept verbatim, not stripped |
| Transcript.NoTurnsGiveEmptyText | app.py:46-54 | a pipeline that finds no turn gives the empty text |
| Transcript.DiarizedTextLines | app.py:45-56 | with at least one turn, splitting the diarized text at line breaks gives back one line per turn, in turn order, when neither labels nor stripped transcript hold a line break |
| Transcript.TwoSpeakerTranscript | app.py:50-54 | two turns give exactly two lines, each tagged with its own speaker and holding the whole stripped transcript |
| Jobs.TranscribeLanguage | app.py:37-39 | a language constraint is passed exactly when the language is non-empty and not "auto", and it is that language |
| Jobs.Diarize | app.py:45-56 | without a pipeline the diarization step returns the transcript unchanged; a pipeline that raises makes the step fail with that exception's message |
| Jobs.DiarizeWithPipeline | app.py:47-54 | with a pipeline that returns turns, the step returns one line per turn joined by line breaks |
| Jobs.RunDiarization | app.py:45-56 | the pipeline call and the loop compute exactly the step `Diarize` specifies, including the pipeline's failure |
| Jobs.WorkerProgressOrder | app.py:34-69 | the worker writes 2 to 4 records: 10 first, then 60 and 90 as far as it gets, and last a terminal record at 100; progress strictly increases, only the last write is terminal, and every write has the stored shape |
| Jobs.WorkerOutcome | app.py:34-69 | the last record is `done` exactly when transcription, diarization and the result write all succeed, and it then holds the result file name and the diarized text; otherwise it is `error` at 100 with the message of the failure that stopped it: the speech model's, the pipeline's or the result write's |
| Jobs.NoPipelineResultIsTranscript | app.py:55-67 | without a pipeline a finished job carries the speech model's transcript verbatim |
| Jobs.NoPipelineDone | app.py:41-67 | without a pipeline, a successful transcription and write end the job `done` with its result file name and the transcript |
| Jobs.SampleWavScenario | app.py:79-88 | `sample.wav` with "auto" and no pipeline is launched without a language constraint and ends `done` with `sample.wav.txt` and the transcript verbatim |
| Jobs.Progress | app.py:99 | the progress route returns the stored record, or `not_found` with progress 0 for an unknown id |
| Jobs.ResultPage | app.py:104-107 | the result page shows text and download exactly for a `done` job; every other id redirects to its processing page |
| Jobs.QueriesAfterWorker | app.py:97-107 | after the worker, polling its id gives a terminal record at 100; the result page opens exactly when the job is done; every other id reads as before |
| Jobs.JobStore.constructor | app.py:29 | the status map starts empty |
| Jobs.JobStore.Put | app.py:35 | a whole-record write replaces the task's entry and is appended to its history; nothing else changes |
| Jobs.JobStore.SetProgress | app.py:42 | an in-place progress update keeps the task `processing` with the new progress |
| Jobs.JobStore.TranscribeAsync | app.py:34-69 | the worker appends exactly `WorkerWrites` to its task's history and leaves the entry at the last of them; other tasks are unchanged and the map stays consistent |
| Jobs.JobStore.RecordTranscription | app.py:41-43 | after the speech model, the worker appends the error, or 60 followed by the diarization stage |
| Jobs.JobStore.FinishTranscription | app.py:45-69 | after the transcript, the worker appends the error, or 90 followed by `done` or the write's error |
| Jobs.JobStore.Submit | app.py:73-90 | a rejected upload leaves the map and history alone; an accepted one runs the worker for the new id to completion |

## Left out

- The speech model, the diarization pipeline and the result-file write are parameters of the model (`Collaborators`). Each either returns a value or raises with a message. What whisper and pyannote compute is not modelled.
- The diarization pipeline's turns are reduced to their speaker labels in order; turn times and `itertracks` are not modelled.
- Other exceptions inside the worker's `try` block are not modelled. This includes a transcription result without a 'text' key. Any exception there ends the job with status `error` in the same way.
- `secure_filename` is a parameter (`sanitize`), so its rules are not modelled.
- `uuid.uuid4()` is replaced by a task id passed in. Ids are not proved unique.
- A collaborator that never returns would leave the job `processing` forever, since the source has no timeout. The model's collaborators are total functions, so a hang is not expressible.
- The worker thread is run to completion inside `Submit`. Nothing is modelled about polls that interleave with a running worker, or about concurrent workers sharing the map.
- Two uploads whose sanitized names coincide overwrite each other's upload and result files. File contents are not modelled.
- `file.save` and its failures are not modelled.
- The file name is always a string in the model, so a `None` name is not modelled. Such a part is falsy, and the route answers "File type not allowed" without calling `allowed_file`.
- The `file and` test of `if file and allowed_file(...)` is not modelled separately. A part whose name is a non-empty string is always truthy, so that test always passes there.
- The GET form, the processing page, template rendering, `url_for`, the `download` route (`send_file`), `load_dotenv`, model loading and folder creation are Flask or I/O plumbing. They are not part of this model.
- Strings.LowerChar: only ASCII letters are lower-cased. Python's `lower` also maps non-ASCII letters, but only two of them land in ASCII: the Kelvin sign becomes 'k', and 'İ' becomes 'i' plus a combining dot. No allowed extension contains 'k' or a combining dot, so `allowed_file`'s verdict is the same.
- Strings.StripLeft: only ASCII whitespace is treated as whitespace. Python's `strip` also removes Unicode spaces.
- Strings.StripRight: only ASCII whitespace is treated as whitespace, as for `StripLeft`.
- Upload.PathJoin: a folder ending in '/' gets no extra separator, and nothing more is stated about it. Only the fixed folders "uploads" and "results" are used.
- Three points where the model follows the code as written:
  - There is no `Queued` status. The first write is `processing` at 10, made by the worker.
  - The 60 and 90 updates change the progress of the stored record in place; they are not whole-record replacements.
  - A language constraint is passed only when the language is non-empty as well as not "auto".
