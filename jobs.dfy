/**
 * The in-memory job-status map, the background worker that drives one entry
 * of it from processing to done or error, the two read-only queries over it,
 * and the upload route that starts the worker.
 */
module Jobs {
  import opened Wrappers
  import opened Strings
  import opened Upload
  import opened Transcript

  /** A value of the status map. The constructor is its 'status' key; every
      record has a 'progress' key, and the other keys belong to one status. */
  datatype Record =
    | Processing(progress: int)
    | Done(progress: int, resultFilename: string, text: string)
    | Failed(progress: int, error: string)
    | NotFound(progress: int)
  {
    /** The 'status' string the progress route reports. */
    function Status(): string {
      match this
      case Processing(_) => "processing"
      case Done(_, _, _) => "done"
      case Failed(_, _) => "error"
      case NotFound(_) => "not_found"
    }

    predicate Terminal() {
      Done? || Failed?
    }
  }

  /** The shape of every record the worker puts in the map. */
  predicate Stored(r: Record) {
    !r.NotFound? && 0 <= r.progress <= 100 && (r.Terminal() ==> r.progress == 100)
  }

  /** What the external collaborators do, given as values: the speech model
      returns the transcript or raises; the diarization pipeline is absent, or
      returns the speaker label of each turn in order, or raises; writing the
      result file succeeds (None) or raises. A raise is the exception text. */
  datatype Collaborators = Collaborators(
    transcribe: (string, Option<string>) -> Result<string, string>,
    diarize: Option<string -> Result<seq<string>, string>>,
    writeFile: (string, string) -> Option<string>)

  /** The language constraint handed to the speech model, if any. */
  function TranscribeLanguage(language: string): (r: Option<string>)
    ensures r.Some? <==> language != "" && language != "auto"
    ensures r.Some? ==> r.value == language
  {
    if language != "" && language != "auto" then Some(language) else None
  }

  /** The diarization step: run the pipeline when there is one, then
      assemble the diarized text. */
  function Diarize(env: Collaborators, filepath: string, text: string): (r: Result<string, string>)
    ensures env.diarize.None? ==> r == Success(text)
    ensures env.diarize.Some? && env.diarize.value(filepath).Failure?
            ==> r == Failure(env.diarize.value(filepath).error)
  {
    match env.diarize
    case None => Success(DiarizedText(None, text))
    case Some(pipeline) =>
      match pipeline(filepath)
      case Failure(e) => Failure(e)
      case Success(speakers) => Success(DiarizedText(Some(speakers), text))
  }

  /** With a pipeline that finds turns, the step yields one line per turn,
      joined with line breaks. */
  lemma DiarizeWithPipeline(env: Collaborators, filepath: string, text: string)
    requires env.diarize.Some? && env.diarize.value(filepath).Success?
    ensures Diarize(env, filepath, text)
              == Success(Join(SpeakerLines(env.diarize.value(filepath).value, text), "\n"))
  {
  }

  /** The diarization part of the worker: the pipeline call and the loop
      over its turns, or the transcript itself when there is no pipeline. */
  method RunDiarization(env: Collaborators, filepath: string, text: string)
    returns (r: Result<string, string>)
    ensures r == Diarize(env, filepath, text)
  {
    if env.diarize.Some? {
      var turns := env.diarize.value(filepath);
      if turns.Failure? {
        return Failure(turns.error);
      }
      var segments := CollectSegments(turns.value, text);
      r := Success(Join(segments, "\n"));
      DiarizeWithPipeline(env, filepath, text);
    } else {
      r := Success(text);
    }
  }

  /** Where the result file goes. */
  function ResultPath(job: Job): string {
    PathJoin(ResultFolder, job.resultFilename)
  }

  /** Every record the worker writes for its task, in the order written. */
  function WorkerWrites(job: Job, env: Collaborators): seq<Record> {
    [Processing(10)] + TranscriptionStage(job, env)
  }

  /** The writes that follow the first one, by what the speech model does. */
  function TranscriptionStage(job: Job, env: Collaborators): seq<Record> {
    match env.transcribe(job.filepath, TranscribeLanguage(job.language))
    case Failure(e) => [Failed(100, e)]
    case Success(text) => [Processing(60)] + DiarizationStage(job, env, text)
  }

  /** The writes that follow the transcript, by what the diarization step does. */
  function DiarizationStage(job: Job, env: Collaborators, text: string): seq<Record> {
    match Diarize(env, job.filepath, text)
    case Failure(e) => [Failed(100, e)]
    case Success(diarized) => [Processing(90), WriteStage(job, env, diarized)]
  }

  /** The last write, by whether the result file could be written. */
  function WriteStage(job: Job, env: Collaborators, diarized: string): Record {
    match env.writeFile(ResultPath(job), diarized)
    case Some(e) => Failed(100, e)
    case None => Done(100, job.resultFilename, diarized)
  }

  function Last<T>(s: seq<T>): T
    requires s != []
  {
    s[|s| - 1]
  }

  /** The worker writes 10, then 60 and 90 as far as it gets, then a terminal
      record at 100, which is its last write: progress strictly increases,
      nothing before the last write is terminal, and every write has the
      shape the map keeps. */
  lemma WorkerProgressOrder(job: Job, env: Collaborators)
    ensures var ws := WorkerWrites(job, env);
            && 2 <= |ws| <= 4
            && ws[0] == Processing(10)
            && (forall i :: 0 <= i < |ws| - 1 ==> ws[i] == Processing([10, 60, 90][i]))
            && Last(ws).Terminal() && Last(ws).progress == 100
            && (forall i, j :: 0 <= i < j < |ws| ==> ws[i].progress < ws[j].progress)
            && (forall i :: 0 <= i < |ws| ==> Stored(ws[i]))
  {
  }

  /** The last record is `done` exactly when the speech model, the pipeline
      (if any) and the result write all succeed; it then holds the result file
      name and the diarized text and nothing else, and otherwise it is `error`
      with the text of the first failure. */
  lemma WorkerOutcome(job: Job, env: Collaborators)
    ensures var ws := WorkerWrites(job, env);
            var transcribed := env.transcribe(job.filepath, TranscribeLanguage(job.language));
            && (Last(ws).Done? <==>
                  && transcribed.Success?
                  && Diarize(env, job.filepath, transcribed.value).Success?
                  && env.writeFile(ResultPath(job), Diarize(env, job.filepath, transcribed.value).value).None?)
            && (Last(ws).Done? ==>
                  Last(ws) == Done(100, job.resultFilename, Diarize(env, job.filepath, transcribed.value).value))
            && (transcribed.Failure? ==> Last(ws) == Failed(100, transcribed.error))
            && (transcribed.Success? && env.diarize.Some? && env.diarize.value(job.filepath).Failure? ==>
                  Last(ws) == Failed(100, env.diarize.value(job.filepath).error))
            && (transcribed.Success? && Diarize(env, job.filepath, transcribed.value).Success?
                && env.writeFile(ResultPath(job), Diarize(env, job.filepath, transcribed.value).value).Some? ==>
                  Last(ws) == Failed(100, env.writeFile(ResultPath(job), Diarize(env, job.filepath, transcribed.value).value).value))
  {
  }

  /** With no pipeline configured, a finished job carries the transcript
      exactly as the speech model returned it. */
  lemma NoPipelineResultIsTranscript(job: Job, env: Collaborators)
    requires env.diarize.None?
    requires Last(WorkerWrites(job, env)).Done?
    ensures var transcribed := env.transcribe(job.filepath, TranscribeLanguage(job.language));
            transcribed.Success? && Last(WorkerWrites(job, env)).text == transcribed.value
  {
    WorkerOutcome(job, env);
  }

  /** With no pipeline, a successful transcription whose write succeeds ends
      the job `done` with the job's result file name and the transcript. */
  lemma NoPipelineDone(job: Job, env: Collaborators)
    requires env.diarize.None?
    requires env.transcribe(job.filepath, TranscribeLanguage(job.language)).Success?
    requires env.writeFile(ResultPath(job), env.transcribe(job.filepath, TranscribeLanguage(job.language)).value).None?
    ensures Last(WorkerWrites(job, env))
              == Done(100, job.resultFilename, env.transcribe(job.filepath, TranscribeLanguage(job.language)).value)
  {
    var text := env.transcribe(job.filepath, TranscribeLanguage(job.language)).value;
    assert DiarizationStage(job, env, text) == [Processing(90), Done(100, job.resultFilename, text)];
  }

  /** Uploading `sample.wav` with language "auto" and no pipeline configured:
      the job is launched without a language constraint, and when the speech
      model and the result write succeed it ends `done` with the result file
      `sample.wav.txt` and the transcript verbatim. */
  lemma SampleWavScenario(sanitize: string -> string, env: Collaborators, transcript: string)
    requires sanitize("sample.wav") == "sample.wav"
    requires env.diarize.None?
    requires env.transcribe("uploads/sample.wav", None) == Success(transcript)
    requires env.writeFile("results/sample.wav.txt", transcript) == None
    ensures Dispatch(UploadRequest(Some("sample.wav"), Some("auto")), sanitize)
              == Launched(Job("uploads/sample.wav", "sample.wav.txt", "auto"))
    ensures Last(WorkerWrites(Job("uploads/sample.wav", "sample.wav.txt", "auto"), env))
              == Done(100, "sample.wav.txt", transcript)
  {
    SampleWavLaunched(sanitize);
    SampleResultPath();
    NoPipelineDone(Job("uploads/sample.wav", "sample.wav.txt", "auto"), env);
  }

  /** `progress_status.get(task_id, {'status': 'not_found', 'progress': 0})` */
  function Progress(store: map<string, Record>, taskId: string): (r: Record)
    ensures taskId in store ==> r == store[taskId]
    ensures taskId !in store ==> r.Status() == "not_found" && r.progress == 0
  {
    if taskId in store then store[taskId] else NotFound(0)
  }

  datatype ResultView =
    | RedirectToProcessing(taskId: string)
    | ShowResult(text: string, downloadFilename: string)

  /** The result route: the text and its download only for a `done` job,
      otherwise back to the processing page. */
  function ResultPage(store: map<string, Record>, taskId: string): (r: ResultView)
    ensures r.ShowResult? <==> taskId in store && store[taskId].Done?
    ensures r.ShowResult? ==> r.text == store[taskId].text && r.downloadFilename == store[taskId].resultFilename
    ensures r.RedirectToProcessing? ==> r.taskId == taskId
  {
    if taskId in store && store[taskId].Done? then
      ShowResult(store[taskId].text, store[taskId].resultFilename)
    else RedirectToProcessing(taskId)
  }

  /** After the worker for `taskId` has finished, polling that id reports a
      terminal record at 100 (repeatedly the same one, as nothing writes it
      again), the result page opens exactly when the job is done, and every
      other id reads as before. */
  lemma QueriesAfterWorker(store: map<string, Record>, taskId: string, job: Job, env: Collaborators, other: string)
    requires other != taskId
    ensures var after := store[taskId := Last(WorkerWrites(job, env))];
            && Progress(after, taskId).Terminal() && Progress(after, taskId).progress == 100
            && (ResultPage(after, taskId).ShowResult? <==> Last(WorkerWrites(job, env)).Done?)
            && Progress(after, other) == Progress(store, other)
            && ResultPage(after, other) == ResultPage(store, other)
  {
    WorkerProgressOrder(job, env);
  }

  /** Writing the same key twice leaves only the second value. */
  lemma UpdateTwice<K, V>(m: map<K, V>, k: K, a: V, b: V)
    ensures m[k := a][k := b] == m[k := b]
  {
  }

  /** The status map shared by the web routes and the worker threads. Beside
      it, `history` keeps every record ever written to each task, in order. */
  class JobStore {
    var entries: map<string, Record>
    ghost var history: map<string, seq<Record>>

    /** A task is in the map exactly when something was written to it, its
        record is the last one written, and it has the shape of a stored
        record. */
    ghost predicate Valid()
      reads this
    {
      && entries.Keys == history.Keys
      && forall t :: t in entries ==> history[t] != [] && entries[t] == Last(history[t]) && Stored(entries[t])
    }

    /** The writes to `taskId` so far. */
    ghost function Written(taskId: string): seq<Record>
      reads this
    {
      if taskId in history then history[taskId] else []
    }

    constructor ()
      ensures Valid() && entries == map[] && history == map[]
    {
      entries := map[];
      history := map[];
    }

    /** `progress_status[task_id] = record` */
    method Put(taskId: string, record: Record)
      requires Valid() && Stored(record)
      modifies this
      ensures Valid()
      ensures entries == old(entries)[taskId := record]
      ensures history == old(history)[taskId := old(Written(taskId)) + [record]]
    {
      history := history[taskId := Written(taskId) + [record]];
      entries := entries[taskId := record];
    }

    /** `progress_status[task_id]['progress'] = progress` on a record that is
        still processing: its status stays and only its progress changes. */
    method SetProgress(taskId: string, progress: int)
      requires Valid() && taskId in entries && entries[taskId].Processing?
      requires 0 <= progress <= 100
      modifies this
      ensures Valid()
      ensures entries == old(entries)[taskId := Processing(progress)]
      ensures history == old(history)[taskId := old(Written(taskId)) + [Processing(progress)]]
    {
      Put(taskId, Processing(progress));
    }

    /** `transcribe_async`: the worker thread's body, run to completion. Only
        the task's own entry changes, and its history grows by exactly the
        writes `WorkerWrites` lists. */
    method TranscribeAsync(taskId: string, filepath: string, resultFilename: string, language: string,
                           env: Collaborators)
      requires Valid()
      modifies this
      ensures Valid()
      ensures var ws := WorkerWrites(Job(filepath, resultFilename, language), env);
              && entries == old(entries)[taskId := Last(ws)]
              && history == old(history)[taskId := old(Written(taskId)) + ws]
    {
      ghost var job := Job(filepath, resultFilename, language);
      ghost var e0, h0, before := entries, history, Written(taskId);
      Put(taskId, Processing(10));
      var transcribed := env.transcribe(filepath, TranscribeLanguage(language));
      RecordTranscription(taskId, filepath, resultFilename, language, env, transcribed);
      ghost var rest := TranscriptionStage(job, env);
      UpdateTwice(e0, taskId, Processing(10), Last(rest));
      UpdateTwice(h0, taskId, before + [Processing(10)], before + [Processing(10)] + rest);
      assert before + [Processing(10)] + rest == before + WorkerWrites(job, env);
    }

    /** The worker once the speech model has returned or raised: record the
        error, or report 60 and go on to diarization. */
    method RecordTranscription(taskId: string, filepath: string, resultFilename: string, language: string,
                               env: Collaborators, transcribed: Result<string, string>)
      requires Valid() && taskId in entries && entries[taskId].Processing?
      requires transcribed == env.transcribe(filepath, TranscribeLanguage(language))
      modifies this
      ensures Valid()
      ensures var ws := TranscriptionStage(Job(filepath, resultFilename, language), env);
              && entries == old(entries)[taskId := Last(ws)]
              && history == old(history)[taskId := old(Written(taskId)) + ws]
    {
      ghost var job := Job(filepath, resultFilename, language);
      ghost var e0, h0, before := entries, history, Written(taskId);
      if transcribed.Failure? {
        Put(taskId, Failed(100, transcribed.error));
        return;
      }
      SetProgress(taskId, 60);
      var text := transcribed.value;
      FinishTranscription(taskId, filepath, resultFilename, language, env, text);
      ghost var rest := DiarizationStage(job, env, text);
      UpdateTwice(e0, taskId, Processing(60), Last(rest));
      UpdateTwice(h0, taskId, before + [Processing(60)], before + [Processing(60)] + rest);
      assert before + [Processing(60)] + rest == before + ([Processing(60)] + rest);
    }

    /** The worker once the transcript is in (from app.py:43 on): diarize,
        report 90, write the result file, and record the outcome. */
    method FinishTranscription(taskId: string, filepath: string, resultFilename: string, language: string,
                               env: Collaborators, text: string)
      requires Valid() && taskId in entries && entries[taskId].Processing?
      modifies this
      ensures Valid()
      ensures var ws := DiarizationStage(Job(filepath, resultFilename, language), env, text);
              && entries == old(entries)[taskId := Last(ws)]
              && history == old(history)[taskId := old(Written(taskId)) + ws]
    {
      var job := Job(filepath, resultFilename, language);
      ghost var e0, h0, before := entries, history, Written(taskId);
      var diarization := RunDiarization(env, filepath, text);
      if diarization.Failure? {
        Put(taskId, Failed(100, diarization.error));
        return;
      }
      var diarized := diarization.value;
      SetProgress(taskId, 90);
      var failure := env.writeFile(ResultPath(job), diarized);
      var final := if failure.Some? then Failed(100, failure.value) else Done(100, resultFilename, diarized);
      assert final == WriteStage(job, env, diarized);
      Put(taskId, final);
      UpdateTwice(e0, taskId, Processing(90), final);
      UpdateTwice(h0, taskId, before + [Processing(90)], before + [Processing(90)] + [final]);
      assert before + [Processing(90)] + [final] == before + [Processing(90), final];
    }

    /** A POST to '/': a rejected upload leaves the map alone; an accepted one
        runs the worker for the new task id to completion. */
    method Submit(req: UploadRequest, sanitize: string -> string, taskId: string, env: Collaborators)
      returns (r: Response)
      requires Valid()
      modifies this
      ensures Valid()
      ensures r == Dispatch(req, sanitize)
      ensures r.Rejected? ==> entries == old(entries) && history == old(history)
      ensures r.Launched? ==>
                var ws := WorkerWrites(r.job, env);
                && entries == old(entries)[taskId := Last(ws)]
                && history == old(history)[taskId := old(Written(taskId)) + ws]
    {
      r := Dispatch(req, sanitize);
      if r.Launched? {
        TranscribeAsync(taskId, r.job.filepath, r.job.resultFilename, r.job.language, env);
      }
    }
  }
}
