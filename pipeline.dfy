/** `run_pipeline` of app/services/pipeline.py as a state machine over the job
    record.  Each stage (download, audio extraction, highlight detection,
    clip cutting, upload) is an external call whose outcome is given in
    `Stages`: `Ok` with its value, or `Err` with the message of the exception
    it raised.  The two file deletions are given as succeeding or failing.
    A run is the list of events it causes, job-record writes and calls
    alike, in order, and the exception it re-raises, if any. */
module Pipeline {
  import opened Common
  import opened Jobs
  import opened Highlights

  datatype Stages = Stages(
    download: Result<string>,        // download_video(...)["video"]
    extract: Result<string>,         // extract_audio(...): the wav path
    detect: Result<seq<Window>>,     // detect_highlights(...)
    removeAudio: bool,               // whether os.remove(audio) succeeds
    cut: Result<seq<string>>,        // cut_clips(...): the clip URLs
    upload: Result<string>,          // upload_file(...): the video URL
    removeVideo: bool)               // whether os.remove(video) succeeds

  datatype Event =
    | Wrote(record: JobRecord)
    | Download(url: string, jobId: string)
    | ExtractAudio(video: string, jobId: string)
    | Detect(audio: string, clipDuration: int, clipCount: int)
    | RemoveAudio(path: string, ok: bool)
    | CutClips(video: string, highlights: seq<Window>, jobId: string)
    | Upload(local: string, key: string)
    | RemoveVideo(path: string, ok: bool)

  datatype Run = Run(events: seq<Event>, raised: Option<string>)

  /** The S3 key of the source video. */
  function VideoKey(jobId: string): string
  {
    "videos/" + jobId + ".mp4"
  }

  /** The stage records written on the way to completion, in order. */
  const PROGRESS: seq<JobRecord> := [
    Stage("downloading", 10),
    Stage("extracting_audio", 25),
    Stage("detecting_highlights", 40),
    Stage("cutting_clips", 65),
    Stage("cutting_clips", 60),
    Stage("uploading", 80)]

  /** The record an event writes, if it is a write. */
  function WriteOf(e: Event): seq<JobRecord>
  {
    if e.Wrote? then [e.record] else []
  }

  /** The job records a run writes, in order. */
  function Writes(events: seq<Event>): (ws: seq<JobRecord>)
    ensures |ws| <= |events|
  {
    if events == [] then [] else WriteOf(events[0]) + Writes(events[1..])
  }

  lemma {:induction false} WritesAppend(a: seq<Event>, b: seq<Event>)
    ensures Writes(a + b) == Writes(a) + Writes(b)
  {
    if a == [] {
      assert a + b == b;
    } else {
      assert (a + b)[1..] == a[1..] + b;
      WritesAppend(a[1..], b);
    }
  }

  lemma Writes1(a: Event)
    ensures Writes([a]) == WriteOf(a)
  {
    assert [a][1..] == [];
  }

  lemma Writes2(a: Event, b: Event)
    ensures Writes([a, b]) == WriteOf(a) + WriteOf(b)
  {
    assert [a, b] == [a] + [b];
    WritesAppend([a], [b]);
    Writes1(a);
    Writes1(b);
  }

  lemma Writes4(a: Event, b: Event, c: Event, d: Event)
    ensures Writes([a, b, c, d]) == WriteOf(a) + WriteOf(b) + WriteOf(c) + WriteOf(d)
  {
    assert [a, b, c, d] == [a, b] + [c, d];
    WritesAppend([a, b], [c, d]);
    Writes2(a, b);
    Writes2(c, d);
  }

  /** The log entries of a run that goes on with `tail` are those of the
      run so far followed by those of `tail`. */
  lemma LogExtends(id: string, events: seq<Event>, tail: seq<Event>)
    ensures Tagged(id, Writes(events + tail)) == Tagged(id, Writes(events)) + Tagged(id, Writes(tail))
  {
    WritesAppend(events, tail);
    TaggedAppend(id, Writes(events), Writes(tail));
  }

  /** A store whose log holds the writes of `events` after `before`, once
      the writes `rs` of `tail` are appended, holds those of `events + tail`. */
  lemma LogStep(id: string, before: seq<(string, JobRecord)>, events: seq<Event>, tail: seq<Event>, rs: seq<JobRecord>)
    requires Writes(tail) == rs
    ensures before + Tagged(id, Writes(events)) + Tagged(id, rs) == before + Tagged(id, Writes(events + tail))
  {
    LogExtends(id, events, tail);
    var sofar, added := Tagged(id, Writes(events)), Tagged(id, rs);
    assert before + sofar + added == before + (sofar + added);
  }

  /** The log after one more `Put` of the single record `tail` writes. */
  lemma LogOne(id: string, before: seq<(string, JobRecord)>, events: seq<Event>, tail: seq<Event>, r: JobRecord)
    requires Writes(tail) == [r]
    ensures before + Tagged(id, Writes(events)) + [(id, r)] == before + Tagged(id, Writes(events + tail))
  {
    Tagged1(id, r);
    LogStep(id, before, events, tail, [r]);
  }

  /** The log after two more `Put`s of the two records `tail` writes. */
  lemma LogTwo(id: string, before: seq<(string, JobRecord)>, events: seq<Event>, tail: seq<Event>, r: JobRecord, q: JobRecord)
    requires Writes(tail) == [r, q]
    ensures before + Tagged(id, Writes(events)) + [(id, r)] + [(id, q)] == before + Tagged(id, Writes(events + tail))
  {
    Tagged2(id, r, q);
    LogStep(id, before, events, tail, [r, q]);
    var sofar := before + Tagged(id, Writes(events));
    assert sofar + [(id, r)] + [(id, q)] == sofar + [(id, r), (id, q)];
  }

  /** One write, as log entries. */
  lemma Tagged1(id: string, r: JobRecord)
    ensures Tagged(id, [r]) == [(id, r)]
  {
    assert [r][1..] == [];
  }

  /** Two writes, as log entries. */
  lemma Tagged2(id: string, r: JobRecord, q: JobRecord)
    ensures Tagged(id, [r, q]) == [(id, r), (id, q)]
  {
    TaggedAppend(id, [r], [q]);
    Tagged1(id, r);
    Tagged1(id, q);
    assert [r, q] == [r] + [q];
  }

  predicate AllOk(st: Stages)
  {
    st.download.Ok? && st.extract.Ok? && st.detect.Ok? && st.cut.Ok? && st.upload.Ok?
  }

  /** Every stage before stage `k` (1 download, 2 extraction, 3 detection,
      4 cutting, 5 upload) succeeded. */
  predicate Passed(st: Stages, k: nat)
  {
    && (k >= 2 ==> st.download.Ok?)
    && (k >= 3 ==> st.extract.Ok?)
    && (k >= 4 ==> st.detect.Ok?)
    && (k >= 5 ==> st.cut.Ok?)
    && (k >= 6 ==> st.upload.Ok?)
  }

  /** The events of stage `k`, once the earlier stages have succeeded: its
      status writes, then its call (for cutting, the audio file's deletion
      comes first). */
  function Block(videoUrl: string, clipDuration: int, clipCount: int, jobId: string, st: Stages, k: nat): seq<Event>
    requires 1 <= k <= 5 && Passed(st, k)
  {
    match k
    case 1 => [Wrote(PROGRESS[0]), Download(videoUrl, jobId)]
    case 2 => [Wrote(PROGRESS[1]), ExtractAudio(st.download.value, jobId)]
    case 3 => [Wrote(PROGRESS[2]), Detect(st.extract.value, clipDuration, clipCount)]
    case 4 => [RemoveAudio(st.extract.value, st.removeAudio), Wrote(PROGRESS[3]), Wrote(PROGRESS[4]),
               CutClips(st.download.value, st.detect.value, jobId)]
    case 5 => [Wrote(PROGRESS[5]), Upload(st.download.value, VideoKey(jobId))]
  }

  /** The events of stages 1 to `k`. */
  function Reached(videoUrl: string, clipDuration: int, clipCount: int, jobId: string, st: Stages, k: nat): seq<Event>
    requires 1 <= k <= 5 && Passed(st, k)
  {
    if k == 1 then Block(videoUrl, clipDuration, clipCount, jobId, st, 1)
    else Reached(videoUrl, clipDuration, clipCount, jobId, st, k - 1) + Block(videoUrl, clipDuration, clipCount, jobId, st, k)
  }

  /** The stage that raised. */
  function FailingStage(st: Stages): (k: nat)
    requires !AllOk(st)
    ensures 1 <= k <= 5 && Passed(st, k) && !Passed(st, k + 1)
  {
    if st.download.Err? then 1
    else if st.extract.Err? then 2
    else if st.detect.Err? then 3
    else if st.cut.Err? then 4
    else 5
  }

  /** The message of the exception the failing stage raised. */
  function FirstError(st: Stages): string
    requires !AllOk(st)
  {
    match FailingStage(st)
    case 1 => st.download.msg
    case 2 => st.extract.msg
    case 3 => st.detect.msg
    case 4 => st.cut.msg
    case 5 => st.upload.msg
  }

  /** What `run_pipeline` does for the given stage outcomes: the events of
      every stage it reaches, then either the video's deletion and the
      completed record, or the `except` block's failed record and the
      re-raised exception. */
  function Expected(videoUrl: string, clipDuration: int, clipCount: int, jobId: string, st: Stages): Run
  {
    if AllOk(st) then
      Run(Reached(videoUrl, clipDuration, clipCount, jobId, st, 5)
            + [RemoveVideo(st.download.value, st.removeVideo), Wrote(Completed(st.upload.value, st.cut.value))],
          None)
    else
      Run(Reached(videoUrl, clipDuration, clipCount, jobId, st, FailingStage(st)) + [Wrote(Failed(FirstError(st)))],
          Some(FirstError(st)))
  }

  /** How many stage records are written by stages 1 to `k`. */
  function RecordsThrough(k: nat): nat
    requires k <= 5
  {
    [0, 1, 2, 3, 5, 6][k]
  }

  /** The status writes of stage `k` alone: its own slice of the success
      sequence. */
  lemma BlockWrites(videoUrl: string, clipDuration: int, clipCount: int, jobId: string, st: Stages, k: nat)
    requires 1 <= k <= 5 && Passed(st, k)
    ensures Writes(Block(videoUrl, clipDuration, clipCount, jobId, st, k)) == PROGRESS[RecordsThrough(k - 1)..RecordsThrough(k)]
  {
    var b := Block(videoUrl, clipDuration, clipCount, jobId, st, k);
    if k == 4 {
      Writes4(b[0], b[1], b[2], b[3]);
      assert PROGRESS[3..5] == [PROGRESS[3], PROGRESS[4]];
    } else {
      Writes2(b[0], b[1]);
    }
  }

  /** Writes of two runs in a row, when each writes a consecutive slice of
      `rs`. */
  lemma WritesSlices(p: seq<Event>, b: seq<Event>, rs: seq<JobRecord>, lo: nat, hi: nat)
    requires lo <= hi <= |rs|
    requires Writes(p) == rs[..lo] && Writes(b) == rs[lo..hi]
    ensures Writes(p + b) == rs[..hi]
  {
    WritesAppend(p, b);
    assert rs[..lo] + rs[lo..hi] == rs[..hi];
  }

  /** The status writes among the events of stages 1 to `k`: the first
      `RecordsThrough(k)` records of the success sequence. */
  lemma {:induction false} ReachedWrites(videoUrl: string, clipDuration: int, clipCount: int, jobId: string, st: Stages, k: nat)
    requires 1 <= k <= 5 && Passed(st, k)
    ensures Writes(Reached(videoUrl, clipDuration, clipCount, jobId, st, k)) == PROGRESS[..RecordsThrough(k)]
  {
    BlockWrites(videoUrl, clipDuration, clipCount, jobId, st, k);
    if k > 1 {
      ReachedWrites(videoUrl, clipDuration, clipCount, jobId, st, k - 1);
      WritesSlices(Reached(videoUrl, clipDuration, clipCount, jobId, st, k - 1),
                   Block(videoUrl, clipDuration, clipCount, jobId, st, k),
                   PROGRESS, RecordsThrough(k - 1), RecordsThrough(k));
    }
  }

  /** On success the record goes downloading/10, extracting_audio/25,
      detecting_highlights/40, cutting_clips/65, cutting_clips/60,
      uploading/80 and finally completed/100 with the uploaded video URL and
      the clip URLs, and nothing is raised. */
  lemma SuccessWrites(videoUrl: string, clipDuration: int, clipCount: int, jobId: string, st: Stages)
    requires AllOk(st)
    ensures var r := Expected(videoUrl, clipDuration, clipCount, jobId, st);
      && r.raised == None
      && Writes(r.events) == PROGRESS + [Completed(st.upload.value, st.cut.value)]
  {
    var e := Reached(videoUrl, clipDuration, clipCount, jobId, st, 5);
    var t := [RemoveVideo(st.download.value, st.removeVideo), Wrote(Completed(st.upload.value, st.cut.value))];
    ReachedWrites(videoUrl, clipDuration, clipCount, jobId, st, 5);
    Writes2(t[0], t[1]);
    WritesAppend(e, t);
  }

  /** When a stage raises, the stage records written so far are a prefix of
      the success sequence, the last write is exactly
      {status: "failed", error: message} (no progress, video or clips), and
      that message is re-raised. */
  lemma FailureWrites(videoUrl: string, clipDuration: int, clipCount: int, jobId: string, st: Stages)
    requires !AllOk(st)
    ensures var r := Expected(videoUrl, clipDuration, clipCount, jobId, st);
      && r.raised == Some(FirstError(st))
      && Writes(r.events) == PROGRESS[..RecordsThrough(FailingStage(st))] + [Failed(FirstError(st))]
      && r.events[|r.events| - 1] == Wrote(Failed(FirstError(st)))
  {
    var k := FailingStage(st);
    var e := Reached(videoUrl, clipDuration, clipCount, jobId, st, k);
    var f := [Wrote(Failed(FirstError(st)))];
    ReachedWrites(videoUrl, clipDuration, clipCount, jobId, st, k);
    Writes1(f[0]);
    WritesAppend(e, f);
  }

  /** Whether a file deletion succeeds changes neither the records written
      nor the outcome: its failure is only logged. */
  lemma {:induction false} RemovalFailureSwallowed(videoUrl: string, clipDuration: int, clipCount: int, jobId: string, st: Stages, audioOk: bool, videoOk: bool)
    ensures var r1 := Expected(videoUrl, clipDuration, clipCount, jobId, st);
      var r2 := Expected(videoUrl, clipDuration, clipCount, jobId, st.(removeAudio := audioOk, removeVideo := videoOk));
      r1.raised == r2.raised && Writes(r1.events) == Writes(r2.events)
  {
    var st2 := st.(removeAudio := audioOk, removeVideo := videoOk);
    if AllOk(st) {
      SuccessWrites(videoUrl, clipDuration, clipCount, jobId, st);
      SuccessWrites(videoUrl, clipDuration, clipCount, jobId, st2);
    } else {
      FailureWrites(videoUrl, clipDuration, clipCount, jobId, st);
      FailureWrites(videoUrl, clipDuration, clipCount, jobId, st2);
    }
  }

  /** The positions of the events of stages 1 to `k`. */
  lemma {:induction false} ReachedLayout(videoUrl: string, clipDuration: int, clipCount: int, jobId: string, st: Stages, k: nat)
    requires 1 <= k <= 5 && Passed(st, k)
    ensures var e := Reached(videoUrl, clipDuration, clipCount, jobId, st, k);
      && |e| == [2, 4, 6, 10, 12][k - 1]
      && (k >= 3 ==> e[5].Detect?)
      && (k >= 4 ==> e[6] == RemoveAudio(st.extract.value, st.removeAudio) && e[9].CutClips?)
      && (k >= 5 ==> e[11].Upload?)
      && (forall i | 0 <= i < |e| && i != 5 :: !e[i].Detect?)
      && (forall i | 0 <= i < |e| && i != 6 :: !e[i].RemoveAudio?)
      && (forall i | 0 <= i < |e| && i != 9 :: !e[i].CutClips?)
      && (forall i | 0 <= i < |e| :: !e[i].RemoveVideo?)
  {
    if k > 1 {
      ReachedLayout(videoUrl, clipDuration, clipCount, jobId, st, k - 1);
    }
  }

  /** The audio file is deleted after detection returned and before cutting
      starts; the source video is deleted only after its upload succeeded. */
  lemma CleanupOrder(videoUrl: string, clipDuration: int, clipCount: int, jobId: string, st: Stages)
    ensures var ev := Expected(videoUrl, clipDuration, clipCount, jobId, st).events;
      forall i | 0 <= i < |ev| && ev[i].RemoveAudio? ::
        st.detect.Ok? && (exists j | 0 <= j < i :: ev[j].Detect?) && (forall j | i < j < |ev| :: !ev[j].Detect?)
        && (forall j | 0 <= j < i :: !ev[j].CutClips?)
    ensures var ev := Expected(videoUrl, clipDuration, clipCount, jobId, st).events;
      forall i | 0 <= i < |ev| && ev[i].RemoveVideo? ::
        st.upload.Ok? && (exists j | 0 <= j < i :: ev[j].Upload?)
  {
    var k := if AllOk(st) then 5 else FailingStage(st);
    ReachedLayout(videoUrl, clipDuration, clipCount, jobId, st, k);
    var ev := Expected(videoUrl, clipDuration, clipCount, jobId, st).events;
    var e := Reached(videoUrl, clipDuration, clipCount, jobId, st, k);
    assert ev[..|e|] == e;
    forall i | 0 <= i < |ev| && ev[i].RemoveAudio?
      ensures st.detect.Ok? && (exists j | 0 <= j < i :: ev[j].Detect?) && (forall j | i < j < |ev| :: !ev[j].Detect?)
        && (forall j | 0 <= j < i :: !ev[j].CutClips?)
    {
      assert i == 6 && ev[5] == e[5];
    }
    forall i | 0 <= i < |ev| && ev[i].RemoveVideo?
      ensures st.upload.Ok? && (exists j | 0 <= j < i :: ev[j].Upload?)
    {
      assert AllOk(st) && i == 12 && ev[11] == e[11];
    }
  }

  /** A run that stops at stage `k` with that stage's exception. */
  lemma FailedAt(videoUrl: string, clipDuration: int, clipCount: int, jobId: string, st: Stages, k: nat, msg: string)
    requires 1 <= k <= 5 && Passed(st, k) && !Passed(st, k + 1)
    requires msg == FirstError(st)
    ensures Expected(videoUrl, clipDuration, clipCount, jobId, st)
      == Run(Reached(videoUrl, clipDuration, clipCount, jobId, st, k) + [Wrote(Failed(msg))], Some(msg))
  {
  }

  /** A later write to the same entry hides an earlier one. */
  lemma Overwrite(jobs: map<string, JobRecord>, id: string, earlier: JobRecord, later: JobRecord)
    ensures jobs[id := earlier][id := later] == jobs[id := later]
  {
  }

  /** A stage's opening: `jobs[job_id] = record`, then the stage's call.
      The entry becomes `record`, the run's events grow by both, and the
      store's log by the record. */
  method Advance(store: JobStore, jobId: string, record: JobRecord, call: Event, events: seq<Event>,
                 ghost before: seq<(string, JobRecord)>) returns (next: seq<Event>)
    requires !call.Wrote?
    requires store.log == before + Tagged(jobId, Writes(events))
    modifies store
    ensures next == events + [Wrote(record), call]
    ensures store.jobs == old(store.jobs)[jobId := record]
    ensures store.log == before + Tagged(jobId, Writes(next))
  {
    store.Put(jobId, record);
    Writes2(Wrote(record), call);
    LogOne(jobId, before, events, [Wrote(record), call], record);
    next := events + [Wrote(record), call];
  }

  /** The `except` block: the failed record replaces the job's, then the
      exception goes on up. */
  method Raise(store: JobStore, jobId: string, events: seq<Event>, msg: string, ghost before: seq<(string, JobRecord)>)
    returns (run: Run)
    requires store.log == before + Tagged(jobId, Writes(events))
    modifies store
    ensures store.jobs == old(store.jobs)[jobId := Failed(msg)]
    ensures store.log == before + Tagged(jobId, Writes(run.events))
    ensures run == Run(events + [Wrote(Failed(msg))], Some(msg))
    ensures |run.events| >= 1 && run.events[|run.events| - 1] == Wrote(Failed(msg))
  {
    store.Put(jobId, Failed(msg));
    Writes1(Wrote(Failed(msg)));
    LogOne(jobId, before, events, [Wrote(Failed(msg))], Failed(msg));
    run := Run(events + [Wrote(Failed(msg))], Some(msg));
  }

  /** `run_pipeline`: writes the records and makes the calls `Expected`
      lists; the job's entry ends as the record of the last event, which is
      always a write, no other entry changes, and the store's log grows by
      exactly the run's writes, in order.  Stage 1 is here; the later stages
      are the methods below, each taking over the events so far. */
  method RunPipeline(store: JobStore, videoUrl: string, clipDuration: int, clipCount: int, jobId: string, st: Stages)
    returns (run: Run)
    modifies store
    ensures run == Expected(videoUrl, clipDuration, clipCount, jobId, st)
    ensures |run.events| >= 1 && run.events[|run.events| - 1].Wrote?
    ensures store.jobs == old(store.jobs)[jobId := run.events[|run.events| - 1].record]
    ensures store.log == old(store.log) + Tagged(jobId, Writes(run.events))
  {
    ghost var before := store.log;
    store.Put(jobId, Stage("downloading", 10));
    assert store.jobs == old(store.jobs)[jobId := Stage("downloading", 10)];
    var events := [Wrote(Stage("downloading", 10)), Download(videoUrl, jobId)];
    Writes2(Wrote(Stage("downloading", 10)), Download(videoUrl, jobId));
    Tagged1(jobId, Stage("downloading", 10));
    assert store.log == before + Tagged(jobId, Writes(events));
    assert events == Reached(videoUrl, clipDuration, clipCount, jobId, st, 1);
    if st.download.Err? {
      run := Raise(store, jobId, events, st.download.msg, before);
      Overwrite(old(store.jobs), jobId, Stage("downloading", 10), Failed(st.download.msg));
      FailedAt(videoUrl, clipDuration, clipCount, jobId, st, 1, st.download.msg);
      return;
    }
    run := ExtractStage(store, videoUrl, clipDuration, clipCount, jobId, st, events, before);
    Overwrite(old(store.jobs), jobId, Stage("downloading", 10), run.events[|run.events| - 1].record);
  }

  /** Stage 2 of `run_pipeline` and what follows it: audio extraction. */
  method ExtractStage(store: JobStore, videoUrl: string, clipDuration: int, clipCount: int, jobId: string, st: Stages,
      events: seq<Event>, ghost before: seq<(string, JobRecord)>) returns (run: Run)
    requires Passed(st, 2)
    requires events == Reached(videoUrl, clipDuration, clipCount, jobId, st, 1)
    requires store.log == before + Tagged(jobId, Writes(events))
    modifies store
    ensures run == Expected(videoUrl, clipDuration, clipCount, jobId, st)
    ensures |run.events| >= 1 && run.events[|run.events| - 1].Wrote?
    ensures store.jobs == old(store.jobs)[jobId := run.events[|run.events| - 1].record]
    ensures store.log == before + Tagged(jobId, Writes(run.events))
  {
    var video := st.download.value;
    var events := Advance(store, jobId, Stage("extracting_audio", 25), ExtractAudio(video, jobId), events, before);
    assert events == Reached(videoUrl, clipDuration, clipCount, jobId, st, 2);
    if st.extract.Err? {
      run := Raise(store, jobId, events, st.extract.msg, before);
      Overwrite(old(store.jobs), jobId, Stage("extracting_audio", 25), Failed(st.extract.msg));
      FailedAt(videoUrl, clipDuration, clipCount, jobId, st, 2, st.extract.msg);
      return;
    }
    run := DetectStage(store, videoUrl, clipDuration, clipCount, jobId, st, events, before);
    Overwrite(old(store.jobs), jobId, Stage("extracting_audio", 25), run.events[|run.events| - 1].record);
  }

  /** Stage 3 of `run_pipeline` and what follows it: highlight detection. */
  method DetectStage(store: JobStore, videoUrl: string, clipDuration: int, clipCount: int, jobId: string, st: Stages,
      events: seq<Event>, ghost before: seq<(string, JobRecord)>) returns (run: Run)
    requires Passed(st, 3)
    requires events == Reached(videoUrl, clipDuration, clipCount, jobId, st, 2)
    requires store.log == before + Tagged(jobId, Writes(events))
    modifies store
    ensures run == Expected(videoUrl, clipDuration, clipCount, jobId, st)
    ensures |run.events| >= 1 && run.events[|run.events| - 1].Wrote?
    ensures store.jobs == old(store.jobs)[jobId := run.events[|run.events| - 1].record]
    ensures store.log == before + Tagged(jobId, Writes(run.events))
  {
    var audio := st.extract.value;
    var events := Advance(store, jobId, Stage("detecting_highlights", 40), Detect(audio, clipDuration, clipCount), events, before);
    assert events == Reached(videoUrl, clipDuration, clipCount, jobId, st, 3);
    if st.detect.Err? {
      run := Raise(store, jobId, events, st.detect.msg, before);
      Overwrite(old(store.jobs), jobId, Stage("detecting_highlights", 40), Failed(st.detect.msg));
      FailedAt(videoUrl, clipDuration, clipCount, jobId, st, 3, st.detect.msg);
      return;
    }
    run := CutStage(store, videoUrl, clipDuration, clipCount, jobId, st, events, before);
    Overwrite(old(store.jobs), jobId, Stage("detecting_highlights", 40), run.events[|run.events| - 1].record);
  }

  /** Stage 4 of `run_pipeline` and what follows it: the audio's deletion
      and clip cutting. */
  method CutStage(store: JobStore, videoUrl: string, clipDuration: int, clipCount: int, jobId: string, st: Stages,
      events: seq<Event>, ghost before: seq<(string, JobRecord)>) returns (run: Run)
    requires Passed(st, 4)
    requires events == Reached(videoUrl, clipDuration, clipCount, jobId, st, 3)
    requires store.log == before + Tagged(jobId, Writes(events))
    modifies store
    ensures run == Expected(videoUrl, clipDuration, clipCount, jobId, st)
    ensures |run.events| >= 1 && run.events[|run.events| - 1].Wrote?
    ensures store.jobs == old(store.jobs)[jobId := run.events[|run.events| - 1].record]
    ensures store.log == before + Tagged(jobId, Writes(run.events))
  {
    var video, audio, highlights := st.download.value, st.extract.value, st.detect.value;

    // a failed deletion is only logged
    store.Put(jobId, Stage("cutting_clips", 65));
    store.Put(jobId, Stage("cutting_clips", 60));
    Overwrite(old(store.jobs), jobId, Stage("cutting_clips", 65), Stage("cutting_clips", 60));
    Writes4(RemoveAudio(audio, st.removeAudio), Wrote(Stage("cutting_clips", 65)),
            Wrote(Stage("cutting_clips", 60)), CutClips(video, highlights, jobId));
    LogTwo(jobId, before, events, [RemoveAudio(audio, st.removeAudio), Wrote(Stage("cutting_clips", 65)),
                                   Wrote(Stage("cutting_clips", 60)), CutClips(video, highlights, jobId)],
           Stage("cutting_clips", 65), Stage("cutting_clips", 60));
    var events := events + [RemoveAudio(audio, st.removeAudio), Wrote(Stage("cutting_clips", 65)),
                            Wrote(Stage("cutting_clips", 60)), CutClips(video, highlights, jobId)];
    assert events == Reached(videoUrl, clipDuration, clipCount, jobId, st, 4);
    if st.cut.Err? {
      run := Raise(store, jobId, events, st.cut.msg, before);
      Overwrite(old(store.jobs), jobId, Stage("cutting_clips", 60), Failed(st.cut.msg));
      FailedAt(videoUrl, clipDuration, clipCount, jobId, st, 4, st.cut.msg);
      return;
    }
    run := UploadStage(store, videoUrl, clipDuration, clipCount, jobId, st, events, before);
    Overwrite(old(store.jobs), jobId, Stage("cutting_clips", 60), run.events[|run.events| - 1].record);
  }

  /** Stage 5 of `run_pipeline` and completion: the video's upload, its
      deletion and the completed record. */
  method UploadStage(store: JobStore, videoUrl: string, clipDuration: int, clipCount: int, jobId: string, st: Stages,
      events: seq<Event>, ghost before: seq<(string, JobRecord)>) returns (run: Run)
    requires Passed(st, 5)
    requires events == Reached(videoUrl, clipDuration, clipCount, jobId, st, 4)
    requires store.log == before + Tagged(jobId, Writes(events))
    modifies store
    ensures run == Expected(videoUrl, clipDuration, clipCount, jobId, st)
    ensures |run.events| >= 1 && run.events[|run.events| - 1].Wrote?
    ensures store.jobs == old(store.jobs)[jobId := run.events[|run.events| - 1].record]
    ensures store.log == before + Tagged(jobId, Writes(run.events))
  {
    var video, clipUrls := st.download.value, st.cut.value;
    var events := Advance(store, jobId, Stage("uploading", 80), Upload(video, VideoKey(jobId)), events, before);
    assert events == Reached(videoUrl, clipDuration, clipCount, jobId, st, 5);
    if st.upload.Err? {
      run := Raise(store, jobId, events, st.upload.msg, before);
      Overwrite(old(store.jobs), jobId, Stage("uploading", 80), Failed(st.upload.msg));
      FailedAt(videoUrl, clipDuration, clipCount, jobId, st, 5, st.upload.msg);
      return;
    }

    // a failed deletion is only logged
    store.Put(jobId, Completed(st.upload.value, clipUrls));
    Overwrite(old(store.jobs), jobId, Stage("uploading", 80), Completed(st.upload.value, clipUrls));
    Writes2(RemoveVideo(video, st.removeVideo), Wrote(Completed(st.upload.value, clipUrls)));
    LogOne(jobId, before, events, [RemoveVideo(video, st.removeVideo), Wrote(Completed(st.upload.value, clipUrls))],
           Completed(st.upload.value, clipUrls));
    events := events + [RemoveVideo(video, st.removeVideo), Wrote(Completed(st.upload.value, clipUrls))];
    run := Run(events, None);
  }
}
