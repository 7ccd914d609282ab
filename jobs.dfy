/** The shared job table `jobs` that the submit route and the pipeline write
    and `GET /jobs/{id}` reads.  A record is a small JSON object; each of its
    optional keys is an `Option` field, present exactly when it is `Some`.
    Every write replaces a job's whole record. */
module Jobs {
  import opened Common

  datatype JobRecord = JobRecord(
    status: string,
    progress: Option<int>,
    video: Option<string>,
    clips: Option<seq<string>>,
    error: Option<string>)

  /** `{"status": "processing", "clips": []}`, written on submission. */
  function Submitted(): (r: JobRecord)
    ensures r.status == "processing" && r.clips == Some([])
    ensures r.progress.None? && r.video.None? && r.error.None?
  {
    JobRecord("processing", None, None, Some([]), None)
  }

  /** `{"status": status, "progress": progress}`, the pipeline's stage records. */
  function Stage(status: string, progress: int): (r: JobRecord)
    ensures r.status == status && r.progress == Some(progress)
    ensures r.video.None? && r.clips.None? && r.error.None?
  {
    JobRecord(status, Some(progress), None, None, None)
  }

  /** The record of a finished job: progress 100, the uploaded video and the clips. */
  function Completed(video: string, clips: seq<string>): (r: JobRecord)
    ensures r.status == "completed" && r.progress == Some(100)
    ensures r.video == Some(video) && r.clips == Some(clips) && r.error.None?
  {
    JobRecord("completed", Some(100), Some(video), Some(clips), None)
  }

  /** `{"status": "failed", "error": str(e)}`: nothing else survives. */
  function Failed(msg: string): (r: JobRecord)
    ensures r.status == "failed" && r.error == Some(msg)
    ensures r.progress.None? && r.video.None? && r.clips.None?
  {
    JobRecord("failed", None, None, None, Some(msg))
  }

  /** The records `rs`, all written to entry `id`, as entries of a store's
      write log. */
  function Tagged(id: string, rs: seq<JobRecord>): (t: seq<(string, JobRecord)>)
    ensures |t| == |rs|
  {
    if rs == [] then [] else [(id, rs[0])] + Tagged(id, rs[1..])
  }

  /** Tagging the writes of two runs one after the other is tagging each. */
  lemma {:induction false} TaggedAppend(id: string, a: seq<JobRecord>, b: seq<JobRecord>)
    ensures Tagged(id, a + b) == Tagged(id, a) + Tagged(id, b)
  {
    if a == [] {
      assert a + b == b;
    } else {
      assert (a + b)[1..] == a[1..] + b;
      TaggedAppend(id, a[1..], b);
    }
  }

  /** Each log entry is the `i`-th record, written to `id`. */
  lemma {:induction false} TaggedAt(id: string, rs: seq<JobRecord>, i: nat)
    requires i < |rs|
    ensures Tagged(id, rs)[i] == (id, rs[i])
  {
    if i > 0 {
      TaggedAt(id, rs[1..], i - 1);
    }
  }

  /** The shared `jobs` dictionary.  `log` is every write ever made to it,
      in order, so that a caller's contract can say which records an entry
      went through and not only the one it ends with. */
  class JobStore {
    var jobs: map<string, JobRecord>
    ghost var log: seq<(string, JobRecord)>

    constructor ()
      ensures jobs == map[] && log == []
    {
      jobs := map[];
      log := [];
    }

    /** `jobs[id] = record`: the whole record is replaced, and the write is
        logged. */
    method Put(id: string, record: JobRecord)
      modifies this
      ensures jobs == old(jobs)[id := record]
      ensures log == old(log) + [(id, record)]
    {
      jobs := jobs[id := record];
      log := log + [(id, record)];
    }
  }
}
