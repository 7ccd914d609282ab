/** The submit route of app/api/routes.py: the request body's validators and
    `generate_clips`, which writes a fresh job record and schedules one
    pipeline run.  The job id, a fresh `uuid4` in the source, is a parameter;
    `BackgroundTasks` is a queue the route appends to. */
module Routes {
  import opened Common
  import opened Jobs

  const DEFAULT_CLIP_DURATION: int := 40
  const DEFAULT_CLIP_COUNT: int := 5

  datatype GenerateRequest = GenerateRequest(
    videoUrl: string,
    clipDuration: int := DEFAULT_CLIP_DURATION,
    clipCount: int := DEFAULT_CLIP_COUNT)

  /** The outcome of validating a body: the request, or every failing
      field's message in field order (the 422 reply). */
  datatype Validated = Accepted(request: GenerateRequest) | Rejected(errors: seq<string>)

  /** A scheduled call `run_pipeline(video_url, clip_duration, clip_count, job_id)`. */
  datatype PipelineTask = PipelineTask(videoUrl: string, clipDuration: int, clipCount: int, jobId: string)

  datatype SubmitResponse = SubmitResponse(jobId: string, status: string)

  /** The reply to a submission: the job handle, or the 422 validation
      errors. */
  datatype Reply = Created(response: SubmitResponse) | Unprocessable(errors: seq<string>)

  const URL_REQUIRED := "Video URL is required"
  const URL_NOT_HTTP := "Video URL must be a valid HTTP/HTTPS link"
  const DURATION_RANGE := "Clip duration must be between 10 and 300 seconds"
  const COUNT_RANGE := "Clip count must be between 1 and 10"

  function ValidateVideoUrl(v: string): (r: Result<string>)
    ensures r.Ok? <==> v != [] && StartsWith(v, "http")
    ensures r.Ok? ==> r.value == v
    ensures v == [] ==> r == Err(URL_REQUIRED)
    ensures v != [] && r.Err? ==> r == Err(URL_NOT_HTTP)
  {
    if v == [] then Err(URL_REQUIRED)
    else if !StartsWith(v, "http") then Err(URL_NOT_HTTP)
    else Ok(v)
  }

  function ValidateClipDuration(v: int): (r: Result<int>)
    ensures r.Ok? <==> 10 <= v <= 300
    ensures r.Ok? ==> r.value == v
    ensures r.Err? ==> r.msg == DURATION_RANGE
  {
    if v < 10 || v > 300 then Err(DURATION_RANGE) else Ok(v)
  }

  function ValidateClipCount(v: int): (r: Result<int>)
    ensures r.Ok? <==> 1 <= v <= 10
    ensures r.Ok? ==> r.value == v
    ensures r.Err? ==> r.msg == COUNT_RANGE
  {
    if v < 1 || v > 10 then Err(COUNT_RANGE) else Ok(v)
  }

  function ErrorOf<T>(r: Result<T>): seq<string>
  {
    if r.Err? then [r.msg] else []
  }

  /** The model validation of a request body; omitted fields take their defaults. */
  function Validate(videoUrl: string, clipDuration: int := DEFAULT_CLIP_DURATION, clipCount: int := DEFAULT_CLIP_COUNT): (r: Validated)
    ensures r.Accepted? <==> ValidateVideoUrl(videoUrl).Ok? && ValidateClipDuration(clipDuration).Ok? && ValidateClipCount(clipCount).Ok?
    ensures r.Accepted? ==> r.request == GenerateRequest(videoUrl, clipDuration, clipCount)
    ensures r.Rejected? ==> 1 <= |r.errors| <= 3
  {
    var errors := ErrorOf(ValidateVideoUrl(videoUrl)) + ErrorOf(ValidateClipDuration(clipDuration)) + ErrorOf(ValidateClipCount(clipCount));
    if errors == [] then Accepted(GenerateRequest(videoUrl, clipDuration, clipCount)) else Rejected(errors)
  }

  /** A body is accepted exactly when the URL is non-empty and starts with
      "http", the duration lies in [10, 300] and the count in [1, 10], bounds
      included; a rejection names each failing field once, in field order. */
  lemma ValidateRanges(videoUrl: string, clipDuration: int, clipCount: int)
    ensures Validate(videoUrl, clipDuration, clipCount).Accepted?
      <==> videoUrl != [] && StartsWith(videoUrl, "http") && 10 <= clipDuration <= 300 && 1 <= clipCount <= 10
    ensures var r := Validate(videoUrl, clipDuration, clipCount);
      r.Rejected? ==>
        (DURATION_RANGE in r.errors <==> !(10 <= clipDuration <= 300))
        && (COUNT_RANGE in r.errors <==> !(1 <= clipCount <= 10))
        && ((URL_REQUIRED in r.errors || URL_NOT_HTTP in r.errors) <==> !(videoUrl != [] && StartsWith(videoUrl, "http")))
  {
  }

  /** With only a valid URL given, the request carries a 40 s duration and 5 clips. */
  lemma DefaultsAccepted(videoUrl: string)
    requires videoUrl != [] && StartsWith(videoUrl, "http")
    ensures Validate(videoUrl) == Accepted(GenerateRequest(videoUrl, 40, 5))
  {
  }

  /** FastAPI's `BackgroundTasks`: the calls queued to run after the reply. */
  class BackgroundTasks {
    var queue: seq<PipelineTask>

    constructor ()
      ensures queue == []
    {
      queue := [];
    }

    method AddTask(task: PipelineTask)
      modifies this
      ensures queue == old(queue) + [task]
    {
      queue := queue + [task];
    }
  }

  /** `generate_clips`: records the job as processing with no clips, under
      the fresh id, overwriting nothing else; queues exactly one pipeline run
      with the request's own fields and that id; replies with the id. */
  method GenerateClips(store: JobStore, tasks: BackgroundTasks, payload: GenerateRequest, jobId: string)
    returns (response: SubmitResponse)
    modifies store, tasks
    ensures store.jobs == old(store.jobs)[jobId := Submitted()]
    ensures store.log == old(store.log) + [(jobId, Submitted())]
    ensures tasks.queue == old(tasks.queue) + [PipelineTask(payload.videoUrl, payload.clipDuration, payload.clipCount, jobId)]
    ensures response == SubmitResponse(jobId, "processing")
  {
    store.Put(jobId, Submitted());
    tasks.AddTask(PipelineTask(payload.videoUrl, payload.clipDuration, payload.clipCount, jobId));
    response := SubmitResponse(jobId, "processing");
  }

  /** `POST /generate-clips` end to end: the validators run first, and a
      rejected body writes no record and schedules nothing. */
  method Submit(store: JobStore, tasks: BackgroundTasks, videoUrl: string, clipDuration: int, clipCount: int, jobId: string)
    returns (reply: Reply)
    modifies store, tasks
    ensures var v := Validate(videoUrl, clipDuration, clipCount);
      && (v.Rejected? ==> store.jobs == old(store.jobs) && store.log == old(store.log) && tasks.queue == old(tasks.queue) && reply == Unprocessable(v.errors))
      && (v.Accepted? ==>
            && store.jobs == old(store.jobs)[jobId := Submitted()]
            && store.log == old(store.log) + [(jobId, Submitted())]
            && tasks.queue == old(tasks.queue) + [PipelineTask(videoUrl, clipDuration, clipCount, jobId)]
            && reply == Created(SubmitResponse(jobId, "processing")))
  {
    var v := Validate(videoUrl, clipDuration, clipCount);
    if v.Rejected? {
      return Unprocessable(v.errors);
    }
    var r := GenerateClips(store, tasks, v.request, jobId);
    reply := Created(r);
  }

  /** Identical requests are not merged: two submissions of the same body
      under two fresh ids give two processing records and two queued runs. */
  method SameBodyTwice(videoUrl: string, id1: string, id2: string) returns (store: JobStore, tasks: BackgroundTasks)
    requires videoUrl != [] && StartsWith(videoUrl, "http")
    requires id1 != id2
    ensures store.jobs == map[id1 := Submitted(), id2 := Submitted()]
    ensures store.log == [(id1, Submitted()), (id2, Submitted())]
    ensures tasks.queue == [PipelineTask(videoUrl, 40, 5, id1), PipelineTask(videoUrl, 40, 5, id2)]
  {
    store := new JobStore();
    tasks := new BackgroundTasks();
    var _ := Submit(store, tasks, videoUrl, 40, 5, id1);
    var _ := Submit(store, tasks, videoUrl, 40, 5, id2);
  }
}
