/** `cut_clips` of app/services/clipper.py: for each highlight in order, one
    ffmpeg run that encodes the clip to a local file, one S3 upload of that
    file, and a deletion of the file whose failure is ignored.  The external
    services are given as `Services`; a run is the list of calls made and
    either the clip URLs or the message of the exception that ended it. */
module Clipper {
  import opened Common
  import opened Highlights

  const CLIPS_DIR: string := "storage/clips"

  datatype Call =
    | Encode(start: real, end: real, input: string, output: string)  // ffmpeg -ss start -to end -i input ... output
    | Upload(local: string, key: string)
    | Remove(path: string, ok: bool)

  /** `ffmpegError(c)` is the error of a run that exits non-zero, `upload`
      gives the URL of the uploaded file or the exception raised, and
      `removeOk` says whether deleting a file succeeds. */
  datatype Services = Services(
    ffmpegError: Call -> Option<string>,
    upload: (string, string) -> Result<string>,
    removeOk: string -> bool)

  datatype Outcome = Outcome(calls: seq<Call>, result: Result<seq<string>>)

  /** `f"{job_id}_clip_{i}.mp4"` */
  function ClipName(jobId: string, i: nat): string
  {
    jobId + "_clip_" + NatToString(i) + ".mp4"
  }

  function LocalPath(jobId: string, i: nat): string
  {
    CLIPS_DIR + "/" + ClipName(jobId, i)
  }

  function ClipKey(jobId: string, i: nat): string
  {
    "clips/" + ClipName(jobId, i)
  }

  /** Two clips of a job never share a file name, a local path or an S3
      key, so no clip overwrites another. */
  lemma ClipNamesDistinct(jobId: string, i: nat, j: nat)
    requires i != j
    ensures ClipName(jobId, i) != ClipName(jobId, j)
    ensures LocalPath(jobId, i) != LocalPath(jobId, j)
    ensures ClipKey(jobId, i) != ClipKey(jobId, j)
  {
    var p := jobId + "_clip_";
    var ni, nj := ClipName(jobId, i), ClipName(jobId, j);
    assert ni[|p|..|ni| - 4] == NatToString(i);
    assert nj[|p|..|nj| - 4] == NatToString(j);
    NatToStringInjective(i, j);
    assert LocalPath(jobId, i)[|CLIPS_DIR| + 1..] == ni;
    assert LocalPath(jobId, j)[|CLIPS_DIR| + 1..] == nj;
    assert ClipKey(jobId, i)[6..] == ni;
    assert ClipKey(jobId, j)[6..] == nj;
  }

  /** The clips `first`, `first + 1`, ... cut from the highlights `hs`. */
  function CutFrom(video: string, hs: seq<Window>, jobId: string, first: nat, env: Services): Outcome
    decreases |hs|
  {
    if hs == [] then Outcome([], Ok([]))
    else
      var local := LocalPath(jobId, first);
      var encode := Encode(hs[0].start, hs[0].end, video, local);
      if env.ffmpegError(encode).Some? then Outcome([encode], Err(env.ffmpegError(encode).value))
      else
        var up := env.upload(local, ClipKey(jobId, first));
        var upload := Upload(local, ClipKey(jobId, first));
        if up.Err? then Outcome([encode, upload], Err(up.msg))
        else
          var rest := CutFrom(video, hs[1..], jobId, first + 1, env);
          Outcome([encode, upload, Remove(local, env.removeOk(local))] + rest.calls,
                  if rest.result.Ok? then Ok([up.value] + rest.result.value) else rest.result)
  }

  /** What `cut_clips(video_path, highlights, job_id)` does. */
  function Cut(video: string, hs: seq<Window>, jobId: string, env: Services): Outcome
  {
    CutFrom(video, hs, jobId, 1, env)
  }

  /** Clip `i` (counting from `first`) encodes its own highlight and is
      uploaded under its own name. */
  predicate ClipSucceeds(video: string, hs: seq<Window>, jobId: string, first: nat, env: Services, j: nat)
    requires j < |hs|
  {
    var local := LocalPath(jobId, first + j);
    env.ffmpegError(Encode(hs[j].start, hs[j].end, video, local)).None?
    && env.upload(local, ClipKey(jobId, first + j)).Ok?
  }

  /** The shape of a run whose first clip succeeds: that clip's three calls,
      then the rest of the run, with its URL in front of the rest's. */
  lemma FirstClipSucceeds(video: string, hs: seq<Window>, jobId: string, first: nat, env: Services)
    requires hs != [] && ClipSucceeds(video, hs, jobId, first, env, 0)
    ensures var local := LocalPath(jobId, first);
      var up := env.upload(local, ClipKey(jobId, first));
      var rest := CutFrom(video, hs[1..], jobId, first + 1, env);
      CutFrom(video, hs, jobId, first, env) ==
        Outcome([Encode(hs[0].start, hs[0].end, video, local), Upload(local, ClipKey(jobId, first)), Remove(local, env.removeOk(local))] + rest.calls,
                if rest.result.Ok? then Ok([up.value] + rest.result.value) else rest.result)
  {
    assert first + 0 == first;
  }

  /** Clip `j` of the rest of a run is clip `j + 1` of the run. */
  lemma ShiftClip(video: string, hs: seq<Window>, jobId: string, first: nat, env: Services)
    requires hs != []
    ensures forall j | 1 <= j < |hs| ::
      ClipSucceeds(video, hs, jobId, first, env, j) == ClipSucceeds(video, hs[1..], jobId, first + 1, env, j - 1)
  {
    forall j | 1 <= j < |hs|
      ensures ClipSucceeds(video, hs, jobId, first, env, j) == ClipSucceeds(video, hs[1..], jobId, first + 1, env, j - 1)
    {
      assert hs[1..][j - 1] == hs[j];
      assert first + 1 + (j - 1) == first + j;
    }
  }

  /** A run succeeds exactly when every clip's ffmpeg run and upload do. */
  lemma {:induction false} CutOk(video: string, hs: seq<Window>, jobId: string, first: nat, env: Services)
    ensures CutFrom(video, hs, jobId, first, env).result.Ok?
      <==> forall j | 0 <= j < |hs| :: ClipSucceeds(video, hs, jobId, first, env, j)
    decreases |hs|
  {
    if hs != [] {
      CutOk(video, hs[1..], jobId, first + 1, env);
      ShiftClip(video, hs, jobId, first, env);
      if ClipSucceeds(video, hs, jobId, first, env, 0) {
        FirstClipSucceeds(video, hs, jobId, first, env);
        var rest := CutFrom(video, hs[1..], jobId, first + 1, env);
        if rest.result.Ok? {
          forall j | 0 <= j < |hs|
            ensures ClipSucceeds(video, hs, jobId, first, env, j)
          {
            if j > 0 {
              assert ClipSucceeds(video, hs[1..], jobId, first + 1, env, j - 1);
            }
          }
        } else {
          var k :| 0 <= k < |hs| - 1 && !ClipSucceeds(video, hs[1..], jobId, first + 1, env, k);
          assert !ClipSucceeds(video, hs, jobId, first, env, k + 1);
        }
      } else {
        assert first + 0 == first;
        assert CutFrom(video, hs, jobId, first, env).result.Err?;
      }
    }
  }

  /** In the run `o`, clip `j` (counting from `first`) returned its upload's
      URL as the `j`-th URL, and its calls are the three from position
      `3 * j`: the encode of highlight `j`'s own bounds into its local file,
      the upload under "clips/<name>", and the file's deletion. */
  predicate ClipDone(o: Outcome, video: string, hs: seq<Window>, jobId: string, first: nat, env: Services, j: nat)
    requires j < |hs| && o.result.Ok? && |o.result.value| == |hs| && |o.calls| == 3 * |hs|
  {
    var local := LocalPath(jobId, first + j);
    && env.upload(local, ClipKey(jobId, first + j)).Ok?
    && o.result.value[j] == env.upload(local, ClipKey(jobId, first + j)).value
    && o.calls[3 * j] == Encode(hs[j].start, hs[j].end, video, local)
    && o.calls[3 * j + 1] == Upload(local, ClipKey(jobId, first + j))
    && o.calls[3 * j + 2] == Remove(local, env.removeOk(local))
  }

  /** A run that succeeds returns one URL per highlight, in highlight order,
      each the upload of the clip named after its 1-based position, and
      makes three calls per clip: the encode of that highlight's own bounds
      into "storage/clips/<name>", the upload under "clips/<name>", and the
      deletion. */
  lemma {:induction false} CutSuccess(video: string, hs: seq<Window>, jobId: string, first: nat, env: Services)
    requires CutFrom(video, hs, jobId, first, env).result.Ok?
    ensures var o := CutFrom(video, hs, jobId, first, env);
      && |o.result.value| == |hs|
      && |o.calls| == 3 * |hs|
      && forall j | 0 <= j < |hs| :: ClipDone(o, video, hs, jobId, first, env, j)
    decreases |hs|
  {
    if hs != [] {
      var o := CutFrom(video, hs, jobId, first, env);
      var rest := CutFrom(video, hs[1..], jobId, first + 1, env);
      CutOk(video, hs, jobId, first, env);
      assert ClipSucceeds(video, hs, jobId, first, env, 0);
      FirstClipSucceeds(video, hs, jobId, first, env);
      CutSuccess(video, hs[1..], jobId, first + 1, env);
      assert o.result.value[1..] == rest.result.value && o.calls[3..] == rest.calls;
      forall j | 0 <= j < |hs|
        ensures ClipDone(o, video, hs, jobId, first, env, j)
      {
        if j == 0 {
          assert first + 0 == first;
        } else {
          assert ClipDone(rest, video, hs[1..], jobId, first + 1, env, j - 1);
          LaterClipDone(o, rest, video, hs, jobId, first, env, j);
        }
      }
    }
  }

  /** Clip `j` of a run is clip `j - 1` of its rest, three calls and one
      URL further on. */
  lemma LaterClipDone(o: Outcome, rest: Outcome, video: string, hs: seq<Window>, jobId: string, first: nat, env: Services, j: nat)
    requires 0 < j < |hs|
    requires rest.result.Ok? && |rest.result.value| == |hs| - 1 && |rest.calls| == 3 * (|hs| - 1)
    requires o.result.Ok? && |o.result.value| == |hs| && |o.calls| == 3 * |hs|
    requires o.result.value[1..] == rest.result.value && o.calls[3..] == rest.calls
    requires ClipDone(rest, video, hs[1..], jobId, first + 1, env, j - 1)
    ensures ClipDone(o, video, hs, jobId, first, env, j)
  {
    assert o.result.value[j] == rest.result.value[j - 1];
    assert o.calls[3 * j] == rest.calls[3 * (j - 1)];
    assert o.calls[3 * j + 1] == rest.calls[3 * (j - 1) + 1];
    assert o.calls[3 * j + 2] == rest.calls[3 * (j - 1) + 2];
    assert hs[1..][j - 1] == hs[j];
    assert first + 1 + (j - 1) == first + j;
  }

  /** The first clip that fails, or `|hs|` when none does. */
  function FirstFailure(video: string, hs: seq<Window>, jobId: string, first: nat, env: Services): (j: nat)
    ensures j <= |hs|
    ensures forall i | 0 <= i < j :: ClipSucceeds(video, hs, jobId, first, env, i)
    ensures j < |hs| ==> !ClipSucceeds(video, hs, jobId, first, env, j)
    decreases |hs|
  {
    if hs == [] then 0
    else if !ClipSucceeds(video, hs, jobId, first, env, 0) then 0
    else
      var j := 1 + FirstFailure(video, hs[1..], jobId, first + 1, env);
      ShiftClip(video, hs, jobId, first, env);
      j
  }

  /** The calls and the exception of clip `j` when it fails: its ffmpeg
      run's error, or, when the run succeeded, its upload's. */
  function FailedClip(video: string, hs: seq<Window>, jobId: string, first: nat, env: Services, j: nat): Outcome
    requires j < |hs| && !ClipSucceeds(video, hs, jobId, first, env, j)
  {
    var local := LocalPath(jobId, first + j);
    var encode := Encode(hs[j].start, hs[j].end, video, local);
    if env.ffmpegError(encode).Some? then Outcome([encode], Err(env.ffmpegError(encode).value))
    else Outcome([encode, Upload(local, ClipKey(jobId, first + j))], Err(env.upload(local, ClipKey(jobId, first + j)).msg))
  }

  /** A failing ffmpeg run or upload ends the run: after the three calls of
      each earlier clip come only the failing clip's own calls, and the
      exception it raised is the result, so no URL list is returned. */
  lemma {:induction false} CutAbort(video: string, hs: seq<Window>, jobId: string, first: nat, env: Services)
    ensures var o := CutFrom(video, hs, jobId, first, env);
      var j := FirstFailure(video, hs, jobId, first, env);
      j < |hs| ==>
        var f := FailedClip(video, hs, jobId, first, env, j);
        && f.result.Err?
        && 3 * j <= |o.calls|
        && o == Outcome(o.calls[..3 * j] + f.calls, f.result)
    decreases |hs|
  {
    var j := FirstFailure(video, hs, jobId, first, env);
    if j < |hs| {
      var o := CutFrom(video, hs, jobId, first, env);
      var f := FailedClip(video, hs, jobId, first, env, j);
      if j == 0 {
        assert first + 0 == first;
        assert o == f;
        assert o.calls[..0] + f.calls == f.calls;
      } else {
        var rest := CutFrom(video, hs[1..], jobId, first + 1, env);
        FirstClipSucceeds(video, hs, jobId, first, env);
        CutAbort(video, hs[1..], jobId, first + 1, env);
        AbortShift(video, hs, jobId, first, env, j);
        AbortAfter(o, rest, f, j);
      }
    }
  }

  /** A run whose first three calls are followed by the calls and the
      result of `rest`, where `rest` aborts with `f` after `j - 1` clips,
      aborts with `f` after `j` clips. */
  lemma AbortAfter(o: Outcome, rest: Outcome, f: Outcome, j: nat)
    requires 0 < j && 3 * (j - 1) <= |rest.calls|
    requires rest == Outcome(rest.calls[..3 * (j - 1)] + f.calls, f.result)
    requires |o.calls| >= 3 && o.calls[3..] == rest.calls && o.result == rest.result
    ensures 3 * j <= |o.calls| && o == Outcome(o.calls[..3 * j] + f.calls, f.result)
  {
    assert o.calls == o.calls[..3] + rest.calls;
    assert o.calls[..3 * j] == o.calls[..3] + rest.calls[..3 * (j - 1)];
  }

  /** The first failure of the rest of a run is one clip earlier, and is the
      same failure. */
  lemma AbortShift(video: string, hs: seq<Window>, jobId: string, first: nat, env: Services, j: nat)
    requires 0 < j < |hs| && j == FirstFailure(video, hs, jobId, first, env)
    ensures FirstFailure(video, hs[1..], jobId, first + 1, env) == j - 1
    ensures FailedClip(video, hs[1..], jobId, first + 1, env, j - 1) == FailedClip(video, hs, jobId, first, env, j)
  {
    assert hs[1..][j - 1] == hs[j];
    assert first + 1 + (j - 1) == first + j;
  }

  /** Whether deleting the local clips succeeds never changes the result. */
  lemma {:induction false} RemovalIgnored(video: string, hs: seq<Window>, jobId: string, first: nat, env: Services, removeOk: string -> bool)
    ensures CutFrom(video, hs, jobId, first, env).result == CutFrom(video, hs, jobId, first, env.(removeOk := removeOk)).result
    decreases |hs|
  {
    if hs != [] {
      RemovalIgnored(video, hs[1..], jobId, first + 1, env, removeOk);
    }
  }

  /** No highlights: no call at all and an empty list. */
  lemma CutNothing(video: string, jobId: string, env: Services)
    ensures Cut(video, [], jobId, env) == Outcome([], Ok([]))
  {
  }

  /** The outcome of a run whose first clips already made `calls` and
      returned `urls`, followed by `rest`. */
  function After(calls: seq<Call>, urls: seq<string>, rest: Outcome): Outcome
  {
    Outcome(calls + rest.calls, if rest.result.Ok? then Ok(urls + rest.result.value) else rest.result)
  }

  lemma AfterStep(calls: seq<Call>, urls: seq<string>, step: seq<Call>, url: string, rest: Outcome)
    ensures After(calls, urls, Outcome(step + rest.calls, if rest.result.Ok? then Ok([url] + rest.result.value) else rest.result))
      == After(calls + step, urls + [url], rest)
  {
    assert calls + (step + rest.calls) == calls + step + rest.calls;
    if rest.result.Ok? {
      assert urls + ([url] + rest.result.value) == urls + [url] + rest.result.value;
    }
  }

  /** `cut_clips`: the loop makes the calls `Cut` lists and returns what it returns. */
  method CutClips(video: string, highlights: seq<Window>, jobId: string, env: Services)
    returns (calls: seq<Call>, result: Result<seq<string>>)
    ensures Outcome(calls, result) == Cut(video, highlights, jobId, env)
  {
    calls := [];
    var urls: seq<string> := [];
    assert highlights[0..] == highlights;
    ghost var whole := Cut(video, highlights, jobId, env);
    assert [] + whole.calls == whole.calls;
    assert whole.result.Ok? ==> [] + whole.result.value == whole.result.value;
    for i := 0 to |highlights|
      invariant After(calls, urls, CutFrom(video, highlights[i..], jobId, i + 1, env)) == Cut(video, highlights, jobId, env)
    {
      assert highlights[i..][1..] == highlights[i + 1..];
      var local := LocalPath(jobId, i + 1);
      var encode := Encode(highlights[i].start, highlights[i].end, video, local);
      var failed := env.ffmpegError(encode);
      if failed.Some? {
        calls := calls + [encode];
        return calls, Err(failed.value);
      }
      var up := env.upload(local, ClipKey(jobId, i + 1));
      if up.Err? {
        calls := calls + [encode, Upload(local, ClipKey(jobId, i + 1))];
        return calls, Err(up.msg);
      }
      var step := [encode, Upload(local, ClipKey(jobId, i + 1)), Remove(local, env.removeOk(local))];
      AfterStep(calls, urls, step, up.value, CutFrom(video, highlights[i + 1..], jobId, i + 2, env));
      urls := urls + [up.value];
      // a failed deletion is ignored
      calls := calls + step;
    }
    assert calls + [] == calls && urls + [] == urls;
    result := Ok(urls);
  }
}
