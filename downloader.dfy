/** `download_video` of app/services/downloader.py: pick the fetcher from the
    URL (Google Drive through gdown, Dropbox and everything else through a
    streamed HTTP GET, with Dropbox share links rewritten to direct ones),
    save to storage/uploads/<job_id>.mp4, and reject a missing or small
    file.  gdown and HTTP are given as `Services`. */
module Downloader {
  import opened Common

  const UPLOAD_DIR: string := "storage/uploads"
  /** The smallest size, in bytes, of an accepted download. */
  const MIN_VIDEO_BYTES: nat := 100000
  const TOO_SMALL: string := "Downloaded file is invalid or too small"

  predicate IsGoogleDrive(url: string)
  {
    Contains(url, "drive.google.com")
  }

  predicate IsDropbox(url: string)
  {
    Contains(url, "dropbox.com")
  }

  /** Python's `s.replace(p, r)`: every occurrence of `p`, scanning left to
      right without overlaps, is replaced by `r`. */
  function ReplaceAll(s: string, p: string, r: string): string
    requires |p| > 0
    decreases |s|
  {
    if |s| < |p| then s
    else if s[..|p|] == p then r + ReplaceAll(s[|p|..], p, r)
    else [s[0]] + ReplaceAll(s[1..], p, r)
  }

  /** The Dropbox rewrite: share links ("?dl=0") become download links ("?dl=1"). */
  function DirectLink(url: string): string
  {
    if Contains(url, "?dl=0") then ReplaceAll(url, "?dl=0", "?dl=1") else url
  }

  /** Replacing a pattern that does not occur changes nothing. */
  lemma {:induction false} ReplaceAbsent(s: string, p: string, r: string)
    requires |p| > 0 && !Contains(s, p)
    ensures ReplaceAll(s, p, r) == s
    decreases |s|
  {
    if |s| >= |p| {
      assert !OccursAt(s, p, 0);
      assert !Contains(s[1..], p) by {
        forall i | 0 <= i <= |s[1..]|
          ensures !OccursAt(s[1..], p, i)
        {
          assert !OccursAt(s, p, i + 1);
          if i + |p| <= |s[1..]| {
            assert s[1..][i..i + |p|] == s[i + 1..i + 1 + |p|];
          }
        }
      }
      ReplaceAbsent(s[1..], p, r);
    }
  }

  /** Replacing with a string of the same length keeps the length. */
  lemma {:induction false} ReplaceKeepsLength(s: string, p: string, r: string)
    requires |p| > 0 && |r| == |p|
    ensures |ReplaceAll(s, p, r)| == |s|
    decreases |s|
  {
    if |s| >= |p| {
      if s[..|p|] == p {
        ReplaceKeepsLength(s[|p|..], p, r);
      } else {
        ReplaceKeepsLength(s[1..], p, r);
      }
    }
  }

  lemma SliceCons(s: string, n: nat)
    requires 1 <= n <= |s|
    ensures s[..n] == [s[0]] + s[1..][..n - 1]
  {
  }

  /** The rewrite never creates a '?': a prefix free of '?' that the input
      does not start with, the output does not start with either. */
  lemma {:induction false} RewriteNoPrefix(s: string, q: string)
    requires '?' !in q
    requires !StartsWith(s, q)
    ensures !StartsWith(ReplaceAll(s, "?dl=0", "?dl=1"), q)
    decreases |s|
  {
    var t := ReplaceAll(s, "?dl=0", "?dl=1");
    if |s| < 5 {
      assert t == s;
    } else if s[..5] == "?dl=0" {
      assert t[0] == '?';
      assert q == [] || q[0] != '?';
    } else {
      var rest := ReplaceAll(s[1..], "?dl=0", "?dl=1");
      assert t == [s[0]] + rest;
      if q != [] && s[0] == q[0] {
        assert '?' !in q[1..];
        if |q| <= |s| {
          SliceCons(s, |q|);
        }
        RewriteNoPrefix(s[1..], q[1..]);
        if |q| <= |t| {
          SliceCons(t, |q|);
          assert t[1..] == rest;
        }
      }
    }
  }

  /** A "?dl=1" in front of a string free of "?dl=0" creates none. */
  lemma NoneAfterReplaced(t: string, rest: string)
    requires t == "?dl=1" + rest && !Contains(rest, "?dl=0")
    ensures !Contains(t, "?dl=0")
  {
    forall i | 0 <= i <= |t|
      ensures !OccursAt(t, "?dl=0", i)
    {
      if i == 0 {
        assert t[4] == '1';
      } else if i < 5 {
        assert t[i] != '?';
      } else if i + 5 <= |t| {
        assert rest[i - 5..i - 5 + 5] == t[i..i + 5];
        assert !OccursAt(rest, "?dl=0", i - 5);
      }
    }
  }

  /** A character in front of a string free of "?dl=0" creates one only as
      '?' before a string starting with "dl=0". */
  lemma NoneAfterKept(t: string, c: char, rest: string)
    requires t == [c] + rest && !Contains(rest, "?dl=0")
    requires c == '?' ==> !StartsWith(rest, "dl=0")
    ensures !Contains(t, "?dl=0")
  {
    forall i | 0 <= i <= |t|
      ensures !OccursAt(t, "?dl=0", i)
    {
      if i == 0 {
        if 5 <= |t| {
          assert t[..5] == [c] + rest[..4];
          assert t[..5][1..] == rest[..4] && t[..5][0] == c;
          assert "?dl=0"[1..] == "dl=0";
        }
      } else if i + 5 <= |t| {
        assert rest[i - 1..i - 1 + 5] == t[i..i + 5];
        assert !OccursAt(rest, "?dl=0", i - 1);
      }
    }
  }

  /** After the rewrite no "?dl=0" is left. */
  lemma {:induction false} RewriteComplete(s: string)
    ensures !Contains(ReplaceAll(s, "?dl=0", "?dl=1"), "?dl=0")
    decreases |s|
  {
    var t := ReplaceAll(s, "?dl=0", "?dl=1");
    if |s| < 5 {
      assert t == s;
      forall i | 0 <= i <= |t|
        ensures !OccursAt(t, "?dl=0", i)
      {
      }
    } else if s[..5] == "?dl=0" {
      RewriteComplete(s[5..]);
      NoneAfterReplaced(t, ReplaceAll(s[5..], "?dl=0", "?dl=1"));
    } else {
      RewriteComplete(s[1..]);
      assert s[..5] == [s[0]] + s[1..][..4];
      if s[0] == '?' {
        RewriteNoPrefix(s[1..], "dl=0");
      }
      NoneAfterKept(t, s[0], ReplaceAll(s[1..], "?dl=0", "?dl=1"));
    }
  }

  /** The Dropbox rewrite keeps a link without "?dl=0" as it is, keeps the
      length of any link, and leaves no "?dl=0" behind. */
  lemma DirectLinkSpec(url: string)
    ensures !Contains(url, "?dl=0") ==> DirectLink(url) == url
    ensures |DirectLink(url)| == |url|
    ensures !Contains(DirectLink(url), "?dl=0")
  {
    if Contains(url, "?dl=0") {
      ReplaceKeepsLength(url, "?dl=0", "?dl=1");
      RewriteComplete(url);
    }
  }

  /** `os.path.join(UPLOAD_DIR, f"{job_id}.mp4")` */
  function VideoPath(jobId: string): string
  {
    UPLOAD_DIR + "/" + jobId + ".mp4"
  }

  /** The file at the destination after the fetch. */
  datatype FileState = Missing | Present(size: nat)

  /** The fetch `download_video` performs: gdown into `output`, or a
      streamed GET whose body is written to `output`. */
  datatype Fetch = Gdown(url: string, output: string) | HttpGet(url: string, output: string)

  /** `gdown(url, output)` is the file left at `output`, or the exception
      gdown raised; `http(url)` is the sizes of the body's chunks, or the
      exception of the request or of `raise_for_status`. */
  datatype Services = Services(
    gdown: (string, string) -> Result<FileState>,
    http: string -> Result<seq<nat>>)

  /** The branch `download_video` takes: Drive first, then Dropbox, then a
      plain URL. */
  function FetchFor(fileUrl: string, jobId: string): (f: Fetch)
    ensures IsGoogleDrive(fileUrl) ==> f == Gdown(fileUrl, VideoPath(jobId))
    ensures !IsGoogleDrive(fileUrl) && IsDropbox(fileUrl) ==> f == HttpGet(DirectLink(fileUrl), VideoPath(jobId))
    ensures !IsGoogleDrive(fileUrl) && !IsDropbox(fileUrl) ==> f == HttpGet(fileUrl, VideoPath(jobId))
  {
    var videoPath := VideoPath(jobId);
    if IsGoogleDrive(fileUrl) then Gdown(fileUrl, videoPath)
    else if IsDropbox(fileUrl) then HttpGet(DirectLink(fileUrl), videoPath)
    else HttpGet(fileUrl, videoPath)
  }

  /** Whatever the branch, the file lands at storage/uploads/<job_id>.mp4;
      gdown is used exactly for Drive links, even those that also name
      Dropbox; the URL fetched over HTTP has the length of the given one, is
      the given one unless it is a Dropbox link with "?dl=0", and never
      holds "?dl=0" when it is a Dropbox link. */
  lemma FetchPlan(fileUrl: string, jobId: string)
    ensures var f := FetchFor(fileUrl, jobId);
      && f.output == VideoPath(jobId)
      && (f.Gdown? <==> IsGoogleDrive(fileUrl))
      && (f.Gdown? ==> f.url == fileUrl)
      && |f.url| == |fileUrl|
      && (f.HttpGet? && IsDropbox(fileUrl) ==> !Contains(f.url, "?dl=0"))
      && (f.HttpGet? && (!IsDropbox(fileUrl) || !Contains(fileUrl, "?dl=0")) ==> f.url == fileUrl)
  {
    DirectLinkSpec(fileUrl);
  }

  function Sum(chunks: seq<nat>): nat
  {
    if chunks == [] then 0 else chunks[0] + Sum(chunks[1..])
  }

  /** The destination after the fetch: gdown's result, or a file holding
      every chunk of the body (the file is created even for an empty body). */
  function FileAfter(f: Fetch, env: Services): Result<FileState>
  {
    match f
    case Gdown(url, output) => env.gdown(url, output)
    case HttpGet(url, _) =>
      var body := env.http(url);
      if body.Err? then Err(body.msg) else Ok(Present(Sum(body.value)))
  }

  /** What `download_video(file_url, job_id)` returns or raises. */
  function Download(fileUrl: string, jobId: string, env: Services): (r: Result<map<string, string>>)
    ensures r.Ok? ==> r.value == map["video" := VideoPath(jobId)]
  {
    var file := FileAfter(FetchFor(fileUrl, jobId), env);
    if file.Err? then Err(file.msg)
    else if file.value.Missing? || file.value.size < MIN_VIDEO_BYTES then Err(TOO_SMALL)
    else Ok(map["video" := VideoPath(jobId)])
  }

  /** A download succeeds exactly when the fetch raised nothing and left a
      file of at least 100000 bytes (so exactly 100000 is accepted); a
      missing or smaller file raises the size error, and a fetch that raised
      passes its exception on. */
  lemma DownloadSpec(fileUrl: string, jobId: string, env: Services)
    ensures var file := FileAfter(FetchFor(fileUrl, jobId), env);
      var r := Download(fileUrl, jobId, env);
      && (r.Ok? <==> file.Ok? && file.value.Present? && file.value.size >= MIN_VIDEO_BYTES)
      && (file.Err? ==> r == Err(file.msg))
      && (file.Ok? && (file.value.Missing? || file.value.size < MIN_VIDEO_BYTES) ==> r == Err(TOO_SMALL))
  {
  }

  /** The chunk loop: writes each non-empty chunk; the file's size is the
      total of the chunks. */
  method WriteChunks(chunks: seq<nat>) returns (size: nat)
    ensures size == Sum(chunks)
  {
    size := 0;
    var i := 0;
    while i < |chunks|
      invariant 0 <= i <= |chunks|
      invariant size + Sum(chunks[i..]) == Sum(chunks)
    {
      assert chunks[i..][1..] == chunks[i + 1..];
      if chunks[i] > 0 {
        size := size + chunks[i];
      }
      i := i + 1;
    }
  }

  /** A streamed GET whose body is written to `output`. */
  method Stream(url: string, output: string, env: Services) returns (file: Result<FileState>)
    ensures file == FileAfter(HttpGet(url, output), env)
  {
    var body := env.http(url);
    if body.Err? {
      return Err(body.msg);
    }
    var size := WriteChunks(body.value);
    file := Ok(Present(size));
  }

  /** `download_video`: performs the fetch `FetchFor` picks and returns what
      `Download` says. */
  method DownloadVideo(fileUrl: string, jobId: string, env: Services) returns (fetch: Fetch, r: Result<map<string, string>>)
    ensures fetch == FetchFor(fileUrl, jobId)
    ensures r == Download(fileUrl, jobId, env)
  {
    var videoPath := VideoPath(jobId);
    var file: Result<FileState>;
    if Contains(fileUrl, "drive.google.com") {
      fetch := Gdown(fileUrl, videoPath);
      file := env.gdown(fileUrl, videoPath);
    } else if Contains(fileUrl, "dropbox.com") {
      var url := fileUrl;
      if Contains(url, "?dl=0") {
        url := ReplaceAll(url, "?dl=0", "?dl=1");
      }
      fetch := HttpGet(url, videoPath);
      file := Stream(url, videoPath, env);
    } else {
      fetch := HttpGet(fileUrl, videoPath);
      file := Stream(fileUrl, videoPath, env);
    }
    if file.Err? {
      return fetch, Err(file.msg);
    }
    if file.value.Missing? || file.value.size < MIN_VIDEO_BYTES {
      return fetch, Err(TOO_SMALL);
    }
    r := Ok(map["video" := videoPath]);
  }
}
