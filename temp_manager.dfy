/** `TempFileManager` of app/core/temp_manager.py: two bookkeeping lists of
    temporary directories and files, and the sweeps that delete them.  The
    operating system's file tree is the class `FileSystem`: a map from path
    to node, and the paths whose deletion the system refuses. */
module TempManager {
  import opened Common

  /** The directory `tempfile.mkdtemp` creates its directories in. */
  const TEMP_ROOT: string := "/tmp"
  const DEFAULT_PREFIX: string := "opus_"
  const DEFAULT_MAX_AGE_HOURS: int := 24

  /** A node of the file tree with its modification time. */
  datatype Node = File(mtime: real) | Dir(mtime: real)

  /** `p` is `root` itself or lies below it. */
  predicate Under(p: string, root: string)
  {
    p == root || StartsWith(p, root + "/")
  }

  /** Lying below is transitive. */
  lemma UnderTrans(p: string, q: string, root: string)
    requires Under(p, q) && Under(q, root)
    ensures Under(p, root)
  {
    if p != q && q != root {
      assert p[..|root + "/"|] == q[..|root + "/"|];
    }
  }

  /** `os.remove(path)` succeeds: the path is a regular file the system lets
      go. */
  predicate Removable(entries: map<string, Node>, failing: set<string>, path: string)
  {
    path in entries && entries[path].File? && path !in failing
  }

  /** `shutil.rmtree(root)` succeeds: the root is a directory and nothing in
      its tree is refused. */
  predicate TreeRemovable(entries: map<string, Node>, failing: set<string>, root: string)
  {
    root in entries && entries[root].Dir? && forall p | p in entries && Under(p, root) :: p !in failing
  }

  /** The tree at `root` taken out of `entries`. */
  function Prune(entries: map<string, Node>, root: string): (r: map<string, Node>)
    ensures forall p :: p in r <==> p in entries && !Under(p, root)
  {
    map p | p in entries && !Under(p, root) :: entries[p]
  }

  /** `r` keeps some of the entries of `entries`, each as it was. */
  predicate SubMap(r: map<string, Node>, entries: map<string, Node>)
  {
    forall p | p in r :: p in entries && r[p] == entries[p]
  }

  /** The operating system's file tree. */
  class FileSystem {
    var entries: map<string, Node>
    /** Paths whose deletion the system refuses (permissions, a file in use). */
    const failing: set<string>

    constructor (entries: map<string, Node>, failing: set<string>)
      ensures this.entries == entries && this.failing == failing
    {
      this.entries := entries;
      this.failing := failing;
    }

    /** `os.remove(path)`: deletes a regular file; raises (`ok` false) for a
        missing path, a directory or a refused file, and then changes nothing. */
    method Remove(path: string) returns (ok: bool)
      modifies this
      ensures ok == Removable(old(entries), failing, path)
      ensures entries == if ok then old(entries) - {path} else old(entries)
    {
      ok := Removable(entries, failing, path);
      if ok {
        entries := entries - {path};
      }
    }

    /** `shutil.rmtree(root)`: deletes a directory and everything below it;
        raises (`ok` false) for a missing path, a file, or a tree holding a
        refused path, and then changes nothing. */
    method RemoveTree(root: string) returns (ok: bool)
      modifies this
      ensures ok == TreeRemovable(old(entries), failing, root)
      ensures entries == if ok then Prune(old(entries), root) else old(entries)
    {
      ok := TreeRemovable(entries, failing, root);
      if ok {
        entries := Prune(entries, root);
      }
    }

    /** `tempfile.mkdtemp(prefix=prefix)`: a new directory named by the
        prefix and a random tag not yet in use. */
    method MakeTempDir(prefix: string, tag: string, now: real) returns (dir: string)
      requires TEMP_ROOT + "/" + prefix + tag !in entries
      modifies this
      ensures dir == TEMP_ROOT + "/" + prefix + tag
      ensures entries == old(entries)[dir := Dir(now)]
    {
      dir := TEMP_ROOT + "/" + prefix + tag;
      entries := entries[dir := Dir(now)];
    }
  }

  /** Python's `list.remove(x)` behind an `x in list` guard: the first
      occurrence of `x` is dropped; a list without `x` is kept. */
  function RemoveFirst(s: seq<string>, x: string): seq<string>
  {
    if s == [] then []
    else if s[0] == x then s[1..]
    else [s[0]] + RemoveFirst(s[1..], x)
  }

  lemma {:induction false} RemoveFirstAbsent(s: seq<string>, x: string)
    requires x !in s
    ensures RemoveFirst(s, x) == s
  {
    if s != [] {
      assert x !in s[1..];
      RemoveFirstAbsent(s[1..], x);
    }
  }

  lemma {:induction false} RemoveFirstAt(s: seq<string>, x: string, i: nat)
    requires i < |s| && s[i] == x && x !in s[..i]
    ensures RemoveFirst(s, x) == s[..i] + s[i + 1..]
    decreases i
  {
    if i > 0 {
      assert s[0] == s[..i][0];
      assert s[1..][i - 1] == x && s[1..][..i - 1] == s[1..i];
      RemoveFirstAt(s[1..], x, i - 1);
      assert s[..i] == [s[0]] + s[1..][..i - 1];
      assert s[i + 1..] == s[1..][i - 1 + 1..];
    }
  }

  /** The position of the first occurrence of `x`. */
  function FirstIndex(s: seq<string>, x: string): (i: nat)
    requires x in s
    ensures i < |s| && s[i] == x && x !in s[..i]
  {
    if s[0] == x then 0
    else
      var j := FirstIndex(s[1..], x);
      assert s[..j + 1] == [s[0]] + s[1..][..j];
      j + 1
  }

  lemma {:induction false} RemoveFirstCount(s: seq<string>, x: string)
    ensures multiset(RemoveFirst(s, x)) == multiset(s) - multiset{x}
    ensures x in s ==> |RemoveFirst(s, x)| == |s| - 1
  {
    if s != [] {
      assert s == [s[0]] + s[1..];
      RemoveFirstCount(s[1..], x);
      if s[0] != x {
        assert multiset(RemoveFirst(s, x)) == multiset{s[0]} + multiset(RemoveFirst(s[1..], x));
      }
    }
  }

  /** Only the first occurrence goes: the list loses exactly one copy of a
      tracked path, the others and their order stay, and an untracked path
      leaves the list as it is. */
  lemma RemoveFirstSpec(s: seq<string>, x: string)
    ensures x !in s ==> RemoveFirst(s, x) == s
    ensures x in s ==> |RemoveFirst(s, x)| == |s| - 1
    ensures multiset(RemoveFirst(s, x)) == multiset(s) - multiset{x}
    ensures forall i | 0 <= i < |s| && s[i] == x && x !in s[..i] :: RemoveFirst(s, x) == s[..i] + s[i + 1..]
  {
    RemoveFirstCount(s, x);
    if x !in s {
      RemoveFirstAbsent(s, x);
    }
    forall i | 0 <= i < |s| && s[i] == x && x !in s[..i]
      ensures RemoveFirst(s, x) == s[..i] + s[i + 1..]
    {
      RemoveFirstAt(s, x, i);
    }
  }

  /** The first loop of `cleanup_all`: each tracked path that exists goes to
      `os.remove`, and a failure only skips that path. */
  function RemoveFiles(entries: map<string, Node>, failing: set<string>, paths: seq<string>): (r: map<string, Node>)
    ensures SubMap(r, entries)
    decreases |paths|
  {
    if paths == [] then entries
    else
      var next := if Removable(entries, failing, paths[0]) then entries - {paths[0]} else entries;
      RemoveFiles(next, failing, paths[1..])
  }

  /** The second loop of `cleanup_all`: each tracked directory that exists
      goes to `shutil.rmtree`, and a failure only skips that directory. */
  function RemoveTrees(entries: map<string, Node>, failing: set<string>, roots: seq<string>): (r: map<string, Node>)
    ensures SubMap(r, entries)
    decreases |roots|
  {
    if roots == [] then entries
    else
      var next := if TreeRemovable(entries, failing, roots[0]) then Prune(entries, roots[0]) else entries;
      RemoveTrees(next, failing, roots[1..])
  }

  /** The file loop deletes exactly the tracked paths that are deletable
      regular files, and keeps everything else as it was. */
  lemma {:induction false} RemoveFilesSpec(entries: map<string, Node>, failing: set<string>, paths: seq<string>)
    ensures var r := RemoveFiles(entries, failing, paths);
      forall p :: p in r <==> p in entries && !(p in paths && Removable(entries, failing, p))
    decreases |paths|
  {
    if paths != [] {
      var next := if Removable(entries, failing, paths[0]) then entries - {paths[0]} else entries;
      RemoveFilesSpec(next, failing, paths[1..]);
      forall p | p in next
        ensures Removable(next, failing, p) == Removable(entries, failing, p)
      {
      }
    }
  }

  /** Deleting never makes a tree deletable where it was not, and a tree that
      was deletable stays so while its root is there. */
  lemma TreeRemovableShrinks(small: map<string, Node>, entries: map<string, Node>, failing: set<string>, root: string)
    requires SubMap(small, entries)
    requires TreeRemovable(entries, failing, root) && root in small
    ensures TreeRemovable(small, failing, root)
  {
  }

  /** The directory loop deletes nothing outside the tracked trees, and
      nothing is left of a tracked tree that could be deleted. */
  lemma {:induction false} RemoveTreesSpec(entries: map<string, Node>, failing: set<string>, roots: seq<string>)
    ensures var r := RemoveTrees(entries, failing, roots);
      && (forall p | p in entries && (forall root | root in roots :: !Under(p, root)) :: p in r)
      && (forall root | root in roots && TreeRemovable(entries, failing, root) :: forall p | p in r :: !Under(p, root))
    decreases |roots|
  {
    if roots != [] {
      var first := roots[0];
      var next := if TreeRemovable(entries, failing, first) then Prune(entries, first) else entries;
      var r := RemoveTrees(entries, failing, roots);
      assert r == RemoveTrees(next, failing, roots[1..]);
      RemoveTreesSpec(next, failing, roots[1..]);
      forall root | root in roots && TreeRemovable(entries, failing, root)
        ensures forall p | p in r :: !Under(p, root)
      {
        if root == first {
          assert forall p | p in r :: p in next;
        } else if root in next {
          assert root in roots[1..];
          TreeRemovableShrinks(next, entries, failing, root);
        } else {
          assert TreeRemovable(entries, failing, first) && Under(root, first);
          forall p | p in r
            ensures !Under(p, root)
          {
            if Under(p, root) {
              UnderTrans(p, root, first);
            }
          }
        }
      }
    }
  }

  /** What `cleanup_all` does to the file tree: it deletes nothing outside
      the tracked files and the trees of the tracked directories, keeps what
      it does not delete as it was, and leaves no tracked file that was a
      deletable regular file and nothing of a tracked directory whose tree
      was deletable. */
  lemma CleanupAllEffect(entries: map<string, Node>, failing: set<string>, files: seq<string>, dirs: seq<string>)
    ensures var r := RemoveTrees(RemoveFiles(entries, failing, files), failing, dirs);
      && SubMap(r, entries)
      && (forall p | p in entries && p !in files && (forall root | root in dirs :: !Under(p, root)) :: p in r)
      && (forall p | p in files && Removable(entries, failing, p) :: p !in r)
      && (forall root | root in dirs && TreeRemovable(entries, failing, root) :: forall p | p in r :: !Under(p, root))
  {
    var mid := RemoveFiles(entries, failing, files);
    RemoveFilesSpec(entries, failing, files);
    RemoveTreesSpec(mid, failing, dirs);
    forall root | root in dirs && TreeRemovable(entries, failing, root)
      ensures TreeRemovable(mid, failing, root)
    {
      TreeRemovableShrinks(mid, entries, failing, root);
    }
  }

  /** A regular file older than `limitSeconds` at time `now`. */
  predicate Expired(entries: map<string, Node>, path: string, now: real, limitSeconds: int)
  {
    path in entries && entries[path].File? && now - entries[path].mtime > limitSeconds as real
  }

  /** The loop of `cleanup_old_files` over the listed paths: expired regular
      files are deleted in listing order, and the first refused deletion ends
      the sweep. */
  function Purge(entries: map<string, Node>, failing: set<string>, listing: seq<string>, now: real, limitSeconds: int): (r: map<string, Node>)
    ensures SubMap(r, entries)
    decreases |listing|
  {
    if listing == [] then entries
    else if !Expired(entries, listing[0], now, limitSeconds) then Purge(entries, failing, listing[1..], now, limitSeconds)
    else if listing[0] in failing then entries
    else Purge(entries - {listing[0]}, failing, listing[1..], now, limitSeconds)
  }

  /** Only listed, expired, deletable regular files are deleted; when no
      expired listed file is refused, every one of them is deleted. */
  lemma {:induction false} PurgeSpec(entries: map<string, Node>, failing: set<string>, listing: seq<string>, now: real, limitSeconds: int)
    ensures var r := Purge(entries, failing, listing, now, limitSeconds);
      && (forall p | p in entries && p !in r :: p in listing && Expired(entries, p, now, limitSeconds) && p !in failing)
      && ((forall p | p in listing && Expired(entries, p, now, limitSeconds) :: p !in failing) ==>
            forall p | p in listing && Expired(entries, p, now, limitSeconds) :: p !in r)
    decreases |listing|
  {
    if listing != [] {
      var first := listing[0];
      if !Expired(entries, first, now, limitSeconds) {
        PurgeSpec(entries, failing, listing[1..], now, limitSeconds);
      } else if first !in failing {
        var next := entries - {first};
        PurgeSpec(next, failing, listing[1..], now, limitSeconds);
        forall p | p in next
          ensures Expired(next, p, now, limitSeconds) == Expired(entries, p, now, limitSeconds)
        {
        }
      }
    }
  }

  /** `p` is a direct child of `dir`: exactly one path component below it. */
  predicate ChildOf(p: string, dir: string)
  {
    StartsWith(p, dir + "/") && |p| > |dir| + 1 && '/' !in p[|dir| + 1..]
  }

  /** `listing` is what `Path(dir).glob('*')` yields: every direct child of
      `dir` that exists, each once, in some order. */
  ghost predicate GlobListing(entries: map<string, Node>, dir: string, listing: seq<string>)
  {
    && (forall i, j | 0 <= i < j < |listing| :: listing[i] != listing[j])
    && (forall p :: p in listing <==> p in entries && ChildOf(p, dir))
  }

  /** Over the listing of `dir`, the sweep removes only expired, deletable
      regular files that are direct children of `dir`; when none of those
      refuses removal, it removes all of them. */
  lemma PurgeInDirectory(entries: map<string, Node>, failing: set<string>, dir: string, listing: seq<string>, now: real, limitSeconds: int)
    requires GlobListing(entries, dir, listing)
    ensures var r := Purge(entries, failing, listing, now, limitSeconds);
      && (forall p | p in entries && p !in r :: ChildOf(p, dir) && Expired(entries, p, now, limitSeconds) && p !in failing)
      && ((forall p | ChildOf(p, dir) && Expired(entries, p, now, limitSeconds) :: p !in failing) ==>
            forall p | ChildOf(p, dir) && Expired(entries, p, now, limitSeconds) :: p !in r)
  {
    PurgeSpec(entries, failing, listing, now, limitSeconds);
  }

  /** A refused deletion of the `i`-th listed path stops the sweep: only
      paths listed before it can be gone. */
  lemma {:induction false} PurgeStops(entries: map<string, Node>, failing: set<string>, listing: seq<string>, now: real, limitSeconds: int, i: nat)
    requires i < |listing| && Expired(entries, listing[i], now, limitSeconds) && listing[i] in failing
    ensures var r := Purge(entries, failing, listing, now, limitSeconds);
      forall p | p in entries && p !in listing[..i] :: p in r
    decreases i
  {
    if i > 0 {
      var first := listing[0];
      var next := if Expired(entries, first, now, limitSeconds) && first !in failing then entries - {first} else entries;
      assert listing[1..][i - 1] == listing[i];
      if next != entries {
        assert first != listing[i];
        assert Expired(next, listing[i], now, limitSeconds);
      }
      PurgeStops(next, failing, listing[1..], now, limitSeconds, i - 1);
      assert listing[..i] == [first] + listing[1..][..i - 1];
    }
  }

  /** The bookkeeping lists of temporary directories and files. */
  class TempFileManager {
    var tempDirs: seq<string>
    var tempFiles: seq<string>

    constructor ()
      ensures tempDirs == [] && tempFiles == []
    {
      tempDirs := [];
      tempFiles := [];
    }

    /** `create_temp_dir`: makes a fresh directory, tracks it and returns it. */
    method CreateTempDir(fs: FileSystem, tag: string, now: real, prefix: string := DEFAULT_PREFIX) returns (dir: string)
      requires TEMP_ROOT + "/" + prefix + tag !in fs.entries
      modifies this, fs
      ensures dir == TEMP_ROOT + "/" + prefix + tag
      ensures fs.entries == old(fs.entries)[dir := Dir(now)]
      ensures tempDirs == old(tempDirs) + [dir] && tempFiles == old(tempFiles)
    {
      dir := fs.MakeTempDir(prefix, tag, now);
      tempDirs := tempDirs + [dir];
    }

    /** `add_temp_file`: tracks a path, even one tracked already. */
    method AddTempFile(path: string)
      modifies this
      ensures tempFiles == old(tempFiles) + [path] && tempDirs == old(tempDirs)
    {
      tempFiles := tempFiles + [path];
    }

    /** `cleanup_file`: deletes the path if it exists and then forgets its
        first tracked occurrence; when the deletion raises (a directory, a
        refused file) the error is swallowed and the list is kept. */
    method CleanupFile(fs: FileSystem, path: string)
      modifies this, fs
      ensures fs.entries == if Removable(old(fs.entries), fs.failing, path) then old(fs.entries) - {path} else old(fs.entries)
      ensures tempFiles == if path in old(fs.entries) && !Removable(old(fs.entries), fs.failing, path) then old(tempFiles)
        else RemoveFirst(old(tempFiles), path)
      ensures tempDirs == old(tempDirs)
    {
      if path in fs.entries {
        var ok := fs.Remove(path);
        if !ok {
          return;
        }
      }
      if path in tempFiles {
        tempFiles := RemoveFirst(tempFiles, path);
      } else {
        RemoveFirstSpec(tempFiles, path);
      }
    }

    /** `cleanup_all`: every tracked file, then every tracked directory, is
        deleted if it exists, each failure swallowed; both lists end empty. */
    method CleanupAll(fs: FileSystem)
      modifies this, fs
      ensures fs.entries == RemoveTrees(RemoveFiles(old(fs.entries), fs.failing, old(tempFiles)), fs.failing, old(tempDirs))
      ensures tempFiles == [] && tempDirs == []
    {
      var files := tempFiles;
      var i := 0;
      while i < |files|
        invariant 0 <= i <= |files|
        invariant RemoveFiles(fs.entries, fs.failing, files[i..]) == RemoveFiles(old(fs.entries), fs.failing, files)
        invariant tempFiles == old(tempFiles) && tempDirs == old(tempDirs)
      {
        assert files[i..][1..] == files[i + 1..];
        if files[i] in fs.entries {
          var _ := fs.Remove(files[i]);
        }
        i := i + 1;
      }
      ghost var mid := fs.entries;
      var dirs := tempDirs;
      var j := 0;
      while j < |dirs|
        invariant 0 <= j <= |dirs|
        invariant RemoveTrees(fs.entries, fs.failing, dirs[j..]) == RemoveTrees(mid, fs.failing, dirs)
        invariant tempFiles == old(tempFiles) && tempDirs == old(tempDirs)
      {
        assert dirs[j..][1..] == dirs[j + 1..];
        if dirs[j] in fs.entries {
          var _ := fs.RemoveTree(dirs[j]);
        }
        j := j + 1;
      }
      tempFiles := [];
      tempDirs := [];
    }

    /** `cleanup_old_files`: with the time read as the modification time of
        "." (a missing "." raises and nothing is deleted), the listed regular
        files older than `maxAgeHours` hours are deleted until a deletion is
        refused.  `listing` is what `Path(directory).glob('*')` yields, so only
        direct children of `directory` can go. */
    method CleanupOldFiles(fs: FileSystem, directory: string, listing: seq<string>, maxAgeHours: int := DEFAULT_MAX_AGE_HOURS)
      requires GlobListing(fs.entries, directory, listing)
      modifies fs
      ensures fs.entries == if "." !in old(fs.entries) then old(fs.entries)
        else Purge(old(fs.entries), fs.failing, listing, old(fs.entries)["."].mtime, maxAgeHours * 3600)
      ensures forall p | p in old(fs.entries) && p !in fs.entries ::
        && ChildOf(p, directory)
        && Expired(old(fs.entries), p, old(fs.entries)["."].mtime, maxAgeHours * 3600)
        && p !in fs.failing
    {
      if "." !in fs.entries {
        return;
      }
      var now := fs.entries["."].mtime;
      var limitSeconds := maxAgeHours * 3600;
      PurgeInDirectory(fs.entries, fs.failing, directory, listing, now, limitSeconds);
      var i := 0;
      while i < |listing|
        invariant 0 <= i <= |listing|
        invariant Purge(fs.entries, fs.failing, listing[i..], now, limitSeconds)
          == Purge(old(fs.entries), fs.failing, listing, now, limitSeconds)
      {
        assert listing[i..][1..] == listing[i + 1..];
        var path := listing[i];
        if path in fs.entries && fs.entries[path].File? {
          var age := now - fs.entries[path].mtime;
          if age > limitSeconds as real {
            var ok := fs.Remove(path);
            if !ok {
              return;
            }
          }
        }
        i := i + 1;
      }
    }
  }
}
