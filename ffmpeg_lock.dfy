/** The registry of running ffmpeg processes of app/core/ffmpeg_lock.py: a
    table from job key to (process, start time), filled by `register_process`,
    emptied by `unregister_process` and swept of entries older than a limit
    by `cleanup_hung_processes`.  The lock around each operation is modelled
    by making each method atomic; the clock is the parameter `now`. */
module ProcessRegistry {

  /** `(process, start_time)`; a process is known by its pid. */
  datatype Entry = Entry(pid: int, startTime: real)

  /** Default age limit of the sweep, in seconds. */
  const DEFAULT_MAX_AGE_SECONDS: int := 900

  /** The sweep's strict age test. */
  predicate Stale(e: Entry, now: real, maxAgeSeconds: int)
  {
    now - e.startTime > maxAgeSeconds as real
  }

  /** The registry after a sweep: exactly the entries that are not stale,
      each unchanged. */
  function Sweep(m: map<string, Entry>, now: real, maxAgeSeconds: int): (r: map<string, Entry>)
    ensures forall k :: k in r <==> k in m && !Stale(m[k], now, maxAgeSeconds)
    ensures forall k | k in r :: r[k] == m[k]
  {
    map k | k in m && !Stale(m[k], now, maxAgeSeconds) :: m[k]
  }

  /** The keys a sweep removes. */
  function StaleKeys(m: map<string, Entry>, now: real, maxAgeSeconds: int): (s: set<string>)
    ensures forall k :: k in s <==> k in m && Stale(m[k], now, maxAgeSeconds)
  {
    set k | k in m && Stale(m[k], now, maxAgeSeconds)
  }

  /** After a sweep at `now` every entry left is at most `maxAgeSeconds` old,
      and sweeping again at the same `now` changes nothing. */
  lemma SweepSettles(m: map<string, Entry>, now: real, maxAgeSeconds: int)
    ensures forall k | k in Sweep(m, now, maxAgeSeconds) :: now - Sweep(m, now, maxAgeSeconds)[k].startTime <= maxAgeSeconds as real
    ensures Sweep(Sweep(m, now, maxAgeSeconds), now, maxAgeSeconds) == Sweep(m, now, maxAgeSeconds)
  {
  }

  /** A later sweep removes at least what an earlier one at the same limit
      would: an entry young enough to survive at `later` survives at `now`. */
  lemma SweepMonotone(m: map<string, Entry>, now: real, later: real, maxAgeSeconds: int)
    requires now <= later
    ensures Sweep(m, later, maxAgeSeconds).Keys <= Sweep(m, now, maxAgeSeconds).Keys
  {
  }

  /** Removing exactly the stale keys is the sweep. */
  lemma SweepRemovesStale(m: map<string, Entry>, removed: set<string>, now: real, maxAgeSeconds: int)
    requires forall k :: k in removed <==> k in m && Stale(m[k], now, maxAgeSeconds)
    ensures m - removed == Sweep(m, now, maxAgeSeconds)
  {
  }

  predicate Distinct<T(==)>(s: seq<T>)
  {
    forall i, j | 0 <= i < j < |s| :: s[i] != s[j]
  }

  /** The pids of the given keys' entries, in order. */
  function Pids(m: map<string, Entry>, keys: seq<string>): (ps: seq<int>)
    requires forall k | k in keys :: k in m
    ensures |ps| == |keys|
    ensures forall i | 0 <= i < |keys| :: ps[i] == m[keys[i]].pid
  {
    if keys == [] then [] else [m[keys[0]].pid] + Pids(m, keys[1..])
  }

  class Registry {
    /** `active_processes` */
    var active: map<string, Entry>
    /** The pids handed to `kill_process_tree`, oldest first. */
    var killLog: seq<int>

    constructor ()
      ensures active == map[] && killLog == []
    {
      active := map[];
      killLog := [];
    }

    /** `register_process`: maps `key` to the process and the current time,
        replacing any earlier entry for `key`. */
    method RegisterProcess(key: string, pid: int, now: real)
      modifies this
      ensures active == old(active)[key := Entry(pid, now)]
      ensures killLog == old(killLog)
    {
      active := active[key := Entry(pid, now)];
    }

    /** `unregister_process`: removes `key`; does nothing when it is absent. */
    method UnregisterProcess(key: string)
      modifies this
      ensures active == old(active) - {key}
      ensures key !in old(active) ==> active == old(active)
      ensures killLog == old(killLog)
    {
      active := active - {key};
    }

    /** `kill_process_tree`: the signal itself is not modelled; the attempt is
        recorded and `succeeds` says whether it went through.  Its failures
        are swallowed, so it never raises. */
    method KillProcessTree(pid: int, succeeds: bool) returns (ok: bool)
      modifies this
      ensures killLog == old(killLog) + [pid]
      ensures active == old(active)
      ensures ok == succeeds
    {
      killLog := killLog + [pid];
      ok := succeeds;
    }

    /** `cleanup_hung_processes`: every entry older than `maxAgeSeconds`
        (strictly) gets one kill attempt and is removed whatever the attempt's
        outcome; every other entry stays as it was.  `staleKeys` is the list
        the sweep collects, in visiting order. */
    method CleanupHungProcesses(now: real, killSucceeds: int -> bool, maxAgeSeconds: int := DEFAULT_MAX_AGE_SECONDS)
      returns (ghost staleKeys: seq<string>)
      modifies this
      ensures active == Sweep(old(active), now, maxAgeSeconds)
      ensures Distinct(staleKeys)
      ensures forall k :: k in staleKeys <==> k in StaleKeys(old(active), now, maxAgeSeconds)
      ensures killLog == old(killLog) + Pids(old(active), staleKeys)
    {
      ghost var before := active;
      var stale := KillStale(now, killSucceeds, maxAgeSeconds);
      ghost var removed := PopAll(stale);
      SweepRemovesStale(before, removed, now, maxAgeSeconds);
      staleKeys := stale;
    }

    /** The first loop of the sweep: visits every entry once, tries to kill
        each stale one and collects its key. */
    method KillStale(now: real, killSucceeds: int -> bool, maxAgeSeconds: int) returns (stale: seq<string>)
      modifies this
      ensures active == old(active)
      ensures Distinct(stale)
      ensures forall k :: k in stale <==> k in active && Stale(active[k], now, maxAgeSeconds)
      ensures killLog == old(killLog) + Pids(active, stale)
    {
      stale := [];
      var remaining := active.Keys;
      ghost var visited: set<string> := {};
      while remaining != {}
        invariant active == old(active)
        invariant remaining !! visited && remaining + visited == active.Keys
        invariant Distinct(stale)
        invariant forall k :: k in stale <==> k in visited && Stale(active[k], now, maxAgeSeconds)
        invariant killLog == old(killLog) + Pids(active, stale)
        decreases remaining
      {
        var key :| key in remaining;
        var entry := active[key];
        if now - entry.startTime > maxAgeSeconds as real {
          var _ := KillProcessTree(entry.pid, killSucceeds(entry.pid));
          assert Pids(active, stale + [key]) == Pids(active, stale) + [active[key].pid];
          stale := stale + [key];
        }
        remaining := remaining - {key};
        visited := visited + {key};
      }
    }

    /** The second loop of the sweep: `pop(key, None)` for every key, in
        order; `removed` is the set of keys it was given. */
    method PopAll(keys: seq<string>) returns (ghost removed: set<string>)
      modifies this
      ensures forall k :: k in removed <==> k in keys
      ensures active == old(active) - removed
      ensures killLog == old(killLog)
    {
      var i := 0;
      removed := {};
      while i < |keys|
        invariant 0 <= i <= |keys|
        invariant active == old(active) - removed
        invariant forall k :: k in removed <==> k in keys[..i]
        invariant killLog == old(killLog)
      {
        assert keys[..i + 1] == keys[..i] + [keys[i]];
        active := active - {keys[i]};
        removed := removed + {keys[i]};
        i := i + 1;
      }
      assert keys[..|keys|] == keys;
    }
  }
}
