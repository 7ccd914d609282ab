/** The audio-energy highlight selector of app/services/highlights.py.

    Decoding the audio file and computing the RMS of each one-second slice
    are foreign numerics; they are given as the function `rms`, the energy
    of the slice that starts at `t`.  Times are reals and Python's
    `round(x, 2)` is taken to be the identity. */
module Highlights {
  import opened Common

  /** A highlight window `(start, end)` in seconds. */
  datatype Window = Window(start: real, end: real)

  /** Length and hop of the energy scan's sliding window, in seconds. */
  const ANALYSIS_WINDOW: real := 1.0
  const HOP: real := 0.5
  /** Shortest window the candidate and fallback passes keep, in seconds. */
  const MIN_LENGTH: real := 0.5

  // ---------------------------------------------------------------------
  // Vocabulary for the guarantees
  // ---------------------------------------------------------------------

  /** Neither window reaches into the other (touching ends are allowed). */
  predicate Disjoint(a: Window, b: Window)
  {
    a.end <= b.start || b.end <= a.start
  }

  /** `0 <= start < end <= total` */
  predicate InBounds(w: Window, total: real)
  {
    0.0 <= w.start < w.end <= total
  }

  predicate AllInBounds(ws: seq<Window>, total: real)
  {
    forall w | w in ws :: InBounds(w, total)
  }

  predicate PairwiseDisjoint(ws: seq<Window>)
  {
    forall i, j | 0 <= i < |ws| && 0 <= j < |ws| && i != j :: Disjoint(ws[i], ws[j])
  }

  /** Each window ends no later than the next one starts. */
  predicate Chained(ws: seq<Window>)
  {
    forall i | 0 <= i < |ws| - 1 :: ws[i].end <= ws[i + 1].start
  }

  /** Python's ordering of `(start, end)` tuples. */
  predicate LexLe(a: Window, b: Window)
  {
    a.start < b.start || (a.start == b.start && a.end <= b.end)
  }

  predicate Sorted(ws: seq<Window>)
  {
    forall i, j | 0 <= i < j < |ws| :: LexLe(ws[i], ws[j])
  }

  // ---------------------------------------------------------------------
  // Guards (lines 14-15)
  // ---------------------------------------------------------------------

  /** `float(max(1.0, clip_duration))` */
  function ClampDuration(clipDuration: int): (d: real)
    ensures d >= 1.0
    ensures clipDuration >= 1 ==> d == clipDuration as real
    ensures clipDuration < 1 ==> d == 1.0
  {
    MaxR(1.0, clipDuration as real)
  }

  /** `int(max(1, clip_count))` */
  function ClampCount(clipCount: int): (k: nat)
    ensures k >= 1
    ensures clipCount >= 1 ==> k == clipCount
    ensures clipCount < 1 ==> k == 1
  {
    if clipCount >= 1 then clipCount else 1
  }

  // ---------------------------------------------------------------------
  // Energy scan (lines 21-35)
  // ---------------------------------------------------------------------

  /** Scan positions from the `i`-th on: `i * 0.5, (i + 1) * 0.5, ...`
      while the one-second slice at that position ends before `total`. */
  function PositionsFrom(i: nat, total: real): seq<real>
    decreases (2.0 * total).Floor + 2 - i
  {
    var t := i as real * HOP;
    if t + ANALYSIS_WINDOW < total then [t] + PositionsFrom(i + 1, total) else []
  }

  /** All scan positions of audio lasting `total` seconds. */
  function Positions(total: real): seq<real>
  {
    PositionsFrom(0, total)
  }

  /** The energy of the slice at each position. */
  function Energies(rms: real -> real, times: seq<real>): (e: seq<real>)
    ensures |e| == |times|
  {
    seq(|times|, i requires 0 <= i < |times| => rms(times[i]))
  }

  lemma {:induction false} PositionsFromSpec(i: nat, total: real)
    ensures var ts := PositionsFrom(i, total);
      && (forall k | 0 <= k < |ts| :: ts[k] == (i + k) as real * HOP && ts[k] + ANALYSIS_WINDOW < total)
      && (i + |ts|) as real * HOP + ANALYSIS_WINDOW >= total
    decreases (2.0 * total).Floor + 2 - i
  {
    if i as real * HOP + ANALYSIS_WINDOW < total {
      PositionsFromSpec(i + 1, total);
      var rest := PositionsFrom(i + 1, total);
      var ts := PositionsFrom(i, total);
      assert ts == [i as real * HOP] + rest;
      forall k | 1 <= k < |ts|
        ensures ts[k] == (i + k) as real * HOP
      {
        assert ts[k] == rest[k - 1];
      }
    }
  }

  /** The positions are 0, 0.5, 1.0, ... in order, each one's slice ends
      before the audio does, and the next position's would not. */
  lemma PositionsSpec(total: real)
    ensures var ts := Positions(total);
      && (forall k | 0 <= k < |ts| :: ts[k] == k as real * HOP && ts[k] + ANALYSIS_WINDOW < total)
      && |ts| as real * HOP + ANALYSIS_WINDOW >= total
      && (forall k | 0 <= k < |ts| - 1 :: ts[k + 1] == ts[k] + HOP)
  {
    PositionsFromSpec(0, total);
  }

  /** When the audio is longer than one clip (hence longer than one second)
      there is at least one position, so the `if not energies` branch of
      lines 37-38 is never taken. */
  lemma AnalysisAlwaysRuns(total: real, d: real)
    requires total > d >= 1.0
    ensures |Positions(total)| >= 1
  {
    PositionsSpec(total);
  }

  /** One more position: the next slice still fits, so the scan has not
      reached its bound. */
  lemma ScanStep(n: nat, total: real)
    requires n as real * HOP + ANALYSIS_WINDOW < total
    ensures PositionsFrom(n, total) == [n as real * HOP] + PositionsFrom(n + 1, total)
    ensures n < (2.0 * total).Floor + 2
  {
  }

  /** Scanning one more position adds its energy at the end. */
  lemma EnergiesStep(rms: real -> real, times: seq<real>, t: real)
    ensures Energies(rms, times + [t]) == Energies(rms, times) + [rms(t)]
  {
  }

  /** One iteration of the scan: the position `t` is the next one, and
      appending it and its energy keeps the scan's account. */
  lemma ScanAdvance(rms: real -> real, total: real, times: seq<real>, t: real)
    requires t == |times| as real * HOP && t + ANALYSIS_WINDOW < total
    requires times + PositionsFrom(|times|, total) == Positions(total)
    ensures (times + [t]) + PositionsFrom(|times| + 1, total) == Positions(total)
    ensures t + HOP == (|times| + 1) as real * HOP
    ensures Energies(rms, times + [t]) == Energies(rms, times) + [rms(t)]
    ensures |times| < (2.0 * total).Floor + 2
  {
    ScanStep(|times|, total);
    EnergiesStep(rms, times, t);
    assert times + [t] + PositionsFrom(|times| + 1, total) == times + PositionsFrom(|times|, total);
  }

  /** The sliding-window scan: the positions, with the energy of each. */
  method ScanPositions(total: real, rms: real -> real) returns (times: seq<real>, energies: seq<real>)
    ensures times == Positions(total)
    ensures energies == Energies(rms, times)
  {
    times, energies := [], [];
    var t := 0.0;
    while t + ANALYSIS_WINDOW < total
      invariant t == |times| as real * HOP
      invariant times + PositionsFrom(|times|, total) == Positions(total)
      invariant energies == Energies(rms, times)
      decreases (2.0 * total).Floor + 2 - |times|
    {
      ScanAdvance(rms, total, times, t);
      energies := energies + [rms(t)];
      times := times + [t];
      t := t + HOP;
    }
  }

  // ---------------------------------------------------------------------
  // Min-max normalisation (lines 44-48)
  // ---------------------------------------------------------------------

  function SeqMin(e: seq<real>): (m: real)
    requires |e| > 0
    ensures forall i | 0 <= i < |e| :: m <= e[i]
    ensures m in e
  {
    if |e| == 1 then e[0] else MinR(e[0], SeqMin(e[1..]))
  }

  function SeqMax(e: seq<real>): (m: real)
    requires |e| > 0
    ensures forall i | 0 <= i < |e| :: e[i] <= m
    ensures m in e
  {
    if |e| == 1 then e[0] else MaxR(e[0], SeqMax(e[1..]))
  }

  /** `(e - min) / (max - min)`, or all zeros when the signal is constant. */
  function Normalize(e: seq<real>): (r: seq<real>)
    ensures |r| == |e|
  {
    if |e| == 0 then []
    else
      var lo, hi := SeqMin(e), SeqMax(e);
      if hi > lo then seq(|e|, i requires 0 <= i < |e| => (e[i] - lo) / (hi - lo))
      else seq(|e|, i => 0.0)
  }

  lemma DivMonotone(a: real, b: real, d: real)
    requires d > 0.0
    ensures a <= b <==> a / d <= b / d
  {
    assert (b / d - a / d) * d == b - a;
  }

  lemma DivUnit(a: real, d: real)
    requires 0.0 <= a <= d && d > 0.0
    ensures 0.0 <= a / d <= 1.0
  {
  }

  /** Normalised energies lie in [0, 1]. */
  lemma NormalizeInUnitRange(e: seq<real>)
    ensures forall i | 0 <= i < |e| :: 0.0 <= Normalize(e)[i] <= 1.0
  {
    if |e| > 0 && SeqMax(e) > SeqMin(e) {
      var lo, hi := SeqMin(e), SeqMax(e);
      var r := Normalize(e);
      forall i | 0 <= i < |e|
        ensures 0.0 <= r[i] <= 1.0
      {
        assert r[i] == (e[i] - lo) / (hi - lo);
        DivUnit(e[i] - lo, hi - lo);
      }
    }
  }

  /** Normalised energies rank positions exactly as the raw energies do. */
  lemma NormalizePreservesOrder(e: seq<real>)
    ensures forall i, j | 0 <= i < |e| && 0 <= j < |e| :: e[i] <= e[j] <==> Normalize(e)[i] <= Normalize(e)[j]
  {
    if |e| > 0 && SeqMax(e) > SeqMin(e) {
      var lo, hi := SeqMin(e), SeqMax(e);
      var r := Normalize(e);
      forall i, j | 0 <= i < |e| && 0 <= j < |e|
        ensures e[i] <= e[j] <==> r[i] <= r[j]
      {
        assert r[i] == (e[i] - lo) / (hi - lo) && r[j] == (e[j] - lo) / (hi - lo);
        DivMonotone(e[i] - lo, e[j] - lo, hi - lo);
      }
    }
  }

  /** A constant signal normalises to all zeros (no division by zero). */
  lemma NormalizeConstant(e: seq<real>)
    requires |e| > 0 && forall i | 0 <= i < |e| :: e[i] == e[0]
    ensures forall i | 0 <= i < |e| :: Normalize(e)[i] == 0.0
  {
    assert SeqMin(e) == e[0] == SeqMax(e);
  }

  // ---------------------------------------------------------------------
  // Top candidates (lines 51-53)
  // ---------------------------------------------------------------------

  /** Number of chosen positions. */
  function Count(m: seq<bool>): (c: nat)
    ensures c <= |m|
  {
    if |m| == 0 then 0 else (if m[0] then 1 else 0) + Count(m[1..])
  }

  lemma {:induction false} CountNone(n: nat)
    ensures Count(seq(n, i => false)) == 0
  {
    if n > 0 {
      assert seq(n, i => false)[1..] == seq(n - 1, i => false);
      CountNone(n - 1);
    }
  }

  lemma {:induction false} CountAll(m: seq<bool>)
    ensures (forall j | 0 <= j < |m| :: m[j]) ==> Count(m) == |m|
  {
    if |m| > 0 {
      CountAll(m[1..]);
    }
  }

  lemma {:induction false} CountChoose(m: seq<bool>, b: nat)
    requires b < |m| && !m[b]
    ensures Count(m[b := true]) == Count(m) + 1
  {
    if b > 0 {
      assert m[b := true][1..] == m[1..][b - 1 := true];
      CountChoose(m[1..], b - 1);
    } else {
      assert m[b := true][1..] == m[1..];
    }
  }

  /** The highest-energy position among the first `n` not yet chosen, or -1
      when all of them are chosen. */
  function BestUnchosen(e: seq<real>, m: seq<bool>, n: nat): (b: int)
    requires |m| == |e| && n <= |e|
    ensures -1 <= b < n
    ensures b == -1 ==> forall j | 0 <= j < n :: m[j]
    ensures b >= 0 ==> !m[b] && forall j | 0 <= j < n && !m[j] :: e[j] <= e[b]
  {
    if n == 0 then -1
    else
      var b := BestUnchosen(e, m, n - 1);
      if m[n - 1] then b
      else if b == -1 || e[b] < e[n - 1] then n - 1
      else b
  }

  /** The positions `np.argsort(e)[-k:]` picks: exactly `k` of them, each
      with energy at least that of every position left out.  Ties are broken
      towards the earlier position; numpy leaves that order unspecified. */
  function TopMask(e: seq<real>, k: nat): (m: seq<bool>)
    requires k <= |e|
    ensures |m| == |e|
    ensures Count(m) == k
    ensures forall i, j | 0 <= i < |e| && 0 <= j < |e| && m[i] && !m[j] :: e[j] <= e[i]
  {
    if k == 0 then
      CountNone(|e|);
      seq(|e|, i => false)
    else
      var prev := TopMask(e, k - 1);
      CountAll(prev);
      var b := BestUnchosen(e, prev, |e|);
      CountChoose(prev, b);
      prev[b := true]
  }

  /** `m` marks exactly `k` positions of `e`, each with energy at least that
      of every unmarked one: what `np.argsort(e)[-k:]` picks, however it
      orders equal energies. */
  predicate IsTopMask(e: seq<real>, k: nat, m: seq<bool>)
  {
    && |m| == |e|
    && Count(m) == k
    && forall i, j | 0 <= i < |e| && 0 <= j < |e| && m[i] && !m[j] :: e[j] <= e[i]
  }

  /** The times of the chosen positions, in position order. */
  function Select(times: seq<real>, m: seq<bool>): (r: seq<real>)
    requires |m| == |times|
    ensures |r| == Count(m)
  {
    if |m| == 0 then [] else (if m[0] then [times[0]] else []) + Select(times[1..], m[1..])
  }

  /** Exactly `k` candidates are taken, and each has raw energy at least that
      of every position not taken. */
  lemma TopCandidates(energies: seq<real>, k: nat)
    requires k <= |energies|
    ensures Count(TopMask(Normalize(energies), k)) == k
    ensures var m := TopMask(Normalize(energies), k);
      forall i, j | 0 <= i < |energies| && 0 <= j < |energies| && m[i] && !m[j] :: energies[j] <= energies[i]
  {
    NormalizePreservesOrder(energies);
  }

  lemma {:induction false} SelectMembers(times: seq<real>, m: seq<bool>)
    requires |m| == |times|
    ensures forall x | x in Select(times, m) :: x in times
  {
    if |m| > 0 {
      SelectMembers(times[1..], m[1..]);
      assert forall x | x in times[1..] :: x in times;
    }
  }

  /** Every selected time is the time of a marked position. */
  lemma {:induction false} SelectChosen(times: seq<real>, m: seq<bool>)
    requires |m| == |times|
    ensures forall x | x in Select(times, m) :: exists i | 0 <= i < |times| :: m[i] && times[i] == x
  {
    if |m| > 0 {
      SelectChosen(times[1..], m[1..]);
      forall x | x in Select(times, m)
        ensures exists i | 0 <= i < |times| :: m[i] && times[i] == x
      {
        if !(m[0] && x == times[0]) {
          assert x in Select(times[1..], m[1..]);
          var j :| 0 <= j < |times| - 1 && m[1..][j] && times[1..][j] == x;
          assert m[j + 1] && times[j + 1] == x;
        }
      }
    }
  }

  /** Selecting from increasing times yields increasing times (the
      `sorted(...)` of line 53 keeps position order). */
  lemma {:induction false} SelectIncreasing(times: seq<real>, m: seq<bool>)
    requires |m| == |times|
    requires forall i, j | 0 <= i < j < |times| :: times[i] < times[j]
    ensures forall i, j | 0 <= i < j < |Select(times, m)| :: Select(times, m)[i] < Select(times, m)[j]
  {
    if |m| > 0 {
      var rest := Select(times[1..], m[1..]);
      SelectIncreasing(times[1..], m[1..]);
      SelectMembers(times[1..], m[1..]);
      if m[0] {
        var r := [times[0]] + rest;
        assert Select(times, m) == r;
        forall i, j | 0 <= i < j < |r|
          ensures r[i] < r[j]
        {
          assert r[j] == rest[j - 1];
          if i > 0 {
            assert r[i] == rest[i - 1];
          } else {
            assert rest[j - 1] in times[1..];
            var k :| 0 <= k < |times| - 1 && times[1..][k] == rest[j - 1];
            assert times[k + 1] == rest[j - 1];
          }
        }
      } else {
        assert Select(times, m) == rest;
      }
    }
  }

  // ---------------------------------------------------------------------
  // Candidate windows (lines 55-70)
  // ---------------------------------------------------------------------

  /** The window centred on `t`, moved right to start at 0 if needed, and
      moved left (not shortened) to end at `total` if it would pass it. */
  function CandidateWindow(t: real, d: real, total: real): (w: Window)
    requires d >= 0.0
    ensures 0.0 <= w.start && w.end <= total
    ensures total >= d ==> w.end - w.start == d
    ensures MaxR(0.0, t - d / 2.0) + d <= total ==> w.start == MaxR(0.0, t - d / 2.0)
    ensures MaxR(0.0, t - d / 2.0) + d > total ==> w.end == total
  {
    var start := MaxR(0.0, t - d / 2.0);
    var end := start + d;
    if end > total then Window(MaxR(0.0, total - d), total) else Window(start, end)
  }

  /** The kept candidate windows, one per candidate time whose window is at
      least half a second long. */
  function Candidates(ts: seq<real>, d: real, total: real): seq<Window>
    requires d >= 0.0
  {
    if ts == [] then []
    else
      var w := CandidateWindow(ts[0], d, total);
      (if w.end - w.start >= MIN_LENGTH then [w] else []) + Candidates(ts[1..], d, total)
  }

  /** Every candidate lies in [0, total] with length at least 0.5 s; when the
      audio is longer than the clip, none is dropped and each is exactly `d`
      long. */
  lemma {:induction false} CandidatesSound(ts: seq<real>, d: real, total: real)
    requires d >= 0.0
    ensures forall w | w in Candidates(ts, d, total) :: InBounds(w, total) && w.end - w.start >= MIN_LENGTH
    ensures total >= d >= MIN_LENGTH ==> |Candidates(ts, d, total)| == |ts|
    ensures total >= d ==> forall w | w in Candidates(ts, d, total) :: w.end - w.start == d
  {
    if ts != [] {
      CandidatesSound(ts[1..], d, total);
    }
  }

  /** Every candidate is the window of one of the given times. */
  lemma {:induction false} CandidatesFrom(ts: seq<real>, d: real, total: real)
    requires d >= 0.0
    ensures forall w | w in Candidates(ts, d, total) :: exists t | t in ts :: w == CandidateWindow(t, d, total)
  {
    if ts != [] {
      CandidatesFrom(ts[1..], d, total);
      forall w | w in Candidates(ts, d, total)
        ensures exists t | t in ts :: w == CandidateWindow(t, d, total)
      {
        if w != CandidateWindow(ts[0], d, total) {
          assert w in Candidates(ts[1..], d, total);
          var t :| t in ts[1..] && w == CandidateWindow(t, d, total);
          assert t in ts;
        }
      }
    }
  }

  method BuildCandidates(ts: seq<real>, d: real, total: real) returns (raw: seq<Window>)
    requires d >= 0.0
    ensures raw == Candidates(ts, d, total)
  {
    raw := [];
    var i := 0;
    while i < |ts|
      invariant 0 <= i <= |ts|
      invariant raw + Candidates(ts[i..], d, total) == Candidates(ts, d, total)
    {
      var w := CandidateWindow(ts[i], d, total);
      assert ts[i..][1..] == ts[i + 1..];
      if w.end - w.start >= MIN_LENGTH {
        raw := raw + [w];
      }
      i := i + 1;
    }
  }

  // ---------------------------------------------------------------------
  // Sorting windows (`sorted` of lines 76 and 114)
  // ---------------------------------------------------------------------

  lemma SortedTail(ws: seq<Window>)
    requires Sorted(ws) && ws != []
    ensures Sorted(ws[1..])
    ensures forall x | x in ws[1..] :: LexLe(ws[0], x)
  {
    forall x | x in ws[1..]
      ensures LexLe(ws[0], x)
    {
      var j :| 0 <= j < |ws[1..]| && ws[1..][j] == x;
      assert ws[j + 1] == x;
    }
  }

  lemma ConsSorted(x: Window, s: seq<Window>)
    requires Sorted(s) && forall y | y in s :: LexLe(x, y)
    ensures Sorted([x] + s)
  {
    forall i, j | 0 <= i < j < |[x] + s|
      ensures LexLe(([x] + s)[i], ([x] + s)[j])
    {
      assert ([x] + s)[j] == s[j - 1];
      if i == 0 {
        assert s[j - 1] in s;
      } else {
        assert ([x] + s)[i] == s[i - 1];
      }
    }
  }

  function Insert(w: Window, ws: seq<Window>): (r: seq<Window>)
    requires Sorted(ws)
    ensures Sorted(r)
    ensures multiset(r) == multiset(ws) + multiset{w}
    ensures forall x | x in r :: x == w || x in ws
  {
    if ws == [] then [w]
    else if LexLe(w, ws[0]) then
      ConsSorted(w, ws);
      [w] + ws
    else
      SortedTail(ws);
      var rest := Insert(w, ws[1..]);
      assert ws == [ws[0]] + ws[1..];
      ConsSorted(ws[0], rest);
      [ws[0]] + rest
  }

  /** Python's `sorted` on a list of `(start, end)` tuples. */
  function SortWindows(ws: seq<Window>): (r: seq<Window>)
    ensures Sorted(r)
    ensures multiset(r) == multiset(ws)
    ensures |r| == |ws|
    ensures forall x | x in r :: x in ws
  {
    if ws == [] then []
    else
      assert ws == [ws[0]] + ws[1..];
      Insert(ws[0], SortWindows(ws[1..]))
  }

  lemma {:induction false} InsertKeepsDisjoint(w: Window, ws: seq<Window>)
    requires Sorted(ws) && PairwiseDisjoint(ws)
    requires forall x | x in ws :: Disjoint(w, x)
    ensures PairwiseDisjoint(Insert(w, ws))
  {
    if ws != [] && !LexLe(w, ws[0]) {
      TailDisjoint(ws);
      InsertKeepsDisjoint(w, ws[1..]);
      var rest := Insert(w, ws[1..]);
      forall x | x in rest
        ensures Disjoint(ws[0], x)
      {
        if x != w {
          var k :| 0 <= k < |ws[1..]| && ws[1..][k] == x;
          assert ws[k + 1] == x;
        } else {
          assert ws[0] in ws;
        }
      }
      ConsDisjoint(ws[0], rest);
    } else if ws != [] {
      ConsDisjoint(w, ws);
    }
  }

  lemma TailDisjoint(ws: seq<Window>)
    requires ws != [] && PairwiseDisjoint(ws)
    ensures PairwiseDisjoint(ws[1..])
  {
    forall i, j | 0 <= i < |ws| - 1 && 0 <= j < |ws| - 1 && i != j
      ensures Disjoint(ws[1..][i], ws[1..][j])
    {
      assert ws[1..][i] == ws[i + 1] && ws[1..][j] == ws[j + 1];
    }
  }

  lemma ConsDisjoint(w: Window, ws: seq<Window>)
    requires PairwiseDisjoint(ws)
    requires forall x | x in ws :: Disjoint(w, x)
    ensures PairwiseDisjoint([w] + ws)
  {
    var r := [w] + ws;
    forall i, j | 0 <= i < |r| && 0 <= j < |r| && i != j
      ensures Disjoint(r[i], r[j])
    {
      if i == 0 {
        assert r[j] == ws[j - 1] && ws[j - 1] in ws;
      } else if j == 0 {
        assert r[i] == ws[i - 1] && ws[i - 1] in ws;
      } else {
        assert r[i] == ws[i - 1] && r[j] == ws[j - 1];
      }
    }
  }

  /** Sorting keeps windows that were pairwise disjoint pairwise disjoint. */
  lemma {:induction false} SortKeepsDisjoint(ws: seq<Window>)
    requires PairwiseDisjoint(ws)
    ensures PairwiseDisjoint(SortWindows(ws))
  {
    if ws != [] {
      TailDisjoint(ws);
      SortKeepsDisjoint(ws[1..]);
      var sortedRest := SortWindows(ws[1..]);
      forall x | x in sortedRest
        ensures Disjoint(ws[0], x)
      {
        var k :| 0 <= k < |ws[1..]| && ws[1..][k] == x;
        assert ws[k + 1] == x;
      }
      InsertKeepsDisjoint(ws[0], sortedRest);
    }
  }

  // ---------------------------------------------------------------------
  // Greedy non-overlap pass (lines 72-81)
  // ---------------------------------------------------------------------

  /** Keep a window only if it starts at or after the end of the last kept
      one, until `room` windows are kept. */
  function Greedy(ws: seq<Window>, lastEnd: real, room: nat): seq<Window>
  {
    if ws == [] || room == 0 then []
    else if ws[0].start >= lastEnd then [ws[0]] + Greedy(ws[1..], ws[0].end, room - 1)
    else Greedy(ws[1..], lastEnd, room)
  }

  /** The greedy pass keeps at most `room` windows, all drawn from its input,
      the first starting at or after `lastEnd` and each ending no later than
      the next starts; it keeps the first window when that one qualifies. */
  lemma {:induction false} GreedySpec(ws: seq<Window>, lastEnd: real, room: nat)
    ensures var g := Greedy(ws, lastEnd, room);
      && |g| <= room
      && (forall w | w in g :: w in ws)
      && (|g| > 0 ==> g[0].start >= lastEnd)
      && Chained(g)
      && (ws != [] && room > 0 && ws[0].start >= lastEnd ==> |g| > 0 && g[0] == ws[0])
  {
    if ws != [] && room > 0 {
      if ws[0].start >= lastEnd {
        GreedySpec(ws[1..], ws[0].end, room - 1);
      } else {
        GreedySpec(ws[1..], lastEnd, room);
      }
    }
  }

  method RemoveOverlaps(sorted: seq<Window>, clipCount: nat) returns (kept: seq<Window>)
    requires clipCount >= 1
    ensures kept == Greedy(sorted, -1.0, clipCount)
  {
    kept := [];
    var lastEnd := -1.0;
    var i := 0;
    while i < |sorted|
      invariant 0 <= i <= |sorted|
      invariant |kept| < clipCount
      invariant kept + Greedy(sorted[i..], lastEnd, clipCount - |kept|) == Greedy(sorted, -1.0, clipCount)
    {
      var w := sorted[i];
      assert sorted[i..][1..] == sorted[i + 1..];
      if w.start >= lastEnd {
        kept := kept + [w];
        lastEnd := w.end;
        if |kept| >= clipCount {
          break;
        }
      }
      i := i + 1;
    }
  }

  /** Windows that are chained and non-empty are pairwise disjoint. */
  lemma ChainedDisjoint(ws: seq<Window>)
    requires Chained(ws)
    requires forall w | w in ws :: w.start < w.end
    ensures PairwiseDisjoint(ws)
  {
    forall i, j | 0 <= i < j < |ws|
      ensures ws[i].end <= ws[j].start
    {
      ChainedStep(ws, i, j);
    }
  }

  lemma {:induction false} ChainedStep(ws: seq<Window>, i: nat, j: nat)
    requires Chained(ws)
    requires forall w | w in ws :: w.start < w.end
    requires i < j < |ws|
    ensures ws[i].end <= ws[j].start
  {
    if j > i + 1 {
      ChainedStep(ws, i, j - 1);
      assert ws[j - 1] in ws;
    }
  }

  // ---------------------------------------------------------------------
  // Evenly spaced fallback (lines 83-104)
  // ---------------------------------------------------------------------

  /** `step = (audio_duration - clip_duration) / (needed + 1)`: the spacing
      of `needed` fallback windows. */
  function FallbackStep(total: real, d: real, needed: nat): real
  {
    (total - d) / (needed + 1) as real
  }

  /** The `i`-th (0-based) fallback window: starts at `step * (i + 1)`,
      clamped into [0, total]. */
  function FallbackWindow(i: nat, step: real, d: real, total: real): Window
  {
    var fs := step * (i + 1) as real;
    Window(MaxR(0.0, fs), MinR(fs + d, total))
  }

  /** The `any(...)` test of lines 98-101. */
  predicate OverlapsAny(ws: seq<Window>, w: Window)
  {
    exists k | 0 <= k < |ws| :: !Disjoint(w, ws[k])
  }

  /** Fallback windows `i .. needed-1` appended to `acc`, each skipped when
      shorter than 0.5 s or overlapping any window kept so far. */
  function Fill(acc: seq<Window>, i: nat, needed: nat, step: real, d: real, total: real): seq<Window>
    decreases needed - i
  {
    if i >= needed then acc
    else
      var w := FallbackWindow(i, step, d, total);
      var next := if w.end - w.start < MIN_LENGTH || OverlapsAny(acc, w) then acc else acc + [w];
      Fill(next, i + 1, needed, step, d, total)
  }

  /** The fallback keeps what was kept, adds at most one window per step, and
      keeps every window in bounds and every pair disjoint, earlier fallback
      windows included. */
  lemma {:induction false} FillSpec(acc: seq<Window>, i: nat, needed: nat, step: real, d: real, total: real)
    requires AllInBounds(acc, total) && PairwiseDisjoint(acc)
    ensures var f := Fill(acc, i, needed, step, d, total);
      && |acc| <= |f| && f[..|acc|] == acc
      && |f| <= |acc| + (if i <= needed then needed - i else 0)
      && AllInBounds(f, total) && PairwiseDisjoint(f)
    decreases needed - i
  {
    if i < needed {
      var w := FallbackWindow(i, step, d, total);
      if w.end - w.start < MIN_LENGTH || OverlapsAny(acc, w) {
        FillSpec(acc, i + 1, needed, step, d, total);
      } else {
        var next := acc + [w];
        assert InBounds(w, total);
        assert PairwiseDisjoint(next) by {
          forall a, b | 0 <= a < |next| && 0 <= b < |next| && a != b
            ensures Disjoint(next[a], next[b])
          {
            if a == |acc| {
              assert !(!Disjoint(w, acc[b]));
            } else if b == |acc| {
              assert !(!Disjoint(w, acc[a]));
            }
          }
        }
        FillSpec(next, i + 1, needed, step, d, total);
        var f := Fill(next, i + 1, needed, step, d, total);
        assert f[..|acc|] == f[..|next|][..|acc|];
      }
    }
  }

  /** The fallback adds nothing but fallback windows `i .. needed-1`. */
  lemma {:induction false} FillFrom(acc: seq<Window>, i: nat, needed: nat, step: real, d: real, total: real)
    ensures forall w | w in Fill(acc, i, needed, step, d, total) ::
      w in acc || exists j: nat | i <= j < needed :: w == FallbackWindow(j, step, d, total)
    decreases needed - i
  {
    if i < needed {
      var w := FallbackWindow(i, step, d, total);
      var next := if w.end - w.start < MIN_LENGTH || OverlapsAny(acc, w) then acc else acc + [w];
      FillFrom(next, i + 1, needed, step, d, total);
    }
  }

  method FillEvenly(kept: seq<Window>, clipCount: nat, d: real, total: real) returns (out: seq<Window>)
    requires |kept| < clipCount
    ensures var needed := clipCount - |kept|;
      out == Fill(kept, 0, needed, FallbackStep(total, d, needed), d, total)
  {
    var needed := clipCount - |kept|;
    var step := FallbackStep(total, d, needed);
    out := kept;
    var i := 0;
    while i < needed
      invariant 0 <= i <= needed
      invariant Fill(out, i, needed, step, d, total) == Fill(kept, 0, needed, step, d, total)
    {
      var w := FallbackWindow(i, step, d, total);
      if w.end - w.start >= MIN_LENGTH && !OverlapsAny(out, w) {
        out := out + [w];
      }
      i := i + 1;
    }
  }

  // ---------------------------------------------------------------------
  // Final clamp (lines 106-112)
  // ---------------------------------------------------------------------

  function Clamp(w: Window, total: real): Window
  {
    Window(MaxR(0.0, w.start), MinR(total, w.end))
  }

  /** Each window clamped into [0, total]; the empty ones dropped. */
  function Clean(ws: seq<Window>, total: real): seq<Window>
  {
    if ws == [] then []
    else
      var c := Clamp(ws[0], total);
      (if c.end > c.start then [c] else []) + Clean(ws[1..], total)
  }

  /** The clamp yields only windows inside [0, total], never more windows
      than it was given, and leaves windows already inside untouched. */
  lemma {:induction false} CleanSpec(ws: seq<Window>, total: real)
    ensures AllInBounds(Clean(ws, total), total)
    ensures |Clean(ws, total)| <= |ws|
    ensures AllInBounds(ws, total) ==> Clean(ws, total) == ws
  {
    if ws != [] {
      CleanSpec(ws[1..], total);
      if AllInBounds(ws, total) {
        assert ws[0] in ws;
        assert forall w | w in ws[1..] :: w in ws;
        assert ws == [ws[0]] + ws[1..];
      }
    }
  }

  method CleanWindows(ws: seq<Window>, total: real) returns (cleaned: seq<Window>)
    ensures cleaned == Clean(ws, total)
  {
    cleaned := [];
    var i := 0;
    while i < |ws|
      invariant 0 <= i <= |ws|
      invariant cleaned + Clean(ws[i..], total) == Clean(ws, total)
    {
      assert ws[i..][1..] == ws[i + 1..];
      var start := MaxR(0.0, ws[i].start);
      var end := MinR(total, ws[i].end);
      if end > start {
        cleaned := cleaned + [Window(start, end)];
      }
      i := i + 1;
    }
  }

  /** Sorted windows that are pairwise disjoint are chained: each ends no
      later than the next starts. */
  lemma SortedDisjointChained(ws: seq<Window>)
    requires Sorted(ws) && PairwiseDisjoint(ws)
    requires forall w | w in ws :: w.start < w.end
    ensures Chained(ws)
  {
    forall i | 0 <= i < |ws| - 1
      ensures ws[i].end <= ws[i + 1].start
    {
      assert Disjoint(ws[i], ws[i + 1]) && LexLe(ws[i], ws[i + 1]);
      assert ws[i + 1] in ws;
    }
  }

  lemma PrefixKeeps(ws: seq<Window>, n: nat, total: real)
    requires n <= |ws|
    requires Sorted(ws) && Chained(ws) && AllInBounds(ws, total)
    ensures Sorted(ws[..n]) && Chained(ws[..n]) && AllInBounds(ws[..n], total)
  {
    assert forall w | w in ws[..n] :: w in ws;
  }

  /** When the audio is longer than one clip, the greedy pass over the sorted
      candidates keeps between 1 and `k` windows, in bounds and disjoint. */
  lemma GreedyOverCandidates(topTimes: seq<real>, d: real, k: nat, total: real)
    requires total > d >= 1.0 && k >= 1 && |topTimes| >= 1
    ensures var g := Greedy(SortWindows(Candidates(topTimes, d, total)), -1.0, k);
      1 <= |g| <= k && AllInBounds(g, total) && PairwiseDisjoint(g)
  {
    var raw := Candidates(topTimes, d, total);
    CandidatesSound(topTimes, d, total);
    var ordered := SortWindows(raw);
    assert ordered[0] in ordered;
    GreedySpec(ordered, -1.0, k);
    var g := Greedy(ordered, -1.0, k);
    ChainedDisjoint(g);
  }

  // ---------------------------------------------------------------------
  // The selector (lines 5-114)
  // ---------------------------------------------------------------------

  /** Lines 55-104: the greedy pass over the sorted candidate windows of the
      chosen times, topped up with fallback windows when it keeps fewer than
      `k`. */
  function Shortlist(topTimes: seq<real>, d: real, k: nat, total: real): seq<Window>
    requires d >= 0.0
  {
    var kept := Greedy(SortWindows(Candidates(topTimes, d, total)), -1.0, k);
    if |kept| < k then Fill(kept, 0, k - |kept|, FallbackStep(total, d, k - |kept|), d, total)
    else kept
  }

  /** Lines 106-114: clamp, drop the empty windows, sort, keep the first `k`. */
  function Finish(ws: seq<Window>, k: nat, total: real): seq<Window>
  {
    var r := SortWindows(Clean(ws, total));
    r[..Min(k, |r|)]
  }

  /** Lines 51-114 once the positions `m` marks are chosen. */
  function SelectionWith(times: seq<real>, m: seq<bool>, d: real, k: nat, total: real): seq<Window>
    requires |m| == |times| && d >= 0.0
  {
    Finish(Shortlist(Select(times, m), d, k, total), k, total)
  }

  /** Lines 43-114: the windows chosen from the energies at `times`, with
      the top `min(3k, n)` positions of the normalised energies as
      candidates. */
  function Selection(times: seq<real>, energies: seq<real>, d: real, k: nat, total: real): seq<Window>
    requires |times| == |energies| && d >= 0.0
  {
    SelectionWith(times, TopMask(Normalize(energies), Min(k * 3, |energies|)), d, k, total)
  }

  /** Lines 55-104 over at least one chosen time, when the audio is longer
      than one clip: between 1 and `k` windows, inside [0, total], pairwise
      disjoint. */
  lemma ShortlistSpec(topTimes: seq<real>, d: real, k: nat, total: real)
    requires total > d >= 1.0 && k >= 1 && |topTimes| >= 1
    ensures var short := Shortlist(topTimes, d, k, total);
      1 <= |short| <= k && AllInBounds(short, total) && PairwiseDisjoint(short)
  {
    GreedyOverCandidates(topTimes, d, k, total);
    var kept := Greedy(SortWindows(Candidates(topTimes, d, total)), -1.0, k);
    if |kept| < k {
      var needed := k - |kept|;
      var step := FallbackStep(total, d, needed);
      FillSpec(kept, 0, needed, step, d, total);
      assert Shortlist(topTimes, d, k, total) == Fill(kept, 0, needed, step, d, total);
    } else {
      assert Shortlist(topTimes, d, k, total) == kept;
    }
  }

  /** Lines 106-114 on windows already inside [0, total] and pairwise
      disjoint: none is dropped by the clamp, and the first `k` in sorted
      order are chained. */
  lemma FinishSpec(ws: seq<Window>, k: nat, total: real)
    requires 1 <= |ws| && k >= 1 && AllInBounds(ws, total) && PairwiseDisjoint(ws)
    ensures var clips := Finish(ws, k, total);
      && 1 <= |clips| <= k
      && AllInBounds(clips, total)
      && Sorted(clips)
      && Chained(clips)
  {
    CleanSpec(ws, total);
    var result := SortWindows(ws);
    SortKeepsDisjoint(ws);
    forall w | w in result
      ensures w.start < w.end
    {
      assert w in ws;
    }
    SortedDisjointChained(result);
    PrefixKeeps(result, Min(k, |result|), total);
  }

  /** Whichever top positions are chosen, when the audio is longer than one
      clip the selection is between 1 and `k` windows, sorted, inside
      [0, total], consecutive ones not overlapping. */
  lemma SelectionWithSpec(times: seq<real>, energies: seq<real>, m: seq<bool>, d: real, k: nat, total: real)
    requires |times| == |energies| >= 1
    requires total > d >= 1.0 && k >= 1
    requires IsTopMask(Normalize(energies), Min(k * 3, |energies|), m)
    ensures var clips := SelectionWith(times, m, d, k, total);
      && 1 <= |clips| <= k
      && AllInBounds(clips, total)
      && Sorted(clips)
      && Chained(clips)
  {
    var topTimes := Select(times, m);
    ShortlistSpec(topTimes, d, k, total);
    FinishSpec(Shortlist(topTimes, d, k, total), k, total);
  }

  /** `w` is the candidate window of one of the times `ts`. */
  ghost predicate IsCandidate(w: Window, ts: seq<real>, d: real, total: real)
    requires d >= 0.0
  {
    exists t | t in ts :: w == CandidateWindow(t, d, total)
  }

  /** `w` is one of the first `n` fallback windows spaced `step` apart. */
  ghost predicate IsFallback(w: Window, n: nat, step: real, d: real, total: real)
  {
    exists j: nat | j < n :: w == FallbackWindow(j, step, d, total)
  }

  /** `w` is a fallback window of the shortlist over `topTimes`: the greedy
      pass kept `g < k` windows and `w` is one of the `k - g` fallback
      windows spaced `(total - d) / (k - g + 1)` apart. */
  ghost predicate FromFallback(w: Window, topTimes: seq<real>, d: real, k: nat, total: real)
    requires d >= 0.0
  {
    var g := |Greedy(SortWindows(Candidates(topTimes, d, total)), -1.0, k)|;
    g < k && IsFallback(w, k - g, FallbackStep(total, d, k - g), d, total)
  }

  /** The greedy pass keeps only candidate windows of the given times. */
  lemma GreedyFrom(topTimes: seq<real>, d: real, k: nat, total: real)
    requires d >= 0.0
    ensures forall w | w in Greedy(SortWindows(Candidates(topTimes, d, total)), -1.0, k) ::
      IsCandidate(w, topTimes, d, total)
  {
    var raw := Candidates(topTimes, d, total);
    CandidatesFrom(topTimes, d, total);
    var ordered := SortWindows(raw);
    GreedySpec(ordered, -1.0, k);
    forall w | w in Greedy(ordered, -1.0, k)
      ensures IsCandidate(w, topTimes, d, total)
    {
      assert w in ordered && w in raw;
    }
  }

  /** Each shortlisted window is the candidate window of a chosen time or a
      fallback window. */
  lemma ShortlistFrom(topTimes: seq<real>, d: real, k: nat, total: real)
    requires d >= 0.0
    ensures forall w | w in Shortlist(topTimes, d, k, total) ::
      IsCandidate(w, topTimes, d, total) || FromFallback(w, topTimes, d, k, total)
  {
    GreedyFrom(topTimes, d, k, total);
    var kept := Greedy(SortWindows(Candidates(topTimes, d, total)), -1.0, k);
    var g := |kept|;
    if g < k {
      var step := FallbackStep(total, d, k - g);
      FillFrom(kept, 0, k - g, step, d, total);
      var filled := Fill(kept, 0, k - g, step, d, total);
      assert Shortlist(topTimes, d, k, total) == filled;
      forall w | w in filled && w !in kept
        ensures FromFallback(w, topTimes, d, k, total)
      {
        assert IsFallback(w, k - g, step, d, total);
      }
    } else {
      assert Shortlist(topTimes, d, k, total) == kept;
    }
  }

  /** The final clamp, sort and cut of windows already inside [0, total]
      keep only windows they were given. */
  lemma FinishFrom(ws: seq<Window>, k: nat, total: real)
    requires AllInBounds(ws, total)
    ensures forall w | w in Finish(ws, k, total) :: w in ws
  {
    CleanSpec(ws, total);
    var r := SortWindows(ws);
    assert forall w | w in r[..Min(k, |r|)] :: w in r;
  }

  /** `w` is the candidate window of a chosen position whose raw energy is
      at least that of every position not chosen. */
  ghost predicate FromTopPosition(w: Window, times: seq<real>, energies: seq<real>, m: seq<bool>, d: real, total: real)
    requires |m| == |times| == |energies| && d >= 0.0
  {
    exists i | 0 <= i < |times| && m[i] ::
      && w == CandidateWindow(times[i], d, total)
      && forall j | 0 <= j < |energies| && !m[j] :: energies[j] <= energies[i]
  }

  /** The candidate window of a selected time comes from a top position. */
  lemma CandidateFromTop(times: seq<real>, energies: seq<real>, m: seq<bool>, n: nat, w: Window, d: real, total: real)
    requires |times| == |energies| && d >= 0.0
    requires IsTopMask(Normalize(energies), n, m)
    requires IsCandidate(w, Select(times, m), d, total)
    ensures FromTopPosition(w, times, energies, m, d, total)
  {
    SelectChosen(times, m);
    NormalizePreservesOrder(energies);
    var e := Normalize(energies);
    var t :| t in Select(times, m) && w == CandidateWindow(t, d, total);
    var i :| 0 <= i < |times| && m[i] && times[i] == t;
    forall j | 0 <= j < |energies| && !m[j]
      ensures energies[j] <= energies[i]
    {
      assert e[j] <= e[i];
    }
  }

  /** Where the windows come from: when the audio is longer than one clip,
      every selected window is the candidate window of a chosen position,
      whose raw energy is at least that of every position not chosen, unless
      the greedy pass fell short and it is one of the evenly spaced fallback
      windows. */
  lemma SelectionFromEnergies(times: seq<real>, energies: seq<real>, m: seq<bool>, d: real, k: nat, total: real)
    requires |times| == |energies| >= 1
    requires total > d >= 1.0 && k >= 1
    requires IsTopMask(Normalize(energies), Min(k * 3, |energies|), m)
    ensures forall w | w in SelectionWith(times, m, d, k, total) ::
      FromTopPosition(w, times, energies, m, d, total) || FromFallback(w, Select(times, m), d, k, total)
  {
    var topTimes := Select(times, m);
    var short := Shortlist(topTimes, d, k, total);
    ShortlistSpec(topTimes, d, k, total);
    ShortlistFrom(topTimes, d, k, total);
    FinishFrom(short, k, total);
    assert SelectionWith(times, m, d, k, total) == Finish(short, k, total);
    forall w | w in Finish(short, k, total) && IsCandidate(w, topTimes, d, total)
      ensures FromTopPosition(w, times, energies, m, d, total)
    {
      CandidateFromTop(times, energies, m, Min(k * 3, |energies|), w, d, total);
    }
  }

  /** Lines 40-114: from the energies of at least one position to the final
      windows, exactly as `Selection` gives them: between 1 and `k` of
      them, sorted, inside [0, total], and consecutive ones not
      overlapping. */
  method SelectWindows(times: seq<real>, energies: seq<real>, d: real, k: nat, total: real)
    returns (clips: seq<Window>)
    requires |times| == |energies| >= 1
    requires total > d >= 1.0 && k >= 1
    ensures clips == Selection(times, energies, d, k, total)
    ensures 1 <= |clips| <= k
    ensures forall w | w in clips :: InBounds(w, total)
    ensures Sorted(clips)
    ensures forall i | 0 <= i < |clips| - 1 :: clips[i].end <= clips[i + 1].start
  {
    var norm := Normalize(energies);
    var needed := Min(k * 3, |norm|);
    var chosen := TopMask(norm, needed);
    var topTimes := Select(times, chosen);

    var raw := BuildCandidates(topTimes, d, total);
    var kept := RemoveOverlaps(SortWindows(raw), k);
    if |kept| < k {
      kept := FillEvenly(kept, k, d, total);
    }
    assert kept == Shortlist(topTimes, d, k, total);

    var cleaned := CleanWindows(kept, total);
    var result := SortWindows(cleaned);
    clips := result[..Min(k, |result|)];
    SelectionWithSpec(times, energies, chosen, d, k, total);
  }

  /** `detect_highlights` on the audio whose slice energy at time `t` is
      `rms(t)`: the single window (0, total) when the audio is no longer than
      one clip, otherwise the selection over all scan positions. */
  function Detect(rms: real -> real, total: real, clipDuration: int, clipCount: int): seq<Window>
  {
    var d := ClampDuration(clipDuration);
    var k := ClampCount(clipCount);
    if total <= d then [Window(0.0, total)]
    else
      var times := Positions(total);
      if |times| == 0 then [Window(0.0, MinR(d, total))]
      else Selection(times, Energies(rms, times), d, k, total)
  }

  /** Whatever the energies: at most `max(1, clipCount)` windows, sorted,
      consecutive ones not overlapping; the single window (0, total) when
      the audio is no longer than one clip, and otherwise at least one
      window, each inside [0, total]. */
  lemma DetectSpec(rms: real -> real, total: real, clipDuration: int, clipCount: int)
    ensures var clips := Detect(rms, total, clipDuration, clipCount);
      && (total <= ClampDuration(clipDuration) ==> clips == [Window(0.0, total)])
      && (total > ClampDuration(clipDuration) ==> 1 <= |clips| && AllInBounds(clips, total))
      && |clips| <= ClampCount(clipCount)
      && Sorted(clips)
      && Chained(clips)
  {
    var d := ClampDuration(clipDuration);
    var k := ClampCount(clipCount);
    if total > d {
      var times := Positions(total);
      AnalysisAlwaysRuns(total, d);
      var energies := Energies(rms, times);
      var m := TopMask(Normalize(energies), Min(k * 3, |energies|));
      SelectionWithSpec(times, energies, m, d, k, total);
    }
  }

  /** When the audio is longer than one clip, every detected window is
      centred (as far as the bounds allow) on a scan position among the top
      `min(3k, n)` by energy, unless it is one of the evenly spaced fallback
      windows. */
  lemma DetectFromEnergies(rms: real -> real, total: real, clipDuration: int, clipCount: int)
    requires total > ClampDuration(clipDuration)
    ensures var d, k := ClampDuration(clipDuration), ClampCount(clipCount);
      var times := Positions(total);
      var energies := Energies(rms, times);
      var m := TopMask(Normalize(energies), Min(k * 3, |energies|));
      forall w | w in Detect(rms, total, clipDuration, clipCount) ::
        FromTopPosition(w, times, energies, m, d, total) || FromFallback(w, Select(times, m), d, k, total)
  {
    var d, k := ClampDuration(clipDuration), ClampCount(clipCount);
    var times := Positions(total);
    AnalysisAlwaysRuns(total, d);
    var energies := Energies(rms, times);
    var m := TopMask(Normalize(energies), Min(k * 3, |energies|));
    assert Detect(rms, total, clipDuration, clipCount) == SelectionWith(times, m, d, k, total);
    SelectionFromEnergies(times, energies, m, d, k, total);
  }

  /** `detect_highlights`: the windows `Detect` gives; at most
      `max(1, clipCount)` of them, sorted, each inside [0, total],
      consecutive ones not overlapping; the single window (0, total) when the
      audio is no longer than one clip, and at least one window otherwise. */
  method DetectHighlights(rms: real -> real, total: real, clipDuration: int, clipCount: int)
    returns (clips: seq<Window>)
    ensures clips == Detect(rms, total, clipDuration, clipCount)
    ensures total <= ClampDuration(clipDuration) ==> clips == [Window(0.0, total)]
    ensures total > ClampDuration(clipDuration) ==>
      1 <= |clips| && forall w | w in clips :: InBounds(w, total)
    ensures |clips| <= ClampCount(clipCount)
    ensures Sorted(clips)
    ensures forall i | 0 <= i < |clips| - 1 :: clips[i].end <= clips[i + 1].start
  {
    var d := ClampDuration(clipDuration);
    var k := ClampCount(clipCount);
    if total <= d {
      return [Window(0.0, total)];
    }

    var times, energies := ScanPositions(total, rms);
    if |energies| == 0 {
      return [Window(0.0, MinR(d, total))];
    }
    clips := SelectWindows(times, energies, d, k, total);
  }
}
