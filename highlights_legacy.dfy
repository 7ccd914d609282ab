/** The older selector of scripts/highlights_audio.py.  It shares the
    sliding-window scan with app/services/highlights.py but promises less:
    no guards on its inputs, windows truncated at the end of the audio
    rather than shifted, no overlap removal, and a fallback whose first
    window starts at 0. */
module LegacyHighlights {
  import opened Common
  import opened Highlights

  /** Added to the normaliser's denominator (line 46). */
  const EPSILON: real := 0.00000001
  /** A peak must exceed the mean energy by this factor (line 45). */
  const PEAK_FACTOR: real := 1.05

  function Sum(e: seq<real>): real
  {
    if e == [] then 0.0 else e[0] + Sum(e[1..])
  }

  function Mean(e: seq<real>): real
    requires |e| > 0
  {
    Sum(e) / |e| as real
  }

  /** The test of line 45 that selects the energy path. */
  predicate HasPeak(e: seq<real>)
  {
    |e| > 0 && SeqMax(e) > Mean(e) * PEAK_FACTOR
  }

  /** One energy rescaled: `(x - lo) / (hi - lo + 1e-8)`. */
  function Rescale(x: real, lo: real, hi: real): real
    requires lo <= hi
  {
    (x - lo) / (hi - lo + EPSILON)
  }

  /** `(e - min) / (max - min + 1e-8)` */
  function LegacyNormalize(e: seq<real>): (r: seq<real>)
    ensures |r| == |e|
  {
    if e == [] then []
    else
      var lo, hi := SeqMin(e), SeqMax(e);
      assert lo <= e[0] <= hi;
      seq(|e|, i requires 0 <= i < |e| => Rescale(e[i], lo, hi))
  }

  lemma RescaleMonotone(a: real, b: real, lo: real, hi: real)
    requires lo <= hi
    ensures a <= b <==> Rescale(a, lo, hi) <= Rescale(b, lo, hi)
  {
    DivMonotone(a - lo, b - lo, hi - lo + EPSILON);
  }

  lemma LegacyRank(e: seq<real>, i: nat, j: nat)
    requires i < |e| && j < |e|
    ensures e[i] <= e[j] <==> LegacyNormalize(e)[i] <= LegacyNormalize(e)[j]
  {
    var lo, hi := SeqMin(e), SeqMax(e);
    assert lo <= e[0] <= hi;
    assert LegacyNormalize(e)[i] == Rescale(e[i], lo, hi);
    assert LegacyNormalize(e)[j] == Rescale(e[j], lo, hi);
    RescaleMonotone(e[i], e[j], lo, hi);
  }

  /** The epsilon-guarded normalisation ranks positions as the raw energies do. */
  lemma LegacyNormalizePreservesOrder(e: seq<real>)
    ensures forall i, j | 0 <= i < |e| && 0 <= j < |e| ::
      e[i] <= e[j] <==> LegacyNormalize(e)[i] <= LegacyNormalize(e)[j]
  {
    forall i, j | 0 <= i < |e| && 0 <= j < |e|
      ensures e[i] <= e[j] <==> LegacyNormalize(e)[i] <= LegacyNormalize(e)[j]
    {
      LegacyRank(e, i, j);
    }
  }

  /** How many positions `np.argsort(norm)[-clip_count:]` keeps: all of them
      when `clip_count` is 0, since `[-0:]` is the whole array. */
  function TopCount(clipCount: nat, n: nat): (c: nat)
    ensures c <= n
    ensures clipCount >= 1 ==> c == Min(clipCount, n)
    ensures clipCount == 0 ==> c == n
  {
    if clipCount == 0 then n else Min(clipCount, n)
  }

  /** Lines 51-52: centred on `t`, moved right to start at 0 if needed, and
      cut short at `duration` (never moved left). */
  function EnergyWindow(t: real, clipDuration: int, duration: real): Window
  {
    var start := MaxR(0.0, t - clipDuration as real / 2.0);
    Window(start, MinR(start + clipDuration as real, duration))
  }

  function EnergyWindows(ts: seq<real>, clipDuration: int, duration: real): (ws: seq<Window>)
    ensures |ws| == |ts|
    ensures forall i | 0 <= i < |ts| :: ws[i] == EnergyWindow(ts[i], clipDuration, duration)
  {
    if ts == [] then [] else [EnergyWindow(ts[0], clipDuration, duration)] + EnergyWindows(ts[1..], clipDuration, duration)
  }

  /** Lines 60-61: the `i`-th fallback window starts at `i * step`. */
  function LegacyFallbackWindow(i: nat, step: real, clipDuration: int, duration: real): Window
  {
    var s := i as real * step;
    Window(s, MinR(s + clipDuration as real, duration))
  }

  function FallbackWindows(n: nat, step: real, clipDuration: int, duration: real): (ws: seq<Window>)
    ensures |ws| == n
    ensures forall i | 0 <= i < n :: ws[i] == LegacyFallbackWindow(i, step, clipDuration, duration)
  {
    seq(n, i requires 0 <= i < n => LegacyFallbackWindow(i, step, clipDuration, duration))
  }

  /** The windows of the energy path, before the final truncation. */
  function EnergyPath(times: seq<real>, energies: seq<real>, clipDuration: int, clipCount: nat, duration: real): seq<Window>
    requires |times| == |energies|
  {
    var norm := LegacyNormalize(energies);
    var chosen := TopMask(norm, TopCount(clipCount, |norm|));
    EnergyWindows(Select(times, chosen), clipDuration, duration)
  }

  /** What the legacy selector returns for the given scan. */
  function Legacy(times: seq<real>, energies: seq<real>, clipDuration: int, clipCount: nat, duration: real): seq<Window>
    requires |times| == |energies|
  {
    var found := if HasPeak(energies) then EnergyPath(times, energies, clipDuration, clipCount, duration) else [];
    var all := if found == [] then FallbackWindows(clipCount, duration / (clipCount + 1) as real, clipDuration, duration) else found;
    all[..Min(clipCount, |all|)]
  }

  /** The result never has more than `clipCount` windows. */
  lemma LegacyAtMostCount(times: seq<real>, energies: seq<real>, clipDuration: int, clipCount: nat, duration: real)
    requires |times| == |energies|
    ensures |Legacy(times, energies, clipDuration, clipCount, duration)| <= clipCount
  {
  }

  /** When the peak test passes, the result is `min(clipCount, n)` windows, one
      per top-energy position in time order: every position taken has
      energy at least that of every position left out, and each window
      starts half a clip before its position (or at 0) and ends a clip
      later or at `duration`, whichever comes first. */
  lemma LegacyEnergyPath(times: seq<real>, energies: seq<real>, clipDuration: int, clipCount: nat, duration: real)
    requires |times| == |energies|
    requires HasPeak(energies)
    ensures var chosen := TopMask(LegacyNormalize(energies), TopCount(clipCount, |energies|));
      && |Legacy(times, energies, clipDuration, clipCount, duration)| == Min(clipCount, |energies|)
      && (forall i, j | 0 <= i < |energies| && 0 <= j < |energies| && chosen[i] && !chosen[j] :: energies[j] <= energies[i])
      && (forall i | 0 <= i < Min(clipCount, |energies|) ::
            Legacy(times, energies, clipDuration, clipCount, duration)[i] == EnergyWindow(Select(times, chosen)[i], clipDuration, duration))
  {
    var k := TopCount(clipCount, |energies|);
    var chosen := TopMask(LegacyNormalize(energies), k);
    LegacyTopChosen(energies, k);
    var found := EnergyPath(times, energies, clipDuration, clipCount, duration);
    assert found == EnergyWindows(Select(times, chosen), clipDuration, duration);
    assert |found| == k >= 1;
    assert Legacy(times, energies, clipDuration, clipCount, duration) == found[..Min(clipCount, k)];
  }

  /** The positions the top mask takes have raw energy at least that of
      every position it leaves. */
  lemma LegacyTopChosen(energies: seq<real>, k: nat)
    requires k <= |energies|
    ensures var chosen := TopMask(LegacyNormalize(energies), k);
      forall i, j | 0 <= i < |energies| && 0 <= j < |energies| && chosen[i] && !chosen[j] :: energies[j] <= energies[i]
  {
    LegacyNormalizePreservesOrder(energies);
  }

  /** Windows centred on increasing times come out in time order: their
      starts never decrease along the list. */
  lemma {:induction false} EnergyWindowsInTimeOrder(ts: seq<real>, clipDuration: int, duration: real)
    requires forall i, j | 0 <= i < j < |ts| :: ts[i] < ts[j]
    ensures var ws := EnergyWindows(ts, clipDuration, duration);
      forall i, j | 0 <= i < j < |ws| :: ws[i].start <= ws[j].start
  {
    var ws := EnergyWindows(ts, clipDuration, duration);
    forall i, j | 0 <= i < j < |ws|
      ensures ws[i].start <= ws[j].start
    {
      assert ws[i].start == MaxR(0.0, ts[i] - clipDuration as real / 2.0);
      assert ws[j].start == MaxR(0.0, ts[j] - clipDuration as real / 2.0);
    }
  }

  /** On the scan's own positions, the energy path lists its windows in time
      order (the positions `argsort` picks are re-sorted before use). */
  lemma LegacyEnergyPathInTimeOrder(rms: real -> real, duration: real, clipDuration: int, clipCount: nat)
    ensures var times := Positions(duration);
      var energies := Energies(rms, times);
      var r := Legacy(times, energies, clipDuration, clipCount, duration);
      HasPeak(energies) ==> forall i, j | 0 <= i < j < |r| :: r[i].start <= r[j].start
  {
    var times := Positions(duration);
    var energies := Energies(rms, times);
    if HasPeak(energies) {
      PositionsSpec(duration);
      var chosen := TopMask(LegacyNormalize(energies), TopCount(clipCount, |energies|));
      SelectIncreasing(times, chosen);
      EnergyWindowsInTimeOrder(Select(times, chosen), clipDuration, duration);
    }
  }

  /** When the peak test fails, the result is exactly `clipCount` evenly
      spaced windows, the `i`-th starting at `i * duration / (clipCount + 1)`:
      the first starts at 0. */
  lemma LegacyFallback(times: seq<real>, energies: seq<real>, clipDuration: int, clipCount: nat, duration: real)
    requires |times| == |energies|
    requires !HasPeak(energies)
    ensures var r := Legacy(times, energies, clipDuration, clipCount, duration);
      && |r| == clipCount
      && (forall i | 0 <= i < clipCount :: r[i].start == i as real * (duration / (clipCount + 1) as real))
      && (clipCount >= 1 ==> r[0].start == 0.0)
  {
  }

  /** The legacy fallback can return overlapping windows: 100 s of audio,
      40 s clips, 3 clips give (0, 40), (25, 65) and (50, 90). */
  lemma LegacyFallbackMayOverlap()
    ensures var ws := FallbackWindows(3, 100.0 / 4.0, 40, 100.0);
      ws[0] == Window(0.0, 40.0) && ws[1] == Window(25.0, 65.0) && !Disjoint(ws[0], ws[1])
  {
  }

  /** Near the end of the audio the legacy window is cut short where the
      current selector's is moved left: 100 s of audio, 20 s clips, a peak at
      95 s give (85, 100) here and (80, 100) there. */
  lemma LegacyTruncatesWhereCurrentShifts()
    ensures EnergyWindow(95.0, 20, 100.0) == Window(85.0, 100.0)
    ensures CandidateWindow(95.0, 20.0, 100.0) == Window(80.0, 100.0)
  {
  }

  method EnergyWindowsLoop(topTimes: seq<real>, clipDuration: int, duration: real) returns (highlights: seq<Window>)
    ensures highlights == EnergyWindows(topTimes, clipDuration, duration)
  {
    highlights := [];
    for i := 0 to |topTimes|
      invariant highlights == EnergyWindows(topTimes[..i], clipDuration, duration)
    {
      var t := topTimes[i];
      var start := MaxR(0.0, t - clipDuration as real / 2.0);
      var end := MinR(start + clipDuration as real, duration);
      highlights := highlights + [Window(start, end)];
    }
    assert topTimes[..|topTimes|] == topTimes;
  }

  method FallbackLoop(clipCount: nat, clipDuration: int, duration: real) returns (highlights: seq<Window>)
    ensures highlights == FallbackWindows(clipCount, duration / (clipCount + 1) as real, clipDuration, duration)
  {
    highlights := [];
    var step := duration / (clipCount + 1) as real;
    for i := 0 to clipCount
      invariant highlights == FallbackWindows(i, step, clipDuration, duration)
    {
      var s := i as real * step;
      var e := MinR(s + clipDuration as real, duration);
      assert Window(s, e) == LegacyFallbackWindow(i, step, clipDuration, duration);
      assert FallbackWindows(i + 1, step, clipDuration, duration)
        == FallbackWindows(i, step, clipDuration, duration) + [Window(s, e)];
      highlights := highlights + [Window(s, e)];
    }
  }

  /** The legacy `detect_highlights`, over the positions and energies of the
      shared scan. */
  method DetectHighlightsLegacy(rms: real -> real, duration: real, clipDuration: int, clipCount: nat)
    returns (highlights: seq<Window>)
    ensures var times := Positions(duration);
      highlights == Legacy(times, Energies(rms, times), clipDuration, clipCount, duration)
  {
    var times, energies := ScanPositions(duration, rms);
    highlights := [];
    if |energies| > 0 && SeqMax(energies) > Mean(energies) * PEAK_FACTOR {
      var norm := LegacyNormalize(energies);
      var chosen := TopMask(norm, TopCount(clipCount, |norm|));
      var topTimes := Select(times, chosen);
      highlights := EnergyWindowsLoop(topTimes, clipDuration, duration);
    }
    if highlights == [] {
      highlights := FallbackLoop(clipCount, clipDuration, duration);
    }
    highlights := highlights[..Min(clipCount, |highlights|)];
  }
}
