/**
 The acknowledged bitrate: bytes received per window, smoothed by a Bayesian estimate whose
 uncertainty grows with the distance of a sample from the current estimate.
 */
module AckedBitrate {
  import opened Prelude

  const SMALL_SAMPLE_THRESHOLD := 2000
  const SMALL_SAMPLE_UNCERTAINTY: real := 25.0
  const UNCERTAINTY: real := 10.0
  const ESTIMATE_FLOOR: real := 40000.0
  const VAR_GROWTH: real := 5.0
  const INITIAL_VAR: real := 50.0

  // Times and windows are microseconds, sizes bytes, estimates bits per second.
  type Window = n: int | 0 < n witness 1

  datatype Acked = Acked(
    initialWindow: Window, window: Window, estimate: Option<real>, estimateVar: real,
    sum: nat, currentWindow: nat, lastUpdate: Option<int>)

  function New(initialWindow: Window, window: Window): Acked {
    Acked(initialWindow, window, None, INITIAL_VAR, 0, 0, None)
  }

  ghost predicate Valid(a: Acked) {
    (a.estimate.Some? ==> a.estimate.value >= 0.0) && a.estimateVar >= 0.0
  }

  /** An empty byte sum means an empty window, so that every sample has bytes in it. */
  ghost predicate Filled(a: Acked) {
    a.sum == 0 ==> a.currentWindow == 0
  }

  datatype Sample = Sample(rate: real, isSmall: bool)

  lemma RateSign(bytes: nat, window: Window)
    ensures BitsPerSecond(bytes, window) >= 0.0 && (BitsPerSecond(bytes, window) > 0.0 <==> bytes > 0)
  {
    var x, d := bytes as real * 8.0 * 1000000.0, window as real;
    var q := x / d;
    assert q * d == x;
    MulSign(q, d);
  }

  // Takes in one packet; a sample comes out whenever a window has filled up.
  function UpdateWindow(a: Acked, at: int, size: nat, w: Window): (Acked, Option<Sample>) {
    if a.lastUpdate.Some? && at < a.lastUpdate.value then
      (a.(sum := 0, currentWindow := 0, lastUpdate := Some(at)), None)
    else
      var gap := if a.lastUpdate.None? then 0 else at - a.lastUpdate.value;
      var idle := a.lastUpdate.Some? && gap >= w;
      var sum := if idle then 0 else a.sum;
      var win := if idle then (a.currentWindow + gap) % w else a.currentWindow + gap;
      var a1 := a.(lastUpdate := Some(at));
      if win >= w then
        (a1.(sum := size, currentWindow := win - w), Some(Sample(BitsPerSecond(sum, w), sum < SMALL_SAMPLE_THRESHOLD)))
      else
        (a1.(sum := sum + size, currentWindow := win), None)
  }

  function Abs(x: real): real { if x < 0.0 then -x else x }

  function Ceil(x: real): (c: int)
    ensures x <= c as real < x + 1.0
  {
    -((-x).Floor)
  }

  function SampleVar(estimate: real, s: Sample): (v: real)
    requires estimate > 0.0
    ensures v >= 0.0
  {
    var scale := if s.isSmall && s.rate < estimate then SMALL_SAMPLE_UNCERTAINTY else UNCERTAINTY;
    var u := scale * Abs(estimate - s.rate) / estimate;
    u * u
  }

  // The mean of estimate and sample, each weighted by the variance of the other.
  function Blend(estimate: real, sample: real, sampleVar: real, predVar: real): (r: real)
    requires sampleVar >= 0.0 && predVar > 0.0
  {
    (sampleVar * estimate + predVar * sample) / (sampleVar + predVar)
  }

  function BlendVar(sampleVar: real, predVar: real): (r: real)
    requires sampleVar >= 0.0 && predVar > 0.0
    ensures 0.0 <= r <= sampleVar && r <= predVar
  {
    BlendVarBounds(sampleVar, predVar);
    (sampleVar * predVar) / (sampleVar + predVar)
  }

  lemma MulSign(a: real, d: real)
    requires d > 0.0
    ensures (a * d > 0.0 <==> a > 0.0) && (a * d < 0.0 <==> a < 0.0)
  {
  }

  lemma BlendVarBounds(s: real, p: real)
    requires s >= 0.0 && p > 0.0
    ensures 0.0 <= (s * p) / (s + p) <= s && (s * p) / (s + p) <= p
  {
    var d := s + p;
    var q := (s * p) / d;
    assert q * d == s * p && s * p >= 0.0;
    assert (q - s) * d == -(s * s) && s * s >= 0.0;
    assert (q - p) * d == -(p * p) && p * p >= 0.0;
    MulSign(q, d);
    MulSign(q - s, d);
    MulSign(q - p, d);
  }

  /** The blend lies between the two values it mixes. */
  lemma BlendBetween(e: real, x: real, s: real, p: real)
    requires s >= 0.0 && p > 0.0
    ensures Min(e, x) <= Blend(e, x, s, p) <= Max(e, x)
  {
    var d := s + p;
    var b := Blend(e, x, s, p);
    assert b * d == s * e + p * x;
    assert (b - e) * d == p * (x - e);
    assert (b - x) * d == s * (e - x);
    MulSign(x - e, p);
    MulSign(b - e, d);
    MulSign(b - x, d);
    if s > 0.0 {
      MulSign(e - x, s);
    }
  }

  function Smooth(a: Acked, s: Sample): Acked
    requires Valid(a) && a.estimate.Some? && a.estimate.value > 0.0
  {
    var e := a.estimate.value;
    var sampleVar, predVar := SampleVar(e, s), a.estimateVar + VAR_GROWTH;
    var blended := Max(Blend(e, s.rate, sampleVar, predVar), ESTIMATE_FLOOR);
    a.(estimate := Some(Ceil(blended) as real), estimateVar := BlendVar(sampleVar, predVar))
  }

  lemma {:induction false} WindowKeepsValid(a: Acked, at: int, size: nat, w: Window)
    requires Valid(a)
    ensures var (a1, s) := UpdateWindow(a, at, size, w);
            && Valid(a1) && a1.estimate == a.estimate && a1.estimateVar == a.estimateVar
            && (s.Some? ==> s.value.rate >= 0.0)
  {
    RateSign(a.sum, w);
    RateSign(0, w);
  }

  /** With a packet that has bytes, a window that fills up holds bytes, so that the sample is positive. */
  lemma {:induction false} WindowKeepsFilled(a: Acked, at: int, size: nat, w: Window)
    requires Filled(a) && size > 0
    ensures var (a1, s) := UpdateWindow(a, at, size, w); Filled(a1) && (s.Some? ==> s.value.rate > 0.0)
  {
    RateSign(a.sum, w);
  }

  // The window of the next packet: another one until there is an estimate.
  function WindowOf(a: Acked): Window {
    if a.estimate.None? then a.initialWindow else a.window
  }

  /** Takes in a packet. None where the code divides by zero, on a sample for an estimate of zero. */
  function Update(a: Acked, at: int, size: nat): (r: Option<Acked>)
    requires Valid(a)
    ensures r.Some? ==> Valid(r.value)
  {
    WindowKeepsValid(a, at, size, WindowOf(a));
    var (a1, s) := UpdateWindow(a, at, size, WindowOf(a));
    if s.None? then Some(a1)
    else if a1.estimate.None? then Some(a1.(estimate := Some(s.value.rate)))
    else if a1.estimate.value == 0.0 then None
    else Some(Smooth(a1, s.value))
  }

  /** A new estimate lies between the old one and the sample, or at the floor, rounded up. */
  ghost predicate Tracks(old': real, sample: real, new': real) {
    Max(Min(old', sample), ESTIMATE_FLOOR) <= new' < Max(Max(old', sample), ESTIMATE_FLOOR) + 1.0
  }

  lemma {:induction false} SmoothTracks(a: Acked, s: Sample)
    requires Valid(a) && a.estimate.Some? && a.estimate.value > 0.0
    ensures var a' := Smooth(a, s);
            && Tracks(a.estimate.value, s.rate, a'.estimate.value)
            && 0.0 <= a'.estimateVar <= a.estimateVar + VAR_GROWTH
  {
    var e := a.estimate.value;
    BlendBetween(e, s.rate, SampleVar(e, s), a.estimateVar + VAR_GROWTH);
  }

  lemma {:induction false} EstimateTracks(a: Acked, at: int, size: nat)
    requires Valid(a) && a.estimate.Some? && Update(a, at, size).Some?
    ensures var s, a' := UpdateWindow(a, at, size, a.window).1, Update(a, at, size).value;
            && a'.estimate.Some?
            && (s.None? ==> a'.estimate == a.estimate && a'.estimateVar == a.estimateVar)
            && (s.Some? ==> Tracks(a.estimate.value, s.value.rate, a'.estimate.value) &&
                            a'.estimateVar <= a.estimateVar + VAR_GROWTH)
  {
    WindowKeepsValid(a, at, size, a.window);
    var (a1, s) := UpdateWindow(a, at, size, a.window);
    if s.Some? {
      SmoothTracks(a1, s.value);
    }
  }

  // ---- Runs ----

  /** A run of packets: empty ones, backward times and long gaps included. */
  datatype Packet = Packet(at: int, size: nat)

  function Run(initialWindow: Window, window: Window, packets: seq<Packet>): (r: Option<Acked>)
    ensures r.Some? ==> Valid(r.value)
  {
    if packets == [] then Some(New(initialWindow, window)) else
      var n := |packets| - 1;
      var a := Run(initialWindow, window, packets[..n]);
      if a.None? then None else Update(a.value, packets[n].at, packets[n].size)
  }

  /** The windows alone: their state, and the samples that come out of them. */
  function Sampling(initialWindow: Window, window: Window, packets: seq<Packet>): (Acked, seq<Sample>) {
    if packets == [] then (New(initialWindow, window), []) else
      var n := |packets| - 1;
      SampleNext(Sampling(initialWindow, window, packets[..n]), packets[n], initialWindow, window)
  }

  function SampleNext(r: (Acked, seq<Sample>), p: Packet, initialWindow: Window, window: Window): (Acked, seq<Sample>) {
    var (b1, s) := UpdateWindow(r.0, p.at, p.size, if r.1 == [] then initialWindow else window);
    (b1, if s.None? then r.1 else r.1 + [s.value])
  }

  // The estimator seen through its samples.
  ghost predicate Follows(a: Acked, b: Acked, samples: seq<Sample>) {
    && a.(estimate := None, estimateVar := INITIAL_VAR) == b
    && (a.estimate.None? <==> samples == [])
    && (|samples| == 1 ==> a.estimate == Some(samples[0].rate))
    && (|samples| > 1 ==> a.estimate.value >= ESTIMATE_FLOOR)
  }

  lemma SameWindow(a: Acked, b: Acked, at: int, size: nat, w: Window)
    requires a.(estimate := None, estimateVar := INITIAL_VAR) == b
    ensures var (a1, s) := UpdateWindow(a, at, size, w); var (b1, s') := UpdateWindow(b, at, size, w);
            s == s' && a1.(estimate := None, estimateVar := INITIAL_VAR) == b1
  {
  }

  lemma {:induction false} UpdateFollows(a: Acked, b: Acked, samples: seq<Sample>, at: int, size: nat)
    requires Valid(a) && Follows(a, b, samples)
    ensures var (b1, s) := UpdateWindow(b, at, size, if samples == [] then a.initialWindow else a.window);
            var samples' := if s.None? then samples else samples + [s.value];
            var r := Update(a, at, size);
            && (r.None? <==> s.Some? && |samples| == 1 && samples[0].rate == 0.0)
            && (r.Some? ==> Follows(r.value, b1, samples'))
  {
    var w := if samples == [] then a.initialWindow else a.window;
    SameWindow(a, b, at, size, w);
    WindowKeepsValid(a, at, size, w);
    var (a1, s) := UpdateWindow(a, at, size, w);
    if s.Some? && samples != [] && a.estimate.value > 0.0 {
      SmoothTracks(a1, s.value);
    }
  }

  lemma {:induction false} SamplingKeepsWindows(initialWindow: Window, window: Window, packets: seq<Packet>)
    ensures var b := Sampling(initialWindow, window, packets).0; b.initialWindow == initialWindow && b.window == window
  {
    if packets != [] {
      SamplingKeepsWindows(initialWindow, window, packets[..|packets| - 1]);
    }
  }

  /**
   Over every run the estimator is defined exactly when no sample follows a first sample of zero
   bytes; it then goes with its samples, and after the second one never falls below the floor.
   */
  lemma {:induction false} RunDefinedIff(initialWindow: Window, window: Window, packets: seq<Packet>)
    ensures var (b, samples) := Sampling(initialWindow, window, packets);
            var r := Run(initialWindow, window, packets);
            && (r.Some? <==> |samples| <= 1 || samples[0].rate != 0.0)
            && (r.Some? ==> Follows(r.value, b, samples))
  {
    if packets != [] {
      var n := |packets| - 1;
      RunDefinedIff(initialWindow, window, packets[..n]);
      SamplingKeepsWindows(initialWindow, window, packets[..n]);
      var (b, samples) := Sampling(initialWindow, window, packets[..n]);
      var r := Run(initialWindow, window, packets[..n]);
      if r.Some? {
        UpdateFollows(r.value, b, samples, packets[n].at, packets[n].size);
      }
    }
  }

  /** If every packet has bytes, every sample is positive, also across backward times and gaps. */
  lemma {:induction false} SamplesArePositive(initialWindow: Window, window: Window, packets: seq<Packet>)
    requires forall i :: 0 <= i < |packets| ==> packets[i].size > 0
    ensures var (b, samples) := Sampling(initialWindow, window, packets);
            Filled(b) && forall i :: 0 <= i < |samples| ==> samples[i].rate > 0.0
  {
    if packets != [] {
      var n := |packets| - 1;
      SamplesArePositive(initialWindow, window, packets[..n]);
      var (b, samples) := Sampling(initialWindow, window, packets[..n]);
      WindowKeepsFilled(b, packets[n].at, packets[n].size, if samples == [] then initialWindow else window);
    }
  }

  /** So the estimator never divides by zero on packets that have bytes. */
  lemma {:induction false} RunIsDefined(initialWindow: Window, window: Window, packets: seq<Packet>)
    requires forall i :: 0 <= i < |packets| ==> packets[i].size > 0
    ensures Run(initialWindow, window, packets).Some?
  {
    SamplesArePositive(initialWindow, window, packets);
    RunDefinedIff(initialWindow, window, packets);
  }

  lemma SamplingSnoc(initialWindow: Window, window: Window, packets: seq<Packet>, p: Packet)
    ensures Sampling(initialWindow, window, packets + [p])
              == SampleNext(Sampling(initialWindow, window, packets), p, initialWindow, window)
  {
    assert (packets + [p])[..|packets|] == packets;
  }

  // The windows of ten microseconds after some empty packets.
  function Idle(currentWindow: nat, at: int): Acked {
    Acked(10, 10, None, INITIAL_VAR, 0, currentWindow, Some(at))
  }

  lemma IdleNext(currentWindow: nat, at: int, gap: nat, samples: seq<Sample>)
    requires gap < 10
    ensures SampleNext((Idle(currentWindow, at), samples), Packet(at + gap, 0), 10, 10) ==
              var win := currentWindow + gap;
              if win >= 10 then (Idle(win - 10, at + gap), samples + [Sample(0.0, true)])
              else (Idle(win, at + gap), samples)
  {
    RateSign(0, 10);
  }

  /** Without bytes it can happen: four empty packets at these times, with windows of ten. */
  lemma EmptyPacketsExample(packets: seq<Packet>)
    requires packets == [Packet(0, 0), Packet(9, 0), Packet(18, 0), Packet(26, 0)]
    ensures Run(10, 10, packets).None?
  {
    var zero := Sample(0.0, true);
    assert packets == [] + [packets[0]] + [packets[1]] + [packets[2]] + [packets[3]];
    SamplingSnoc(10, 10, [], packets[0]);
    SamplingSnoc(10, 10, [] + [packets[0]], packets[1]);
    SamplingSnoc(10, 10, [] + [packets[0]] + [packets[1]], packets[2]);
    SamplingSnoc(10, 10, [] + [packets[0]] + [packets[1]] + [packets[2]], packets[3]);
    assert SampleNext((New(10, 10), []), packets[0], 10, 10) == (Idle(0, 0), []);
    IdleNext(0, 0, 9, []);
    IdleNext(9, 9, 9, []);
    IdleNext(8, 18, 8, [] + [zero]);
    RunDefinedIff(10, 10, packets);
  }
}

/** The estimator as an object. */
module AckedBitrateEstimation {
  import opened Prelude
  import opened AckedBitrate
  import L = AckedWindows

  class AckedBitrateEstimator {
    const initialWindow: Window
    const window: Window
    var estimate: Option<real>
    var estimateVar: real
    var sum: nat
    var currentWindow: nat
    var lastUpdate: Option<int>

    function View(): Acked
      reads this
    {
      Acked(initialWindow, window, estimate, estimateVar, sum, currentWindow, lastUpdate)
    }

    constructor (initialWindow: Window, window: Window)
      ensures View() == New(initialWindow, window) && Valid(View())
    {
      this.initialWindow, this.window := initialWindow, window;
      estimate, estimateVar, sum, currentWindow, lastUpdate := None, INITIAL_VAR, 0, 0, None;
    }

    method UpdateWindow(at: int, size: nat, w: Window) returns (s: Option<Sample>)
      modifies `sum, `currentWindow, `lastUpdate
      ensures AckedBitrate.UpdateWindow(old(View()), at, size, w) == (View(), s)
    {
      if lastUpdate.Some? && at < lastUpdate.value {
        sum := 0;
        currentWindow := 0;
        lastUpdate := Some(at);
        return None;
      }
      if lastUpdate.Some? {
        var gap := at - lastUpdate.value;
        currentWindow := currentWindow + gap;
        if gap >= w {
          sum := 0;
          currentWindow := currentWindow % w;
        }
      }
      lastUpdate := Some(at);
      s := None;
      if currentWindow >= w {
        s := Some(Sample(BitsPerSecond(sum, w), sum < SMALL_SAMPLE_THRESHOLD));
        sum := 0;
        currentWindow := currentWindow - w;
      }
      sum := sum + size;
    }

    /** Takes in an acknowledged packet; `ok` is false where a sample meets an estimate of zero. */
    method Update(at: int, size: nat) returns (ok: bool)
      requires Valid(View())
      modifies this
      ensures ok <==> AckedBitrate.Update(old(View()), at, size).Some?
      ensures ok ==> AckedBitrate.Update(old(View()), at, size) == Some(View())
      ensures Valid(View())
      ensures Filled(old(View())) && size > 0 ==> Filled(View())
      ensures var s := AckedBitrate.UpdateWindow(old(View()), at, size, WindowOf(old(View()))).1;
              && (ok <==> !(s.Some? && old(estimate) == Some(0.0)))
              && (ok ==> L.Estimates(old(View()), s, View()))
    {
      L.UpdateEstimates(View(), at, size);
      var w := if estimate.None? then initialWindow else window;
      WindowKeepsValid(View(), at, size, w);
      if Filled(View()) && size > 0 {
        WindowKeepsFilled(View(), at, size, w);
      }
      ok := true;
      var s := UpdateWindow(at, size, w);
      if s.None? {
        return;
      }
      if estimate.None? {
        estimate := Some(s.value.rate);
        return;
      }
      var e := estimate.value;
      if e == 0.0 {
        return false;
      }
      var sampleVar := SampleVar(e, s.value);
      var predVar := estimateVar + VAR_GROWTH;
      var newEstimate := Blend(e, s.value.rate, sampleVar, predVar);
      newEstimate := Max(newEstimate, ESTIMATE_FLOOR);
      estimate := Some(Ceil(newEstimate) as real);
      estimateVar := BlendVar(sampleVar, predVar);
    }
  }
}
