/**
 What the acknowledged bitrate measures: over every run its samples are the rates of consecutive
 windows of time, and each moves the estimate as far as the variances allow.
 */
module AckedWindows {
  import opened Prelude
  import opened AckedBitrate

  // ---- Windows ----

  function TotalBytes(ps: seq<Packet>): nat {
    if ps == [] then 0 else TotalBytes(ps[..|ps| - 1]) + ps[|ps| - 1].size
  }

  /** The packets counted for one window, and where it lies in time. */
  datatype Stretch = Stretch(packets: seq<Packet>, from: int, width: int)

  /** The finished windows, the packets counted for the one that is open, where that begins, and the latest time. */
  datatype Tally = Tally(closed: seq<Stretch>, open: seq<Packet>, start: int, last: Option<int>)

  /** The last of the points start, start + w, start + 2 w, ... that is not after t. */
  function GridPoint(start: int, w: Window, t: int): (g: int)
    requires start <= t
    ensures g <= t < g + w
  {
    t - (t - start) % w
  }

  lemma {:induction false} GridPointIs(start: int, w: Window, t: int)
    requires start <= t
    ensures exists k: nat :: GridPoint(start, w, t) == start + k * w
  {
    var k: nat := (t - start) / w;
    assert t - start == k * w + (t - start) % w;
  }

  function TallyStep(t: Tally, p: Packet, initialWindow: Window, window: Window): Tally
    requires t.last.Some? ==> t.start <= t.last.value
  {
    var w := if t.closed == [] then initialWindow else window;
    if t.last.None? then
      Tally(t.closed, t.open + [p], p.at, Some(p.at))
    else if p.at < t.last.value then
      Tally(t.closed, [], p.at, Some(p.at))
    else if p.at >= t.last.value + w then
      Tally(t.closed, [p], GridPoint(t.start, w, p.at), Some(p.at))
    else if p.at < t.start + w then
      Tally(t.closed, t.open + [p], t.start, Some(p.at))
    else
      Tally(t.closed + [Stretch(t.open, t.start, w)], [p], t.start + w, Some(p.at))
  }

  function TallyRun(initialWindow: Window, window: Window, packets: seq<Packet>): (t: Tally)
    ensures t.last.Some? ==> t.start <= t.last.value
  {
    if packets == [] then Tally([], [], 0, None) else
      var n := |packets| - 1;
      TallyStep(TallyRun(initialWindow, window, packets[..n]), packets[n], initialWindow, window)
  }

  /** The sample is the rate of the bytes of the window over its width, and small below 2000 bytes. */
  ghost predicate Measures(s: Sample, w: Stretch) {
    && w.width > 0 && s.rate * w.width as real == TotalBytes(w.packets) as real * 8000000.0
    && (s.isSmall <==> TotalBytes(w.packets) < 2000)
  }

  // The windows of the estimator as the tally has them.
  ghost predicate Agrees(b: Acked, t: Tally) {
    && b.sum == TotalBytes(t.open) && b.lastUpdate == t.last
    && (if t.last.None? then b.currentWindow == 0 else b.currentWindow == t.last.value - t.start)
  }

  ghost predicate AllMeasured(samples: seq<Sample>, ws: seq<Stretch>) {
    |samples| == |ws| && forall i :: 0 <= i < |ws| ==> Measures(samples[i], ws[i])
  }

  lemma RateMeasures(bytes: nat, w: Window)
    ensures BitsPerSecond(bytes, w) * w as real == bytes as real * 8000000.0
  {
  }

  lemma BytesPush(ps: seq<Packet>, p: Packet)
    ensures TotalBytes(ps + [p]) == TotalBytes(ps) + p.size
  {
    assert (ps + [p])[..|ps|] == ps;
  }

  lemma BytesOne(p: Packet)
    ensures TotalBytes([p]) == p.size
  {
    assert [p][..0] == [];
  }

  // How the estimator and the tally go on with a packet.
  ghost predicate GoesOn(b: Acked, t: Tally, p: Packet, w: Window, t1: Tally) {
    var (b1, s) := UpdateWindow(b, p.at, p.size, w);
    && Agrees(b1, t1)
    && (s.None? ==> t1.closed == t.closed)
    && (s.Some? ==> t1.closed == t.closed + [Stretch(t.open, t.start, w)]
                    && Measures(s.value, Stretch(t.open, t.start, w)))
  }

  lemma {:induction false} PauseGoesOn(b: Acked, t: Tally, p: Packet, w: Window)
    requires Agrees(b, t) && t.last.Some? && t.start <= t.last.value && p.at >= t.last.value + w
    ensures GoesOn(b, t, p, w, Tally(t.closed, [p], GridPoint(t.start, w, p.at), Some(p.at)))
  {
    BytesOne(p);
    assert b.currentWindow + (p.at - t.last.value) == p.at - t.start;
    assert (p.at - t.start) % w < w;
  }

  // A packet within the window is just counted.
  lemma WithinWindow(b: Acked, at: int, size: nat, w: Window)
    requires b.lastUpdate.Some? && 0 <= at - b.lastUpdate.value < w && b.currentWindow + (at - b.lastUpdate.value) < w
    ensures UpdateWindow(b, at, size, w) ==
              (b.(sum := b.sum + size, currentWindow := b.currentWindow + (at - b.lastUpdate.value),
                  lastUpdate := Some(at)), None)
  {
  }

  lemma {:induction false} CountGoesOn(b: Acked, t: Tally, p: Packet, w: Window)
    requires Agrees(b, t) && t.last.Some? && t.last.value <= p.at < t.last.value + w && p.at < t.start + w
    requires t.start <= t.last.value
    ensures GoesOn(b, t, p, w, Tally(t.closed, t.open + [p], t.start, Some(p.at)))
  {
    WithinWindow(b, p.at, p.size, w);
    BytesPush(t.open, p);
  }

  lemma {:induction false} SampleGoesOn(b: Acked, t: Tally, p: Packet, w: Window)
    requires Agrees(b, t) && t.last.Some? && t.last.value <= p.at < t.last.value + w && p.at >= t.start + w
    requires t.start <= t.last.value
    ensures GoesOn(b, t, p, w, Tally(t.closed + [Stretch(t.open, t.start, w)], [p], t.start + w, Some(p.at)))
  {
    BytesOne(p);
    RateMeasures(b.sum, w);
  }

  lemma {:induction false} StepAgrees(b: Acked, t: Tally, p: Packet, initialWindow: Window, window: Window)
    requires Agrees(b, t) && (t.last.Some? ==> t.start <= t.last.value)
    ensures GoesOn(b, t, p, if t.closed == [] then initialWindow else window, TallyStep(t, p, initialWindow, window))
  {
    var w := if t.closed == [] then initialWindow else window;
    if t.last.None? {
      BytesPush(t.open, p);
    } else if p.at < t.last.value {
    } else if p.at >= t.last.value + w {
      PauseGoesOn(b, t, p, w);
    } else if p.at < t.start + w {
      CountGoesOn(b, t, p, w);
    } else {
      SampleGoesOn(b, t, p, w);
    }
  }

  /** Over every run the samples measure the windows of the tally, one by one. */
  lemma {:induction false} SamplesMeasureWindows(initialWindow: Window, window: Window, packets: seq<Packet>)
    ensures var (b, samples) := Sampling(initialWindow, window, packets);
            var t := TallyRun(initialWindow, window, packets);
            Agrees(b, t) && AllMeasured(samples, t.closed)
  {
    if packets != [] {
      var n := |packets| - 1;
      SamplesMeasureWindows(initialWindow, window, packets[..n]);
      var (b, samples) := Sampling(initialWindow, window, packets[..n]);
      StepAgrees(b, TallyRun(initialWindow, window, packets[..n]), packets[n], initialWindow, window);
    }
  }

  // ---- Smoothing ----

  /** The variance of a sample: its relative distance from the estimate times 10, or 25 if small and below, squared. */
  ghost predicate IsSampleVar(e: real, s: Sample, v: real) {
    var scale := if s.isSmall && s.rate < e then 25.0 else 10.0;
    v * (e * e) == (scale * (e - s.rate)) * (scale * (e - s.rate))
  }

  lemma {:induction false} SampleVarIs(e: real, s: Sample)
    requires e > 0.0
    ensures IsSampleVar(e, s, SampleVar(e, s))
  {
    var scale := if s.isSmall && s.rate < e then 25.0 else 10.0;
    var x := scale * Abs(e - s.rate);
    var u := x / e;
    assert u * e == x;
    assert (u * u) * (e * e) == (u * e) * (u * e);
    assert x * x == (scale * (e - s.rate)) * (scale * (e - s.rate));
  }

  /**
   The estimate after a sample: a point b between estimate and sample, nearer to the one with the
   smaller variance, in proportion; at least 40 kbps, and rounded up. The precisions, which are the
   inverse variances, add up.
   */
  ghost predicate IsSmoothed(e: real, v: real, s: Sample, e': real, v': real) {
    exists b, sv :: IsSampleVar(e, s, sv) && sv >= 0.0 && Balances(e, s.rate, sv, v + 5.0, b)
      && v' * (sv + (v + 5.0)) == sv * (v + 5.0)
      && IsRoundedUp(Max(b, 40000.0), e')
  }

  // Where the two pulls are equal, each with the inverse of its variance.
  ghost predicate Balances(e: real, x: real, s: real, p: real, b: real) {
    (b - e) * s == (x - b) * p
  }

  ghost predicate IsRoundedUp(x: real, r: real) {
    r == r.Floor as real && x <= r < x + 1.0
  }

  lemma {:induction false} BlendBalances(e: real, x: real, s: real, p: real)
    requires s >= 0.0 && p > 0.0
    ensures Balances(e, x, s, p, Blend(e, x, s, p))
  {
    var b, d := Blend(e, x, s, p), s + p;
    assert b * d == s * e + p * x;
  }

  lemma {:induction false} PrecisionsAdd(s: real, p: real)
    requires s >= 0.0 && p > 0.0
    ensures BlendVar(s, p) * (s + p) == s * p
  {
    var d := s + p;
    var q := (s * p) / d;
    assert q * d == s * p;
  }

  lemma CeilRounds(x: real)
    ensures IsRoundedUp(x, Ceil(x) as real)
  {
  }

  lemma {:induction false} SmoothIs(a: Acked, s: Sample)
    requires Valid(a) && a.estimate.Some? && a.estimate.value > 0.0
    ensures var a' := Smooth(a, s);
            && a'.estimate.Some? && IsSmoothed(a.estimate.value, a.estimateVar, s, a'.estimate.value, a'.estimateVar)
            && a' == a.(estimate := a'.estimate, estimateVar := a'.estimateVar)
  {
    var e, p := a.estimate.value, a.estimateVar + VAR_GROWTH;
    var sv := SampleVar(e, s);
    var b := Blend(e, s.rate, sv, p);
    SampleVarIs(e, s);
    BlendBalances(e, s.rate, sv, p);
    PrecisionsAdd(sv, p);
    CeilRounds(Max(b, ESTIMATE_FLOOR));
    Smoothed(e, a.estimateVar, s, b, sv, Ceil(Max(b, ESTIMATE_FLOOR)) as real, BlendVar(sv, p));
  }

  lemma Smoothed(e: real, v: real, s: Sample, b: real, sv: real, e': real, v': real)
    requires IsSampleVar(e, s, sv) && sv >= 0.0 && Balances(e, s.rate, sv, v + 5.0, b)
    requires v' * (sv + (v + 5.0)) == sv * (v + 5.0) && IsRoundedUp(Max(b, 40000.0), e')
    ensures IsSmoothed(e, v, s, e', v')
  {
  }

  /** What a packet does to the estimate: the first sample sets it, later ones smooth it, nothing else touches it. */
  ghost predicate Estimates(a: Acked, s: Option<Sample>, a': Acked) {
    && a'.estimate.Some? == (a.estimate.Some? || s.Some?)
    && if s.None? then a'.estimate == a.estimate && a'.estimateVar == a.estimateVar
       else if a.estimate.None? then a'.estimate == Some(s.value.rate) && a'.estimateVar == a.estimateVar
       else IsSmoothed(a.estimate.value, a.estimateVar, s.value, a'.estimate.value, a'.estimateVar)
  }

  lemma {:induction false} UpdateEstimates(a: Acked, at: int, size: nat)
    requires Valid(a)
    ensures var s, r := UpdateWindow(a, at, size, WindowOf(a)).1, Update(a, at, size);
            && (r.None? <==> s.Some? && a.estimate == Some(0.0))
            && (r.Some? ==> Estimates(a, s, r.value))
  {
    WindowKeepsValid(a, at, size, WindowOf(a));
    var (a1, s) := UpdateWindow(a, at, size, WindowOf(a));
    if s.Some? && a.estimate.Some? && a.estimate.value > 0.0 {
      SmoothIs(a1, s.value);
    }
  }
}
