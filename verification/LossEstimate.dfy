/**
 The estimate of the loss controller on top of its observation window: the instantaneous
 bound, the derivatives of the likelihood and the Newton step on the inherent loss.
 Constants are those of the default configuration.
 */
module LossEstimate {
  import opened Prelude
  import opened LossWindow

  /** A bitrate; infinities mark values that are not valid. */
  datatype Rate = Finite(bps: real) | Infinite | NegInfinite

  const LOSS_OFFSET: real := 0.05
  const BANDWIDTH_BALANCE: real := 100000.0
  const HIGH_LOSS_THRESHOLD: real := 1.0
  const CAP_AT_HIGH_LOSS: real := 500000.0
  const SLOPE_AT_HIGH_LOSS: real := 1000000.0
  const INHERENT_LOSS_OFFSET: real := 0.05
  const INHERENT_LOSS_BALANCE: real := 100000.0
  const INHERENT_LOSS_LOWER_BOUND: real := 0.001
  const INITIAL_INHERENT_LOSS: real := 0.01
  const NEWTON_STEP_SIZE: real := 0.75
  const MIN_PROBABILITY: real := 0.000001
  const SAFE_SECOND_DERIVATIVE: real := -0.000001

  function Clamp(x: real, lo: real, hi: real): real { Min(Max(x, lo), hi) }

  // ---- The instantaneous upper bound ----

  // Subtracting a larger bitrate from a smaller one panics.
  function HighLossLimit(ratio: real, minBitrate: real): Step<Rate> {
    if CAP_AT_HIGH_LOSS < SLOPE_AT_HIGH_LOSS * ratio then Panic
    else Done(Finite(Max(CAP_AT_HIGH_LOSS - SLOPE_AT_HIGH_LOSS * ratio, minBitrate)))
  }

  function InstantBound(ratio: real, maxBitrate: Rate, minBitrate: real): Step<Rate> {
    if ratio <= LOSS_OFFSET then Done(maxBitrate)
    else if ratio > HIGH_LOSS_THRESHOLD then HighLossLimit(ratio, minBitrate)
    else Done(Finite(BANDWIDTH_BALANCE / (ratio - LOSS_OFFSET)))
  }

  predicate AtLeast(r: Rate, bps: real) {
    r.Infinite? || (r.Finite? && r.bps >= bps)
  }

  lemma QuotientBound(ratio: real)
    requires LOSS_OFFSET < ratio <= 1.0
    ensures BANDWIDTH_BALANCE / (ratio - LOSS_OFFSET) >= BANDWIDTH_BALANCE / 0.95
  {
    var d := ratio - LOSS_OFFSET;
    var q, b := BANDWIDTH_BALANCE / d, BANDWIDTH_BALANCE / 0.95;
    assert q * d == BANDWIDTH_BALANCE && b * 0.95 == BANDWIDTH_BALANCE;
  }

  /**
   In every run the high-loss branch, which would panic, is never taken, and the bound is the
   maximum bitrate or at least 100 kbps / 0.95.
   */
  lemma {:induction false} InstantBoundOfRun(events: seq<Event>, maxBitrate: Rate, minBitrate: real)
    ensures var r := RingRun(events);
            && InBounds(r.slots, r.num)
            && InstantBound(LossRatio(r.slots, r.num), maxBitrate, minBitrate).Done?
            && (AtLeast(maxBitrate, BANDWIDTH_BALANCE / 0.95) ==>
                  AtLeast(InstantBound(LossRatio(r.slots, r.num), maxBitrate, minBitrate).value,
                          BANDWIDTH_BALANCE / 0.95))
  {
    RatioOfRun(events);
    var r := RingRun(events);
    var ratio := LossRatio(r.slots, r.num);
    if ratio > LOSS_OFFSET {
      QuotientBound(ratio);
    }
  }

  // ---- The likelihood ----

  /** A candidate: the inherent loss of the link and the bandwidth it is limited to. */
  datatype Channel = Channel(inherentLoss: real, bandwidth: Rate)

  predicate ValidBandwidth(r: Rate) {
    r.Finite? ==> r.bps >= 0.0
  }

  function LossProbability(c: Channel, sendingRate: real): (p: real)
    ensures 0.0 < MIN_PROBABILITY <= p <= 1.0 - MIN_PROBABILITY < 1.0
  {
    var loss := Clamp(c.inherentLoss, 0.0, 1.0);
    var p := if c.bandwidth.Finite? && sendingRate > c.bandwidth.bps && sendingRate != 0.0
             then loss + (1.0 - loss) * ((sendingRate - c.bandwidth.bps) / sendingRate)
             else loss;
    Clamp(p, MIN_PROBABILITY, 1.0 - MIN_PROBABILITY)
  }

  function LostKb(o: Observation): real { o.lostSize as real / 1000.0 }
  function ReceivedKb(o: Observation): real { (o.size - o.lostSize) as real / 1000.0 }

  // What one observation adds to the first derivative, and takes from the second.
  function Slope(c: Channel, o: Observation): real {
    var p := LossProbability(c, o.sendingRate);
    LostKb(o) / p - ReceivedKb(o) / (1.0 - p)
  }

  function Curvature(c: Channel, o: Observation): real {
    var p := LossProbability(c, o.sendingRate);
    LostKb(o) / Product(p, p) + ReceivedKb(o) / Product(1.0 - p, 1.0 - p)
  }

  function Product(x: real, y: real): (r: real)
    ensures x > 0.0 && y > 0.0 ==> r > 0.0
  {
    x * y
  }

  function SlopeIn(c: Channel): Observation -> real { o => Slope(c, o) }
  function CurvatureIn(c: Channel): Observation -> real { o => Curvature(c, o) }

  datatype Derivatives = Derivatives(first: real, second: real)

  ghost function RawSecond(slots: seq<Observation>, num: nat, c: Channel): real
    requires |slots| == WINDOW_SIZE && InBounds(slots, num)
  {
    -SlotSum(slots, num, CurvatureIn(c), WINDOW_SIZE)
  }

  ghost function GetDerivatives(slots: seq<Observation>, num: nat, c: Channel): Derivatives
    requires |slots| == WINDOW_SIZE && InBounds(slots, num)
  {
    var second := RawSecond(slots, num, c);
    Derivatives(SlotSum(slots, num, SlopeIn(c), WINDOW_SIZE), if second >= 0.0 then SAFE_SECOND_DERIVATIVE else second)
  }

  lemma CurvatureSign(c: Channel, o: Observation)
    requires o.lostSize <= o.size
    ensures Curvature(c, o) >= 0.0 && (Curvature(c, o) > 0.0 <==> o.size > 0)
  {
    var p := LossProbability(c, o.sendingRate);
    QuotientSign(LostKb(o), Product(p, p));
    QuotientSign(ReceivedKb(o), Product(1.0 - p, 1.0 - p));
  }

  lemma QuotientSign(x: real, d: real)
    requires x >= 0.0 && d > 0.0
    ensures x / d >= 0.0 && (x / d > 0.0 <==> x > 0.0)
  {
    var q := x / d;
    assert q * d == x;
  }

  ghost predicate HoldsBytes(slots: seq<Observation>, n: nat)
    requires n <= |slots|
  {
    exists j :: 0 <= j < n && slots[j].isInitialized && slots[j].size > 0
  }

  lemma {:induction false} CurvatureSum(slots: seq<Observation>, num: nat, c: Channel, n: nat)
    requires n <= |slots| && InBounds(slots, num)
    requires forall j :: 0 <= j < |slots| && slots[j].isInitialized ==> slots[j].lostSize <= slots[j].size
    ensures SlotSum(slots, num, CurvatureIn(c), n) >= 0.0
    ensures SlotSum(slots, num, CurvatureIn(c), n) > 0.0 <==> HoldsBytes(slots, n)
  {
    if n > 0 {
      CurvatureSum(slots, num, c, n - 1);
      var o := slots[n - 1];
      if o.isInitialized {
        CurvatureSign(c, o);
        WeightPositive(num - 1 - o.id);
        ProductSign(Weight(num - 1 - o.id), Curvature(c, o));
      }
      assert HoldsBytes(slots, n) <==> HoldsBytes(slots, n - 1) || (o.isInitialized && o.size > 0);
    }
  }

  lemma ProductSign(w: real, x: real)
    requires w > 0.0 && x >= 0.0
    ensures Scaled(w, x) >= 0.0 && (Scaled(w, x) > 0.0 <==> x > 0.0)
  {
  }

  /**
   Over the reals the objective is strictly concave exactly when the window holds any bytes;
   otherwise the guard steps in, so a Newton step never divides by zero or climbs the wrong way.
   */
  lemma {:induction false} ConcaveIffBytes(events: seq<Event>, c: Channel)
    ensures var r := RingRun(events);
            && InBounds(r.slots, r.num)
            && (RawSecond(r.slots, r.num, c) < 0.0 <==> HoldsBytes(r.slots, WINDOW_SIZE))
            && GetDerivatives(r.slots, r.num, c).second < 0.0
            && (HoldsBytes(r.slots, WINDOW_SIZE) ==>
                  GetDerivatives(r.slots, r.num, c).second == RawSecond(r.slots, r.num, c))
  {
    RunRefines(events);
    var r := RingRun(events);
    RingSumIsDecayed(r.slots, r.num, PlainRun(events).history, CurvatureIn(c));
    CurvatureSum(r.slots, r.num, c, WINDOW_SIZE);
  }

  /** The derivatives over the ring are the decayed folds of slope and curvature over the history. */
  lemma {:induction false} DerivativesOfRun(events: seq<Event>, c: Channel)
    ensures var r, h := RingRun(events), PlainRun(events).history;
            && InBounds(r.slots, r.num)
            && GetDerivatives(r.slots, r.num, c).first == Decayed(h, SlopeIn(c), WINDOW_SIZE)
            && RawSecond(r.slots, r.num, c) == -Decayed(h, CurvatureIn(c), WINDOW_SIZE)
  {
    RunRefines(events);
    var r, h := RingRun(events), PlainRun(events).history;
    RingSumIsDecayed(r.slots, r.num, h, SlopeIn(c));
    RingSumIsDecayed(r.slots, r.num, h, CurvatureIn(c));
  }

  // ---- Newton's method on the inherent loss ----

  function InherentLossUpperBound(bandwidth: Rate): real {
    match bandwidth
    case Finite(b) => if b == 0.0 then 1.0 else Min(INHERENT_LOSS_OFFSET + INHERENT_LOSS_BALANCE / b, 1.0)
    case _ => Min(INHERENT_LOSS_OFFSET, 1.0)
  }

  function FeasibleLoss(c: Channel): (r: real)
    ensures ValidBandwidth(c.bandwidth) ==> INHERENT_LOSS_LOWER_BOUND <= r <= 1.0
  {
    Min(Max(c.inherentLoss, INHERENT_LOSS_LOWER_BOUND), InherentLossUpperBound(c.bandwidth))
  }

  ghost function NewtonUpdate(slots: seq<Observation>, num: nat, c: Channel): Channel
    requires |slots| == WINDOW_SIZE && InBounds(slots, num)
  {
    if num == 0 then c else
      var d := GetDerivatives(slots, num, c);
      var moved := c.(inherentLoss := c.inherentLoss - NEWTON_STEP_SIZE * (d.first / d.second));
      moved.(inherentLoss := FeasibleLoss(moved))
  }

  /** With a negative second derivative the step moves the loss in the direction of the slope. */
  lemma {:induction false} NewtonGoesUphill(slots: seq<Observation>, num: nat, c: Channel)
    requires |slots| == WINDOW_SIZE && InBounds(slots, num) && num > 0 && ValidBandwidth(c.bandwidth)
    requires FeasibleLoss(c) == c.inherentLoss
    ensures var d, c' := GetDerivatives(slots, num, c), NewtonUpdate(slots, num, c);
            && (d.first >= 0.0 ==> c'.inherentLoss >= c.inherentLoss)
            && (d.first <= 0.0 ==> c'.inherentLoss <= c.inherentLoss)
  {
    var d := GetDerivatives(slots, num, c);
    var q := d.first / d.second;
    assert q * d.second == d.first;
    if d.first >= 0.0 {
      assert q <= 0.0;
    }
    if d.first <= 0.0 {
      assert q >= 0.0;
    }
  }

  // ---- The estimate over whole runs ----

  ghost predicate ValidChannel(c: Channel) {
    INHERENT_LOSS_LOWER_BOUND <= c.inherentLoss <= 1.0
  }

  /**
   What happens to the estimate: feedback and resets change the window; an update derives one
   candidate per bandwidth from the current estimate, improves each by a Newton step, picks one
   of them or keeps the current estimate, and then settles on a final bandwidth.
   */
  datatype Change = Window(event: Event) | Update(bandwidths: seq<Rate>, pick: Option<nat>, final: Rate)

  datatype Estimator = Estimator(events: seq<Event>, channel: Channel)

  const INITIAL := Estimator([], Channel(INITIAL_INHERENT_LOSS, NegInfinite))

  ghost function Candidate(e: Estimator, bandwidth: Rate): Channel {
    var r := RingRun(e.events);
    RatioOfRun(e.events);
    var c := e.channel.(bandwidth := bandwidth);
    NewtonUpdate(r.slots, r.num, c.(inherentLoss := FeasibleLoss(c)))
  }

  ghost function Apply(e: Estimator, ch: Change): Estimator {
    match ch
    case Window(ev) => e.(events := e.events + [ev])
    case Update(bandwidths, pick, final) =>
      var best := if pick.Some? && pick.value < |bandwidths| then Candidate(e, bandwidths[pick.value]) else e.channel;
      e.(channel := best.(bandwidth := final))
  }

  ghost function RunChanges(changes: seq<Change>): Estimator {
    if changes == [] then INITIAL
    else Apply(RunChanges(changes[..|changes| - 1]), changes[|changes| - 1])
  }

  ghost predicate ValidChange(ch: Change) {
    ch.Update? ==> forall i :: 0 <= i < |ch.bandwidths| ==> ValidBandwidth(ch.bandwidths[i])
  }

  /** Over every run the inherent loss stays between 0.001 and 1, whichever candidates win. */
  lemma {:induction false} InherentLossStaysFeasible(changes: seq<Change>)
    requires forall i :: 0 <= i < |changes| ==> ValidChange(changes[i])
    ensures ValidChannel(RunChanges(changes).channel)
  {
    if changes != [] {
      var n := |changes| - 1;
      InherentLossStaysFeasible(changes[..n]);
      var e, ch := RunChanges(changes[..n]), changes[n];
      if ch.Update? && ch.pick.Some? && ch.pick.value < |ch.bandwidths| {
        assert ValidChange(ch);
        CandidateIsFeasible(e, ch.bandwidths[ch.pick.value]);
      }
    }
  }

  lemma {:induction false} CandidateIsFeasible(e: Estimator, bandwidth: Rate)
    requires ValidBandwidth(bandwidth)
    ensures ValidChannel(Candidate(e, bandwidth)) && Candidate(e, bandwidth).bandwidth == bandwidth
  {
    RatioOfRun(e.events);
  }

  // ---- The reported result ----

  function MinRate(a: Rate, b: Rate): Rate {
    match (a, b)
    case (NegInfinite, _) => NegInfinite
    case (_, NegInfinite) => NegInfinite
    case (Infinite, _) => b
    case (_, Infinite) => a
    case (Finite(x), Finite(y)) => Finite(Min(x, y))
  }

  /** The estimate handed out; `instant` is the bound in force. */
  function LossBasedResult(num: nat, current: Rate, delayBased: Rate, instant: Rate): Option<Rate> {
    if !current.Finite? then None
    else if num == 0 then Some(current)
    else if delayBased.Finite? then Some(MinRate(MinRate(current, delayBased), instant))
    else Some(MinRate(current, instant))
  }

  predicate AtMost(r: Rate, s: Rate) {
    r.NegInfinite? || s.Infinite? || (r.Finite? && s.Finite? && r.bps <= s.bps)
  }

  // The feedback at position n completes an observation.
  ghost predicate Completes(events: seq<Event>, n: nat)
    requires n < |events|
  {
    var r := RingRun(events[..n]);
    events[n].Feedback? && Stage(r.staging, events[n].packets, r.num).1.Some?
  }

  lemma CountsCompletion(events: seq<Event>)
    requires events != []
    ensures var m := |events| - 1;
            RingRun(events).num == RingRun(events[..m]).num + if Completes(events, m) then 1 else 0
  {
  }

  lemma CompletesInPrefix(events: seq<Event>, m: nat, n: nat)
    requires n < m <= |events|
    ensures Completes(events[..m], n) <==> Completes(events, n)
  {
    assert events[..m][..n] == events[..n];
  }

  ghost predicate Observed(events: seq<Event>) {
    exists n :: 0 <= n < |events| && Completes(events, n)
  }

  lemma {:induction false} ObservedStep(events: seq<Event>)
    requires events != []
    ensures var m := |events| - 1; Observed(events) <==> Observed(events[..m]) || Completes(events, m)
  {
    var m := |events| - 1;
    if Observed(events[..m]) {
      var n :| 0 <= n < m && Completes(events[..m], n);
      CompletesInPrefix(events, m, n);
    }
    if Observed(events) {
      var n :| 0 <= n < |events| && Completes(events, n);
      if n < m {
        CompletesInPrefix(events, m, n);
      }
    }
  }

  /** Resets forget observations, but not that there was one. */
  lemma {:induction false} ObservedIff(events: seq<Event>)
    ensures RingRun(events).num > 0 <==> Observed(events)
  {
    if events != [] {
      ObservedIff(events[..|events| - 1]);
      ObservedStep(events);
      CountsCompletion(events);
    }
  }

  /** What is reported is at most the delay based estimate, whatever the two estimates are. */
  ghost predicate BelowDelay(num: nat) {
    forall current: Rate, delayBased: Rate, instant: Rate :: current.Finite? && delayBased.Finite? ==>
      AtMost(Reported(num, current, delayBased, instant), delayBased)
  }

  function Reported(num: nat, current: Rate, delayBased: Rate, instant: Rate): Rate
    requires current.Finite?
  {
    LossBasedResult(num, current, delayBased, instant).value
  }

  /** Over every run: the bound holds from the first completed observation on, resets included, and not before. */
  lemma {:induction false} BelowDelayOnceObserved(events: seq<Event>)
    ensures BelowDelay(RingRun(events).num) <==> Observed(events)
  {
    ObservedIff(events);
    if RingRun(events).num == 0 {
      AboveDelayExample();
    }
  }

  /** Before the first observation twice the delay based estimate is reported here. */
  lemma AboveDelayExample()
    ensures Reported(0, Finite(2000.0), Finite(1000.0), Infinite) == Finite(2000.0)
    ensures !AtMost(Reported(0, Finite(2000.0), Finite(1000.0), Infinite), Finite(1000.0))
  {
  }
}
