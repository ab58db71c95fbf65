/**
 What the numbers of the loss estimate mean: the loss probability is what a limited link does not
 let through, the slope is the distance of that probability from the observed share of lost bytes,
 and the curvature is how fast the slope falls with it.
 */
module LossLikelihood {
  import opened Prelude
  import opened LossWindow
  import opened LossEstimate

  /** The point of an interval that is nearest to x. */
  ghost predicate IsNearest(x: real, lo: real, hi: real, r: real) {
    r == if x < lo then lo else if x > hi then hi else x
  }

  // ---- The loss probability ----

  /**
   A share q of the bytes is lost: the inherent loss takes its part of what is sent, and what is
   left passes only up to the bandwidth, in proportion.
   */
  ghost predicate LosesShare(c: Channel, rate: real, q: real) {
    exists loss: real :: IsNearest(c.inherentLoss, 0.0, 1.0, loss) &&
      if c.bandwidth.Finite? && rate > c.bandwidth.bps && rate != 0.0
      then (1.0 - q) * rate == (1.0 - loss) * c.bandwidth.bps
      else q == loss
  }

  lemma {:induction false} LimitedShare(loss: real, bandwidth: real, rate: real)
    requires rate != 0.0
    ensures (1.0 - (loss + (1.0 - loss) * ((rate - bandwidth) / rate))) * rate == (1.0 - loss) * bandwidth
  {
    var f := (rate - bandwidth) / rate;
    assert f * rate == rate - bandwidth;
    assert (1.0 - (loss + (1.0 - loss) * f)) * rate == (1.0 - loss) * (rate - f * rate);
  }

  /** The probability is that share, kept off 0 and 1 by a millionth. */
  lemma {:induction false} ProbabilityIsShare(c: Channel, rate: real)
    ensures exists q: real :: LosesShare(c, rate, q) && IsNearest(q, 0.000001, 0.999999, LossProbability(c, rate))
  {
    var loss := Clamp(c.inherentLoss, 0.0, 1.0);
    assert IsNearest(c.inherentLoss, 0.0, 1.0, loss);
    if c.bandwidth.Finite? && rate > c.bandwidth.bps && rate != 0.0 {
      LimitedShare(loss, c.bandwidth.bps, rate);
      var q := loss + (1.0 - loss) * ((rate - c.bandwidth.bps) / rate);
      assert LosesShare(c, rate, q);
      assert IsNearest(q, 0.000001, 0.999999, LossProbability(c, rate));
    } else {
      assert LosesShare(c, rate, loss);
      assert IsNearest(loss, 0.000001, 0.999999, LossProbability(c, rate));
    }
  }

  // ---- Slope and curvature ----

  lemma {:induction false} SlopeTimes(lost: real, received: real, p: real, slope: real, d: real)
    requires 0.0 < p < 1.0 && slope == lost / p - received / (1.0 - p) && d == p * (1.0 - p)
    ensures d > 0.0 && slope * d == lost - p * (lost + received)
  {
    var a, b := lost / p, received / (1.0 - p);
    assert a * p == lost && b * (1.0 - p) == received;
    assert (a - b) * (p * (1.0 - p)) == (a * p) * (1.0 - p) - (b * (1.0 - p)) * p;
  }

  lemma SignOf(x: real, d: real, y: real)
    requires d > 0.0 && x * d == y
    ensures (x > 0.0 <==> y > 0.0) && (x == 0.0 <==> y == 0.0)
  {
  }

  /** The slope is positive exactly if more bytes were lost than the probability says, and zero if just as many. */
  lemma {:induction false} SlopeSign(c: Channel, o: Observation)
    requires o.lostSize <= o.size
    ensures var p := LossProbability(c, o.sendingRate);
            && (Slope(c, o) > 0.0 <==> o.lostSize as real > p * o.size as real)
            && (Slope(c, o) == 0.0 <==> o.lostSize as real == p * o.size as real)
            && Slope(c, o) * (p * (1.0 - p)) == (o.lostSize as real - p * o.size as real) / 1000.0
  {
    var p := LossProbability(c, o.sendingRate);
    var d := p * (1.0 - p);
    SlopeTimes(LostKb(o), ReceivedKb(o), p, Slope(c, o), d);
    KiloBytes(o, p);
    SignOf(Slope(c, o), d, (o.lostSize as real - p * o.size as real) / 1000.0);
  }

  lemma KiloBytes(o: Observation, p: real)
    ensures LostKb(o) - p * (LostKb(o) + ReceivedKb(o)) == (o.lostSize as real - p * o.size as real) / 1000.0
  {
    assert LostKb(o) + ReceivedKb(o) == o.size as real / 1000.0;
    assert p * (o.size as real / 1000.0) == p * o.size as real / 1000.0;
  }

  /** How much the slope falls from probability p to q, for each unit between them. */
  function Secant(o: Observation, p: real, q: real): real
    requires 0.0 < p < 1.0 && 0.0 < q < 1.0
  {
    LostKb(o) / Product(p, q) + ReceivedKb(o) / Product(1.0 - p, 1.0 - q)
  }

  lemma {:induction false} QuotientFalls(x: real, p: real, q: real)
    requires p > 0.0 && q > 0.0
    ensures x / q - x / p == -(q - p) * (x / Product(p, q))
  {
    var a, b, s := x / p, x / q, x / Product(p, q);
    assert a * p == x && b * q == x && s * (p * q) == x;
    Cancel(a, s * q, p);
    Cancel(b, s * p, q);
  }

  lemma Cancel(a: real, b: real, d: real)
    requires d > 0.0 && a * d == b * d
    ensures a == b
  {
    assert (a - b) * d == 0.0;
  }

  /**
   The curvature is how fast the slope falls: between two candidates the slope falls by the
   difference of their probabilities times the secant, and the curvature is the secant of a
   candidate with itself.
   */
  lemma {:induction false} CurvatureIsFall(c: Channel, d: Channel, o: Observation)
    ensures var p, q := LossProbability(c, o.sendingRate), LossProbability(d, o.sendingRate);
            Slope(d, o) - Slope(c, o) == -(q - p) * Secant(o, p, q) && Curvature(c, o) == Secant(o, p, p)
  {
    var p, q := LossProbability(c, o.sendingRate), LossProbability(d, o.sendingRate);
    QuotientFalls(LostKb(o), p, q);
    QuotientFalls(ReceivedKb(o), 1.0 - p, 1.0 - q);
    var l, r := LostKb(o) / Product(p, q), ReceivedKb(o) / Product(1.0 - p, 1.0 - q);
    assert -(q - p) * (l + r) == -(q - p) * l - -((1.0 - q) - (1.0 - p)) * r;
  }

  // ---- The feasible loss and the Newton step ----

  /** The largest feasible loss: 5 % plus what 100 kbps make of the bandwidth, and never above 1. */
  ghost predicate IsLossLimit(bandwidth: Rate, limit: real) {
    match bandwidth
    case Finite(b) =>
      if b == 0.0 then limit == 1.0
      else limit <= 1.0 && (limit - 0.05) * b <= 100000.0 && (limit == 1.0 || (limit - 0.05) * b == 100000.0)
    case _ => limit == 0.05
  }

  lemma {:induction false} LossLimitIs(bandwidth: Rate)
    requires ValidBandwidth(bandwidth)
    ensures IsLossLimit(bandwidth, InherentLossUpperBound(bandwidth)) && InherentLossUpperBound(bandwidth) >= 0.05
  {
    if bandwidth.Finite? && bandwidth.bps > 0.0 {
      var b := bandwidth.bps;
      var q := INHERENT_LOSS_BALANCE / b;
      assert q * b == 100000.0;
      if 0.05 + q > 1.0 {
        assert (q - 0.95) * b > 0.0;
      }
    }
  }

  /** The feasible loss is the point nearest to the loss between 0.1 % and that limit. */
  lemma {:induction false} FeasibleIsNearest(c: Channel)
    requires ValidBandwidth(c.bandwidth)
    ensures exists limit :: IsLossLimit(c.bandwidth, limit) && IsNearest(c.inherentLoss, 0.001, limit, FeasibleLoss(c))
  {
    LossLimitIs(c.bandwidth);
    assert IsNearest(c.inherentLoss, 0.001, InherentLossUpperBound(c.bandwidth), FeasibleLoss(c));
  }

  /**
   A Newton step: from the loss x it goes three quarters of the way to where the slope, followed
   along its derivative, would vanish, and then to the nearest feasible loss.
   */
  lemma {:induction false} NewtonStep(slots: seq<Observation>, num: nat, c: Channel)
    requires |slots| == WINDOW_SIZE && InBounds(slots, num) && num > 0 && ValidBandwidth(c.bandwidth)
    ensures var d, c' := GetDerivatives(slots, num, c), NewtonUpdate(slots, num, c);
            && c'.bandwidth == c.bandwidth
            && exists x, limit :: d.first + (x - c.inherentLoss) / 0.75 * d.second == 0.0
                 && IsLossLimit(c.bandwidth, limit) && IsNearest(x, 0.001, limit, c'.inherentLoss)
  {
    var d, c' := GetDerivatives(slots, num, c), NewtonUpdate(slots, num, c);
    var q := d.first / d.second;
    assert q * d.second == d.first;
    var x, limit := c.inherentLoss - NEWTON_STEP_SIZE * q, InherentLossUpperBound(c.bandwidth);
    LossLimitIs(c.bandwidth);
    ThreeQuarters(x - c.inherentLoss, q);
    assert d.first + (x - c.inherentLoss) / 0.75 * d.second == 0.0;
    assert IsNearest(x, 0.001, limit, c'.inherentLoss);
  }

  lemma ThreeQuarters(step: real, q: real)
    requires step == -(0.75 * q)
    ensures step / 0.75 == -q
  {
  }

  // ---- The bound and the result ----

  /** The bound is the maximum up to 5 % loss; beyond, bound times excess loss is 100 kbps. */
  ghost predicate Balances(bound: Step<Rate>, ratio: real, maxBitrate: Rate) {
    && bound.Done?
    && if ratio <= 0.05 then bound.value == maxBitrate
       else bound.value.Finite? && bound.value.bps * (ratio - 0.05) == 100000.0
  }

  lemma {:induction false} RatioBalances(ratio: real, maxBitrate: Rate, minBitrate: real)
    requires ratio <= 1.0
    ensures Balances(InstantBound(ratio, maxBitrate, minBitrate), ratio, maxBitrate)
  {
    if ratio > LOSS_OFFSET {
      var q := BANDWIDTH_BALANCE / (ratio - LOSS_OFFSET);
      assert q * (ratio - LOSS_OFFSET) == BANDWIDTH_BALANCE;
    }
  }

  /** In every state a run can reach. */
  lemma {:induction false} BoundBalancesLoss(events: seq<Event>, maxBitrate: Rate, minBitrate: real)
    ensures var r := RingRun(events);
            && InBounds(r.slots, r.num)
            && Balances(InstantBound(LossRatio(r.slots, r.num), maxBitrate, minBitrate), LossRatio(r.slots, r.num),
                        maxBitrate)
  {
    RatioOfRun(events);
    RatioBalances(LossRatio(RingRun(events).slots, RingRun(events).num), maxBitrate, minBitrate);
  }

  /** The least of the limits that are in force. */
  ghost predicate IsLeast(r: Rate, limits: set<Rate>) {
    r in limits && forall s :: s in limits ==> AtMost(r, s)
  }

  lemma MinRateIsLeast(a: Rate, b: Rate)
    ensures IsLeast(MinRate(a, b), {a, b})
  {
  }

  /** The limits on the reported rate: the estimate; once observed also the delay based one, if any, and the bound. */
  function Limits(num: nat, current: Rate, delayBased: Rate, instant: Rate): set<Rate> {
    if num == 0 then {current}
    else if delayBased.Finite? then {current, delayBased, instant} else {current, instant}
  }

  /** Something is reported if and only if there is an estimate, and then the least of its limits. */
  lemma {:induction false} ReportsLeast(num: nat, current: Rate, delayBased: Rate, instant: Rate)
    ensures var r := LossBasedResult(num, current, delayBased, instant);
            && (r.Some? <==> current.Finite?)
            && (r.Some? ==> IsLeast(r.value, Limits(num, current, delayBased, instant)))
  {
    MinRateIsLeast(current, delayBased);
    MinRateIsLeast(MinRate(current, delayBased), instant);
    MinRateIsLeast(current, instant);
  }
}
