/** The loss controller as an object: its window in an array, its sums as loops over it. */
module LossControl {
  import opened Prelude
  import opened LossWindow
  import opened LossAccounting
  import opened LossEstimate
  import opened LossLikelihood

  class LossController {
    const observations: array<Observation>
    const temporalWeights: array<real>
    var numObservations: nat
    var partialObservation: Partial
    var lastSendTime: Option<int>
    var cachedInstantUpperBound: Option<Rate>
    var wasInAlr: bool
    var maxBitrate: Rate
    var minBitrate: real

    // All observations since the last reset.
    ghost var history: seq<Observation>

    // The feedback since the last reset, cut into the stretches they stand for.
    ghost var ledger: Ledger

    ghost predicate Valid()
      reads this, observations, temporalWeights
    {
      && observations.Length == WINDOW_SIZE && temporalWeights.Length == WINDOW_SIZE
      && (forall i :: 0 <= i < WINDOW_SIZE ==> temporalWeights[i] == Weight(i))
      && PartialOk(partialObservation)
      && Refines(observations[..], numObservations, history)
      && Accounts(history, Staging(partialObservation, lastSendTime), ledger)
    }

    ghost function View(): Ring
      reads this, observations
    {
      Ring(observations[..], numObservations, Staging(partialObservation, lastSendTime))
    }

    ghost function PlainView(): Plain
      reads this
    {
      Plain(history, numObservations, Staging(partialObservation, lastSendTime))
    }

    constructor ()
      ensures Valid() && fresh(observations) && fresh(temporalWeights)
      ensures View() == RingRun([]) && PlainView() == PlainRun([]) && ledger == NEW_LEDGER
      ensures cachedInstantUpperBound.None? && !wasInAlr && maxBitrate == Infinite && minBitrate == 1000.0
    {
      observations := new Observation[15](_ => DUMMY);
      var ws := new real[15];
      temporalWeights := ws;
      numObservations, partialObservation, lastSendTime := 0, EMPTY_PARTIAL, None;
      cachedInstantUpperBound, wasInAlr, maxBitrate, minBitrate := None, false, Infinite, 1000.0;
      history, ledger := [], NEW_LEDGER;
      new;
      for i := 0 to WINDOW_SIZE
        modifies temporalWeights
        invariant forall j :: 0 <= j < i ==> temporalWeights[j] == Weight(j)
      {
        temporalWeights[i] := Weight(i);
      }
      assert observations[..] == seq(WINDOW_SIZE, _ => DUMMY);
    }

    /** Forgets all observations; ids go on counting. */
    method ResetObservations()
      requires Valid()
      modifies this, observations
      ensures Valid() && View() == RingStep(old(View()), Reset) && PlainView() == PlainStep(old(PlainView()), Reset)
      ensures cachedInstantUpperBound.None? && ledger == NEW_LEDGER
      ensures wasInAlr == old(wasInAlr) && maxBitrate == old(maxBitrate) && minBitrate == old(minBitrate)
    {
      partialObservation, lastSendTime := EMPTY_PARTIAL, None;
      for i := 0 to observations.Length
        modifies observations
        invariant forall j :: 0 <= j < i ==> observations[j] == DUMMY
      {
        observations[i] := DUMMY;
      }
      assert observations[..] == seq(WINDOW_SIZE, _ => DUMMY);
      cachedInstantUpperBound := None;
      history, ledger := [], NEW_LEDGER;
    }

    /** Entering or leaving the application limited region resets the window. */
    method SetAlr(inAlr: bool)
      requires Valid()
      modifies this, observations
      ensures Valid() && wasInAlr == inAlr
      ensures View() == if inAlr == old(wasInAlr) then old(View()) else RingStep(old(View()), Reset)
      ensures PlainView() == if inAlr == old(wasInAlr) then old(PlainView()) else PlainStep(old(PlainView()), Reset)
      ensures ledger == if inAlr == old(wasInAlr) then old(ledger) else NEW_LEDGER
      ensures cachedInstantUpperBound == if inAlr == old(wasInAlr) then old(cachedInstantUpperBound) else None
      ensures maxBitrate == old(maxBitrate) && minBitrate == old(minBitrate)
    {
      if wasInAlr != inAlr {
        ResetObservations();
      }
      wasInAlr := inAlr;
    }

    /**
     Collects a feedback. Exactly when it ends a stretch of more than 250 ms is an observation
     returned; it counts the packets of the stretch, and what is staged counts those after it.
     */
    method StageFeedback(ps: seq<PacketResult>) returns (o: Option<Observation>)
      requires Staging(partialObservation, lastSendTime) == Staging(Counted(ledger.open), ledger.since)
      requires PartialOk(partialObservation)
      modifies `partialObservation, `lastSendTime, `ledger
      ensures ledger == LedgerStep(old(ledger), Feedback(ps))
      ensures Staging(partialObservation, lastSendTime) == Staging(Counted(ledger.open), ledger.since)
      ensures o.None? ==> ledger.closed == old(ledger).closed
      ensures o.Some? ==> var n := |old(ledger).closed|;
                          && |ledger.closed| == n + 1 && ledger.closed[..n] == old(ledger).closed
                          && Observes(o.value, ledger.closed[n])
      ensures Stage(old(Staging(partialObservation, lastSendTime)), ps, numObservations)
                == (Staging(partialObservation, lastSendTime), o)
    {
      StageAccounts(ledger, ps, numObservations);
      ledger := LedgerStep(ledger, Feedback(ps));
      if ps == [] {
        return None;
      }
      var s := SummarizeAll(ps);
      partialObservation := Plus(partialObservation, s.partial);
      if lastSendTime.None? {
        lastSendTime := Some(s.lastSendTime);
      }
      var duration := s.lastSendTime - lastSendTime.value;
      if duration <= OBSERVATION_LOWER_BOUND {
        return None;
      }
      lastSendTime := Some(s.lastSendTime);
      var p := partialObservation;
      o := Some(Observation(p.numPackets, p.size, p.numLost, p.lostSize, p.numPackets - p.numLost,
                            BitsPerSecond(p.size, duration), numObservations, true));
      partialObservation := EMPTY_PARTIAL;
    }

    // Writes an observation to its slot.
    method Store(o: Observation)
      requires observations.Length == WINDOW_SIZE && Refines(observations[..], numObservations, history)
      requires o.id == numObservations && o.isInitialized && o.lostSize <= o.size
      modifies `numObservations, `history, observations
      ensures numObservations == old(numObservations) + 1 && history == old(history) + [o]
      ensures observations[..] == old(observations[..])[old(numObservations) % WINDOW_SIZE := o]
      ensures Refines(observations[..], numObservations, history)
    {
      AddRefines(observations[..], numObservations, history, o);
      ghost var slots := observations[..];
      observations[numObservations % WINDOW_SIZE] := o;
      assert observations[..] == slots[numObservations % WINDOW_SIZE := o];
      numObservations := numObservations + 1;
      history := history + [o];
    }

    // The bound in force is the one computed from the window.
    ghost predicate BoundIsCurrent()
      requires Valid()
      reads this, observations, temporalWeights
    {
      && InBounds(observations[..], numObservations)
      && cachedInstantUpperBound.Some?
      && InstantBound(LossRatio(observations[..], numObservations), maxBitrate, minBitrate)
           == Done(cachedInstantUpperBound.value)
    }

    /** Takes in one feedback; true if it completed an observation. */
    method MaybeAddObservation(ps: seq<PacketResult>) returns (added: bool)
      requires Valid()
      modifies this, observations
      ensures Valid()
      ensures View() == RingStep(old(View()), Feedback(ps)) && PlainView() == PlainStep(old(PlainView()), Feedback(ps))
      ensures ledger == LedgerStep(old(ledger), Feedback(ps))
      ensures added <==> numObservations == old(numObservations) + 1
      ensures added ==> BoundIsCurrent()
      ensures !added ==> cachedInstantUpperBound == old(cachedInstantUpperBound)
      ensures maxBitrate == old(maxBitrate) && minBitrate == old(minBitrate) && wasInAlr == old(wasInAlr)
    {
      var o := StageFeedback(ps);
      if o.None? {
        return false;
      }
      Store(o.value);
      var bound := CalculateInstantUpperBound();
      cachedInstantUpperBound := Some(bound);
      added := true;
    }

    // One pass over the slots, adding up two weighted quantities.
    method WeightedSums(f: Observation -> real, g: Observation -> real) returns (sumF: real, sumG: real)
      requires Valid()
      ensures InBounds(observations[..], numObservations)
      ensures sumF == SlotSum(observations[..], numObservations, f, WINDOW_SIZE)
      ensures sumG == SlotSum(observations[..], numObservations, g, WINDOW_SIZE)
    {
      RingSumIsDecayed(observations[..], numObservations, history, f);
      sumF, sumG := SumSlots(observations, temporalWeights, numObservations, f, g);
    }

    /** The decayed share of lost bytes; every weight index is in bounds. */
    method AverageReportedLossRatio() returns (ratio: real)
      requires Valid()
      ensures InBounds(observations[..], numObservations) && ratio == LossRatio(observations[..], numObservations)
      ensures 0.0 <= ratio <= 1.0
      ensures ratio == Share(Decayed(history, LostOf, WINDOW_SIZE), Decayed(history, SizeOf, WINDOW_SIZE))
    {
      RefinedRatio(observations[..], numObservations, history);
      var total, lost := WeightedSums(SizeOf, LostOf);
      ratio := if total == 0.0 then 0.0 else lost / total;
    }

    /** The bound for right now. The high-loss case cannot occur, so nothing can panic here. */
    method CalculateInstantUpperBound() returns (limit: Rate)
      requires Valid()
      ensures InBounds(observations[..], numObservations)
      ensures InstantBound(LossRatio(observations[..], numObservations), maxBitrate, minBitrate) == Done(limit)
      ensures Balances(Done(limit), LossRatio(observations[..], numObservations), maxBitrate)
      ensures AtLeast(maxBitrate, BANDWIDTH_BALANCE / 0.95) ==> AtLeast(limit, BANDWIDTH_BALANCE / 0.95)
    {
      limit := maxBitrate;
      var ratio := AverageReportedLossRatio();
      RatioBalances(ratio, maxBitrate, minBitrate);
      if ratio > LOSS_OFFSET {
        limit := Finite(BANDWIDTH_BALANCE / (ratio - LOSS_OFFSET));
        QuotientBound(ratio);
      }
    }

    /** First and second derivative of the likelihood at a candidate. */
    method ComputeDerivatives(c: Channel) returns (d: Derivatives)
      requires Valid()
      ensures InBounds(observations[..], numObservations)
      ensures d == GetDerivatives(observations[..], numObservations, c)
      ensures d.second < 0.0
    {
      var slope, curvature := WeightedSums(SlopeIn(c), CurvatureIn(c));
      var second := -curvature;
      if second >= 0.0 {
        second := SAFE_SECOND_DERIVATIVE;
      }
      d := Derivatives(slope, second);
    }

    method NewtonsMethodUpdate(c: Channel) returns (c': Channel)
      requires Valid()
      ensures InBounds(observations[..], numObservations)
      ensures c' == NewtonUpdate(observations[..], numObservations, c)
      ensures numObservations > 0 && ValidBandwidth(c.bandwidth) ==> ValidChannel(c')
    {
      RingSumIsDecayed(observations[..], numObservations, history, SizeOf);
      c' := c;
      if numObservations == 0 {
        return;
      }
      var d := ComputeDerivatives(c);
      c' := c'.(inherentLoss := c'.inherentLoss - NEWTON_STEP_SIZE * (d.first / d.second));
      c' := c'.(inherentLoss := FeasibleLoss(c'));
    }
  }

  // Skips the slots that hold nothing; the age of the others picks their weight.
  method SumSlots(slots: array<Observation>, weights: array<real>, num: nat, f: Observation -> real,
                  g: Observation -> real)
    returns (sumF: real, sumG: real)
    requires InBounds(slots[..], num) && weights.Length == WINDOW_SIZE
    requires forall i :: 0 <= i < WINDOW_SIZE ==> weights[i] == Weight(i)
    ensures sumF == SlotSum(slots[..], num, f, slots.Length)
    ensures sumG == SlotSum(slots[..], num, g, slots.Length)
  {
    sumF, sumG := 0.0, 0.0;
    for j := 0 to slots.Length
      invariant sumF == SlotSum(slots[..], num, f, j)
      invariant sumG == SlotSum(slots[..], num, g, j)
    {
      var o := slots[j];
      assert o == slots[..][j];
      if !o.isInitialized {
        continue;
      }
      var w := weights[num - 1 - o.id];
      SlotSumStep(slots[..], num, f, j, w);
      SlotSumStep(slots[..], num, g, j, w);
      sumF := sumF + Scaled(w, f(o));
      sumG := sumG + Scaled(w, g(o));
    }
  }

  /** One pass over a feedback counts its packets and bytes, and those of the lost ones, and finds the latest. */
  method SummarizeAll(ps: seq<PacketResult>) returns (s: Summary)
    requires ps != []
    ensures s == Summarize(ps, |ps|)
    ensures s.partial == Counted(ps) && IsLatest(ps, s.lastSendTime)
  {
    SummaryOf(ps);
    s := Summary(EMPTY_PARTIAL, ps[0].sendTime);
    for n := 0 to |ps|
      invariant s == Summarize(ps, n)
    {
      s := AddPacket(s, ps[n]);
    }
  }
}
