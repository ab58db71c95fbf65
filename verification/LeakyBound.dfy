/**
 The rate bound of the leaky bucket: with paced media only and the rate unchanged, the
 bytes sent between two timeouts exceed what the rate allows by at most the pacing
 interval and one packet.
 */
module LeakyBound {
  import opened Prelude
  import opened PacerQueues
  import opened ProbeCluster
  import opened LeakyBucket

  // A packet above 460 ms worth of the rate could hit the cap on the debt.
  const MAX_PACKET_IN_TIME: real := 0.46

  lemma BytesAdd(rate: Rate, a: real, b: real)
    ensures Bytes(rate, a + b) == Bytes(rate, a) + Bytes(rate, b)
  {
  }

  lemma BytesMono(rate: Rate, a: real, b: real)
    requires rate >= 0.0 && a <= b
    ensures Bytes(rate, a) <= Bytes(rate, b)
  {
    assert rate * (b - a) >= 0.0;
  }

  lemma DrainWithin(size: Size, rate: Rate, d: real)
    requires rate > 0.0 && DrainTime(size, rate) <= d
    ensures size <= Bytes(rate, d)
  {
    var q := size * 8.0 / rate;
    assert q * rate == size * 8.0;
    assert (d - q) * rate >= 0.0;
  }

  /** The media of the bound: no queue has an unpaced packet waiting. */
  ghost predicate NoUnpaced(qs: seq<QueueState>) {
    forall i :: 0 <= i < |qs| ==> !(qs[i].unpaced && qs[i].snapshot.firstUnsent.Some?)
  }

  /** Actions of the bound: rate stays at `rate`, no probe and no padding, packets not too big. */
  ghost predicate Quiet(p: Pacer, a: Action, rate: Rate, maxPacket: Size) {
    match a
    case Tick(now, queues, probe) =>
      && NoUnpaced(queues) && probe.None?
      && (p.lastHandle.Some? ==> p.lastHandle.value <= now)
      && Prepared(p, now, queues).adjustedBitrate == rate
    case Poll(_, receipt) =>
      receipt.Some? ==> 0.0 <= receipt.value <= maxPacket && receipt.value <= Bytes(rate, MAX_PACKET_IN_TIME)
    case SetRates(_, padding) => padding == 0.0
  }

  /** How many actions of a run fall outside the conditions of the bound. */
  ghost function Disturbances(p: Pacer, actions: seq<Action>, rate: Rate, maxPacket: Size): nat {
    if actions == [] then 0 else
      var n := |actions| - 1;
      Disturbances(p, actions[..n], rate, maxPacket) +
      if Quiet(RunFrom(p, actions[..n]), actions[n], rate, maxPacket) then 0 else 1
  }

  function SentBy(p: Pacer, a: Action): Size {
    if a.Poll? && SessionPoll(p, a.at, a.receipt).1.Some? then SessionPoll(p, a.at, a.receipt).1.value else 0.0
  }

  /** The bytes sent in a run. */
  function Sent(p: Pacer, actions: seq<Action>): Size {
    if actions == [] then 0.0 else
      var n := |actions| - 1;
      Sent(p, actions[..n]) + SentBy(RunFrom(p, actions[..n]), actions[n])
  }

  // Paced media only, at a given rate. A queue may be on offer from before, at any debt.
  ghost predicate Steady(p: Pacer, rate: Rate) {
    p.adjustedBitrate == rate && p.paddingBitrate == 0.0 && p.probes == [] && p.mediaDebt >= 0.0
  }

  // A queue is on offer only while the debt is within the pacing interval.
  ghost predicate OffersInTime(p: Pacer, rate: Rate) {
    p.nextPollQueue.Some? ==> p.mediaDebt <= Bytes(rate, PACING)
  }

  // Without probes and padding rate no padding is requested.
  lemma NoPaddingRequest(p: Pacer, now: Time)
    requires p.probes == [] && p.paddingBitrate == 0.0
    ensures var (p1, r) := RequestPadding(p, now);
            r.None? && p1 == p.(hasPaddingQueue := p1.hasPaddingQueue)
  {
  }

  lemma {:induction false} PollIsPaced(p: Pacer, now: Time)
    requires NoUnpaced(p.queues) && p.probes == [] && p.paddingBitrate == 0.0 && p.lastHandle == Some(now)
    requires p.lastEmitted.Some? && p.adjustedBitrate >= 0.0
    ensures var next := FindNextPoll(p, now);
            next.Some? && next.value.at <= now ==> p.mediaDebt <= Bytes(p.adjustedBitrate, PACING)
  {
    var qs := p.queues;
    assert FirstMin(UnpacedKeys(qs), |qs|).None? by {
      forall i | 0 <= i < |qs| ensures UnpacedKeys(qs)[i].None? {}
    }
    if p.adjustedBitrate > 0.0 && DrainTime(p.mediaDebt, p.adjustedBitrate) <= PACING {
      DrainWithin(p.mediaDebt, p.adjustedBitrate, PACING);
    }
  }

  // What draining does to the debt.
  lemma PreparedDebt(p: Pacer, now: Time, queues: seq<QueueState>)
    requires p.mediaDebt >= 0.0 && p.adjustedBitrate >= 0.0
    ensures var q := Prepared(p, now, queues);
            && 0.0 <= q.mediaDebt <= p.mediaDebt <= q.mediaDebt + Bytes(p.adjustedBitrate, Elapsed(p, now))
  {
    BytesMono(p.adjustedBitrate, 0.0, Elapsed(p, now));
  }

  // With nothing to pad and no probe, a timeout only decides whether a queue is on offer.
  lemma {:induction false} QuietHandle(p: Pacer, now: Time, queues: seq<QueueState>)
    requires p.probes == [] && p.paddingBitrate == 0.0
    ensures var q, p' := Prepared(p, now, queues), HandleTimeout(p, now, queues).0;
            && p'.adjustedBitrate == q.adjustedBitrate
            && p'.paddingBitrate == 0.0 && p'.probes == [] && p'.mediaDebt == q.mediaDebt
            && p'.lastEmitted == p.lastEmitted && p'.lastHandle == Some(now)
            && (p'.nextPollQueue.Some? ==>
                  p.nextPollQueue.Some? ||
                  var next := FindNextPoll(RequestPadding(q, now).0, now); next.Some? && next.value.at <= now)
  {
    NoPaddingRequest(Prepared(p, now, queues), now);
  }

  // Without probes there is only a parked one to collect.
  lemma NothingToPop(p: Pacer)
    requires p.probes == []
    ensures CheckProbeComplete(p).0 == p.(completedProbe := None)
  {
  }

  lemma {:induction false} QuietTimeout(p: Pacer, now: Time, queues: seq<QueueState>)
    requires p.probes == [] && p.paddingBitrate == 0.0
    ensures var p1 := HandleTimeout(p, now, queues).0;
            p1.probes == [] && Act(p, Tick(now, queues, None)) == p1.(completedProbe := None)
  {
    QuietHandle(p, now, queues);
    NothingToPop(HandleTimeout(p, now, queues).0);
  }

  /** A timeout drains at most the rate; once something was sent it offers a queue only in time. */
  lemma {:induction false} TickPaces(p: Pacer, now: Time, queues: seq<QueueState>, rate: Rate)
    requires rate >= 0.0 && Steady(p, rate)
    requires Quiet(p, Tick(now, queues, None), rate, 0.0)
    ensures var p' := Act(p, Tick(now, queues, None));
            && Steady(p', rate) && p'.lastHandle == Some(now) && p'.lastEmitted == p.lastEmitted
            && p'.mediaDebt <= p.mediaDebt <= p'.mediaDebt + Bytes(rate, Elapsed(p, now))
            && (p.lastEmitted.Some? && OffersInTime(p, rate) ==> OffersInTime(p', rate))
  {
    var q := Prepared(p, now, queues);
    PreparedDebt(p, now, queues);
    QuietHandle(p, now, queues);
    QuietTimeout(p, now, queues);
    NoPaddingRequest(q, now);
    if p.lastEmitted.Some? {
      PollIsPaced(RequestPadding(q, now).0, now);
    }
  }

  /** A packet is in the debt afterwards: in full, and on top of the old debt if it was offered in time. */
  lemma {:induction false} PollPaces(p: Pacer, at: Time, receipt: Option<Size>, rate: Rate, maxPacket: Size)
    requires rate >= 0.0 && Steady(p, rate)
    requires Quiet(p, Poll(at, receipt), rate, maxPacket)
    ensures var p', sent := Act(p, Poll(at, receipt)), SentBy(p, Poll(at, receipt));
            && Steady(p', rate) && p'.lastHandle == p.lastHandle && 0.0 <= sent
            && (p.lastEmitted.Some? ==> p'.lastEmitted.Some?)
            && (p'.nextPollQueue.Some? ==> p' == p)
            && (sent > 0.0 ==>
                  p'.lastEmitted.Some? && p.nextPollQueue.Some? && sent <= maxPacket && sent <= p'.mediaDebt)
            && (OffersInTime(p, rate) ==> p'.mediaDebt == p.mediaDebt + sent)
  {
    BytesAdd(rate, PACING, MAX_PACKET_IN_TIME);
    BytesMono(rate, 0.0, PACING);
    BytesMono(rate, MAX_PACKET_IN_TIME, MAX_DEBT_IN_TIME);
    assert PACING + MAX_PACKET_IN_TIME == MAX_DEBT_IN_TIME;
  }

  /** What may be sent from one timeout to another one. */
  function Allowance(rate: Rate, since: Time, until: Time, maxPacket: Size): Size {
    Bytes(rate, (until - since) + PACING) + maxPacket
  }

  // Where a window of quiet actions stands: what was sent is in the debt or has drained.
  ghost predicate Window(since: Time, p: Pacer, sent: Size, rate: Rate, maxPacket: Size) {
    && Steady(p, rate) && p.lastHandle.Some? && since <= p.lastHandle.value
    && sent >= 0.0
    && (sent > 0.0 ==>
          && p.lastEmitted.Some? && OffersInTime(p, rate)
          && sent <= Bytes(rate, p.lastHandle.value - since) + p.mediaDebt
          && sent <= Allowance(rate, since, p.lastHandle.value, maxPacket))
  }

  lemma {:induction false} WindowTick(since: Time, p: Pacer, now: Time, queues: seq<QueueState>, sent: Size, rate: Rate,
                                      maxPacket: Size)
    requires rate >= 0.0 && Window(since, p, sent, rate, maxPacket)
    requires Quiet(p, Tick(now, queues, None), rate, maxPacket)
    ensures Window(since, Act(p, Tick(now, queues, None)), sent, rate, maxPacket)
  {
    TickPaces(p, now, queues, rate);
    var t := p.lastHandle.value;
    BytesAdd(rate, t - since, now - t);
    BytesMono(rate, (t - since) + PACING, (now - since) + PACING);
  }

  lemma {:induction false} WindowPoll(since: Time, p: Pacer, at: Time, receipt: Option<Size>, sent: Size, rate: Rate,
                                      maxPacket: Size)
    requires rate >= 0.0 && Window(since, p, sent, rate, maxPacket)
    requires Quiet(p, Poll(at, receipt), rate, maxPacket)
    ensures Window(since, Act(p, Poll(at, receipt)), sent + SentBy(p, Poll(at, receipt)), rate, maxPacket)
  {
    PollPaces(p, at, receipt, rate, maxPacket);
    var t := p.lastHandle.value - since;
    BytesAdd(rate, t, PACING);
    BytesMono(rate, 0.0, t);
    BytesMono(rate, 0.0, PACING);
  }

  lemma {:induction false} WindowStep(since: Time, p: Pacer, a: Action, sent: Size, rate: Rate, maxPacket: Size)
    requires rate >= 0.0 && Window(since, p, sent, rate, maxPacket) && Quiet(p, a, rate, maxPacket)
    ensures Window(since, Act(p, a), sent + SentBy(p, a), rate, maxPacket)
  {
    match a
    case Tick(now, queues, probe) => WindowTick(since, p, now, queues, sent, rate, maxPacket);
    case Poll(at, receipt) => WindowPoll(since, p, at, receipt, sent, rate, maxPacket);
    case SetRates(_, _) =>
  }

  // The latest timeout of a steady pacer.
  ghost function SteadySince(p: Pacer, rate: Rate): Option<Time> {
    if Steady(p, rate) then p.lastHandle else None
  }

  /** Over any run of quiet actions what was sent is in the debt or has drained, within the allowance. */
  lemma {:induction false} WindowRun(p: Pacer, since: Time, actions: seq<Action>, rate: Rate, maxPacket: Size)
    requires rate >= 0.0 && SteadySince(p, rate) == Some(since)
    requires Disturbances(p, actions, rate, maxPacket) == 0
    ensures Window(since, RunFrom(p, actions), Sent(p, actions), rate, maxPacket)
  {
    if actions != [] {
      var n := |actions| - 1;
      WindowRun(p, since, actions[..n], rate, maxPacket);
      WindowStep(since, RunFrom(p, actions[..n]), actions[n], Sent(p, actions[..n]), rate, maxPacket);
    }
  }

  predicate EndsInTick(actions: seq<Action>) {
    actions != [] && actions[|actions| - 1].Tick?
  }

  function LastTick(actions: seq<Action>): Time
    requires EndsInTick(actions)
  {
    actions[|actions| - 1].now
  }

  lemma PaddingKeepsTime(p: Pacer, now: Time)
    ensures var q := RequestPadding(p, now).0; q.lastHandle == p.lastHandle && q.mediaDebt == p.mediaDebt
  {
  }

  lemma TimeoutSetsTime(p: Pacer, now: Time, queues: seq<QueueState>)
    ensures var q := HandleTimeout(p, now, queues).0; q.lastHandle == Some(now) && q.mediaDebt >= 0.0
  {
    PaddingKeepsTime(Prepared(p, now, queues), now);
  }

  // Whatever went before, a timeout leaves no negative debt.
  lemma ActSetsTime(p: Pacer, a: Action)
    requires a.Tick?
    ensures Act(p, a).lastHandle == Some(a.now) && Act(p, a).mediaDebt >= 0.0
  {
    TimeoutSetsTime(p, a.now, a.queues);
  }

  lemma TickSetsTime(p: Pacer, actions: seq<Action>)
    requires EndsInTick(actions)
    ensures RunFrom(p, actions).lastHandle == Some(LastTick(actions)) && RunFrom(p, actions).mediaDebt >= 0.0
  {
    ActSetsTime(RunFrom(p, actions[..|actions| - 1]), actions[|actions| - 1]);
  }

  /** The time of the last timeout of a window, if the window stays within the conditions of the bound. */
  ghost function QuietUntil(p: Pacer, window: seq<Action>, rate: Rate, maxPacket: Size): Option<Time> {
    if EndsInTick(window) && Disturbances(p, window, rate, maxPacket) == 0 then Some(LastTick(window)) else None
  }

  lemma {:induction false} SentInWindow(p: Pacer, since: Time, window: seq<Action>, until: Time, rate: Rate,
                                        maxPacket: Size)
    requires rate >= 0.0 && maxPacket >= 0.0
    requires SteadySince(p, rate) == Some(since) && QuietUntil(p, window, rate, maxPacket) == Some(until)
    ensures Sent(p, window) <= Allowance(rate, since, until, maxPacket)
  {
    var p', sent := WindowEnd(p, since, window, rate, maxPacket);
    AllowanceIsPositive(rate, since, until, maxPacket);
  }

  lemma AllowanceIsPositive(rate: Rate, since: Time, until: Time, maxPacket: Size)
    requires rate >= 0.0 && maxPacket >= 0.0 && since <= until
    ensures Allowance(rate, since, until, maxPacket) >= 0.0
  {
    BytesMono(rate, 0.0, (until - since) + PACING);
  }

  lemma {:induction false} WindowEnd(p: Pacer, since: Time, window: seq<Action>, rate: Rate, maxPacket: Size)
    returns (p': Pacer, sent: Size)
    requires rate >= 0.0 && SteadySince(p, rate) == Some(since)
    requires QuietUntil(p, window, rate, maxPacket).Some?
    ensures sent == Sent(p, window) && p'.lastHandle == QuietUntil(p, window, rate, maxPacket)
    ensures Window(since, p', sent, rate, maxPacket)
  {
    p', sent := RunFrom(p, window), Sent(p, window);
    WindowRun(p, since, window, rate, maxPacket);
    TickSetsTime(p, window);
  }

  // The rate in force and the time, once a history has ended in a timeout without probe and padding.
  ghost function SettledAt(start: Rate, before: seq<Action>, rate: Rate): Option<Time> {
    var p := RunFrom(NewPacer(start), before);
    if EndsInTick(before) && p.adjustedBitrate == rate && p.paddingBitrate == 0.0 && p.probes == [] then
      Some(LastTick(before))
    else
      None
  }

  lemma {:induction false} SettledIsSteady(start: Rate, before: seq<Action>, since: Time, rate: Rate)
    requires SettledAt(start, before, rate) == Some(since)
    ensures SteadySince(RunFrom(NewPacer(start), before), rate) == Some(since)
  {
    TickSetsTime(NewPacer(start), before);
  }

  /**
   The bound. Let any history of the pacer, with whatever rates, probes and padding, have led to
   a timeout at which the rate is `rate` and neither probe nor padding rate is left. While the
   rate then stays, with paced media only, at most rate * (T + 40 ms) plus one packet is sent
   until a timeout T later.
   */
  lemma {:induction false} SentIsBounded(start: Rate, before: seq<Action>, since: Time, window: seq<Action>,
                                         until: Time, rate: Rate, maxPacket: Size)
    requires rate >= 0.0 && maxPacket >= 0.0
    requires SettledAt(start, before, rate) == Some(since)
    requires QuietUntil(RunFrom(NewPacer(start), before), window, rate, maxPacket) == Some(until)
    ensures Sent(RunFrom(NewPacer(start), before), window) <= Allowance(rate, since, until, maxPacket)
  {
    SettledIsSteady(start, before, since, rate);
    SentInWindow(RunFrom(NewPacer(start), before), since, window, until, rate, maxPacket);
  }

  lemma DrainIff(size: Size, rate: Rate, d: real)
    requires rate > 0.0
    ensures DrainTime(size, rate) <= d <==> size <= Bytes(rate, d)
  {
    if DrainTime(size, rate) <= d {
      DrainWithin(size, rate, d);
    } else {
      var q := size * 8.0 / rate;
      assert q * rate == size * 8.0;
      assert (q - d) * rate > 0.0;
    }
  }

  // Both debts are gone after that long.
  ghost predicate Drained(p: Pacer, d: real) {
    && (p.adjustedBitrate > 0.0 ==> p.mediaDebt <= Bytes(p.adjustedBitrate, d))
    && p.paddingDebt <= Bytes(p.paddingBitrate, d)
  }

  /**
   Without a probe the next padding is planned for the first moment at which both debts have
   drained, but at least a microsecond ahead, and offers no queue yet.
   */
  lemma {:induction false} PaddingWaitsForDebt(p: Pacer, now: Time, t: Time)
    requires p.probes == [] && p.paddingBitrate > 0.0 && HasPaddingQueue(p.queues) && p.lastHandle == Some(t)
    requires p.adjustedBitrate >= 0.0 && p.mediaDebt >= 0.0 && p.paddingDebt >= 0.0
    ensures var next := FindPaddingPoll(p, now);
            && next.Some? && next.value.queue.None? && next.value.at > t && Drained(p, next.value.at - t)
            && forall d :: 0.0 <= d && Drained(p, d) ==> next.value.at <= t + Max(d, MICROSECOND)
  {
    var at := FindPaddingPoll(p, now).value.at;
    var drain := Max(DrainTime(p.mediaDebt, p.adjustedBitrate), DrainTime(p.paddingDebt, p.paddingBitrate));
    forall d: real | d >= 0.0 ensures Drained(p, d) <==> drain <= d
    {
      DrainIff(p.paddingDebt, p.paddingBitrate, d);
      if p.adjustedBitrate > 0.0 {
        DrainIff(p.mediaDebt, p.adjustedBitrate, d);
      }
    }
    DrainIsPositive(p.mediaDebt, p.adjustedBitrate);
    DrainIsPositive(p.paddingDebt, p.paddingBitrate);
    assert Drained(p, at - t);
  }

  lemma DrainIsPositive(size: Size, rate: Rate)
    requires size >= 0.0 && rate >= 0.0
    ensures DrainTime(size, rate) >= 0.0
  {
    if rate > 0.0 {
      var q := size * 8.0 / rate;
      assert q * rate == size * 8.0;
    }
  }

  // A rate is above what drains the bytes in time exactly when the bytes are fewer.
  lemma RateFor(size: Size, wait: real, rate: Rate)
    requires wait > 0.0
    ensures size * 8.0 / wait > rate <==> size > Bytes(rate, wait)
    ensures size == Bytes(size * 8.0 / wait, wait)
  {
    var q := size * 8.0 / wait;
    assert q * wait == size * 8.0;
    if q > rate {
      assert (q - rate) * wait > 0.0;
    } else {
      assert (rate - q) * wait >= 0.0;
    }
  }

  /**
   The adjusted rate is the base rate if that drains the queues within the time they have
   left, else exactly the rate that does, else the maximum, when even that is too slow.
   */
  lemma {:induction false} AdjustedRateDrains(p: Pacer, now: Time)
    requires BaseRate(p) >= 0.0
    ensures var r, b := AdjustedRate(p, now), BacklogOf(p.queues, now, |p.queues|);
            if b.packets == 0 || b.size <= Bytes(BaseRate(p), QueueWait(b)) then r == BaseRate(p)
            else if b.size <= Bytes(MAX_BITRATE, QueueWait(b)) then r > BaseRate(p) && b.size == Bytes(r, QueueWait(b))
            else r == MAX_BITRATE
  {
    var b := BacklogOf(p.queues, now, |p.queues|);
    if b.packets > 0 {
      RateFor(b.size, QueueWait(b), BaseRate(p));
      RateFor(b.size, QueueWait(b), MAX_BITRATE);
    }
  }

  /** The time that is left: what is missing to an average wait of 2 s, but at least a millisecond. */
  ghost predicate IsTimeLeft(b: Backlog, wait: real) {
    var n := b.packets as real;
    if b.queueTime + 0.001 * n <= 2.0 * n then wait * n + b.queueTime == 2.0 * n else wait == 0.001
  }

  lemma AverageBelow(avg: real, n: real, total: real, bound: real)
    requires n > 0.0 && avg * n == total
    ensures total <= bound * n <==> avg <= bound
  {
    if avg <= bound {
      assert (bound - avg) * n >= 0.0;
    } else {
      assert (avg - bound) * n > 0.0;
    }
  }

  lemma {:induction false} TimeLeftIs(b: Backlog)
    requires b.packets > 0
    ensures IsTimeLeft(b, QueueWait(b))
  {
    var n := b.packets as real;
    var avg := b.queueTime / n;
    assert avg * n == b.queueTime;
    AverageBelow(avg, n, b.queueTime, 1.999);
  }

  /**
   The rate in force: the target of the active probe, or else the pacing rate, if that empties the
   queues in the time left; otherwise just the rate that does, up to the maximum.
   */
  ghost predicate RateIsRight(p: Pacer, now: Time, r: Rate) {
    var base := if p.probes != [] then p.probes[0].config.targetBitrate else p.pacingBitrate;
    var b := BacklogOf(p.queues, now, |p.queues|);
    if b.packets == 0 then r == base
    else exists wait :: IsTimeLeft(b, wait) && DrainsIn(b.size, wait, base, r)
  }

  ghost predicate DrainsIn(size: Size, wait: real, base: Rate, r: Rate) {
    if size <= Bytes(base, wait) then r == base
    else if size <= Bytes(MAX_BITRATE, wait) then r > base && size == Bytes(r, wait)
    else r == MAX_BITRATE
  }

  lemma {:induction false} AdjustedRateIs(p: Pacer, now: Time)
    requires BaseRate(p) >= 0.0
    ensures RateIsRight(p, now, AdjustedRate(p, now))
  {
    AdjustedRateDrains(p, now);
    var b := BacklogOf(p.queues, now, |p.queues|);
    if b.packets > 0 {
      TimeLeftIs(b);
      assert DrainsIn(b.size, QueueWait(b), BaseRate(p), AdjustedRate(p, now));
    }
  }

  /**
   When paced media waits and nothing else does, a timeout puts a queue on offer exactly when
   the drained debt is within the pacing interval: the one of the most important, least
   recently served non-empty queues.
   */
  lemma {:induction false} PacedReleaseIff(p: Pacer, now: Time, queues: seq<QueueState>)
    requires NoUnpaced(queues) && !AllEmpty(queues) && p.probes == [] && p.nextPollQueue.None? && p.lastEmitted.Some?
    requires AdjustedRate(Prepared(p, now, queues), now) > 0.0
    ensures var q, p' := Prepared(p, now, queues), HandleTimeout(p, now, queues).0;
            && (p'.nextPollQueue.Some? <==> q.mediaDebt <= Bytes(q.adjustedBitrate, PACING))
            && (p'.nextPollQueue.Some? ==>
                  && PollQueue(p').1.Some?
                  && exists k :: IsFirstMin(MediaKeys(queues), |queues|, k) &&
                                 p'.nextPollQueue == Some(queues[k].midrid))
  {
    var q := Prepared(p, now, queues);
    assert RequestPadding(q, now) == (q, None);
    assert q.adjustedBitrate == AdjustedRate(q, now);
    assert FirstMin(UnpacedKeys(queues), |queues|).None? by {
      forall i | 0 <= i < |queues| ensures UnpacedKeys(queues)[i].None? {}
    }
    var i :| 0 <= i < |queues| && queues[i].snapshot.packetCount > 0;
    assert MediaKeys(queues)[i].Some?;
    var k := FirstMin(MediaKeys(queues), |queues|).value;
    assert IsFirstMin(MediaKeys(queues), |queues|, k);
    DrainIff(q.mediaDebt, q.adjustedBitrate, PACING);
  }
}
