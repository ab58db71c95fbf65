/**
 How long things wait in the leaky bucket: waiting media is on offer at the time the pacer has
 announced, padding keeps its distance from what was sent, and the backlog that raises the rate
 is what the queued packets have waited.
 */
module LeakyWaits {
  import opened Prelude
  import opened PacerQueues
  import opened ProbeCluster
  import opened LeakyBucket
  import opened LeakyBound
  import opened LeakyOffers

  // ---- The announced time is kept ----

  lemma {:induction false} BacklogCounts(qs: seq<QueueState>, now: Time, later: Time, n: nat)
    requires n <= |qs|
    ensures var a, b := BacklogOf(qs, now, n), BacklogOf(qs, later, n); a.packets == b.packets && a.size == b.size
  {
    if n > 0 {
      BacklogCounts(qs, now, later, n - 1);
    }
  }

  // Time alone does not bring the rate down to zero.
  lemma {:induction false} RateStaysPositive(p: Pacer, q: Pacer, now: Time, later: Time)
    requires BaseRate(p) >= 0.0 && BaseRate(q) == BaseRate(p) && q.queues == p.queues && AdjustedRate(p, now) > 0.0
    ensures AdjustedRate(q, later) > 0.0
  {
    BacklogCounts(p.queues, now, later, |p.queues|);
    AdjustedRateDrains(p, now);
    AdjustedRateDrains(q, later);
  }

  // Something is on offer, or it is announced for a later time and not for padding.
  ghost predicate Announces(q: Pacer, at: Time) {
    && q.nextPollTime.Some? && q.nextPollTime.value.0 == at
    && q.nextPollTime.value.1 in {FirstEver, Unpaced, Paced, Probe1}
  }

  lemma {:induction false} UnpacedOnTime(q: Pacer, now: Time, r: Pacer, at: Time)
    requires OfferIsRight(q, now) && q.lastEmitted.Some? && !NoUnpaced(q.queues) && Announces(q, at)
    requires r.queues == q.queues && r.lastEmitted == q.lastEmitted && OfferIsRight(r, at)
    ensures r.nextPollQueue.Some?
  {
    var i :| OldestUnpaced(q.queues, i) && OfferedFrom(q, now, q.queues[i].snapshot.firstUnsent.value, Unpaced, i);
    var k :| OldestUnpaced(r.queues, k) && OfferedFrom(r, at, r.queues[k].snapshot.firstUnsent.value, Unpaced, k);
    assert WaitsUnpaced(q.queues[i]) && WaitsUnpaced(q.queues[k]);
  }

  lemma {:induction false} MediaOnTime(q: Pacer, now: Time, r: Pacer, at: Time)
    requires OfferIsRight(q, now) && Sound(q) && q.lastEmitted.Some? && NoUnpaced(q.queues) && Announces(q, at)
    requires !AllEmpty(q.queues) && q.adjustedBitrate > 0.0 && q.nextPollQueue.None? && q.lastHandle == Some(now)
    requires Settles(q, at, q.queues, r) && r.probes == q.probes && r.adjustedBitrate > 0.0 && OfferIsRight(r, at)
    ensures r.nextPollQueue.Some?
  {
    assert MediaDue(q, now) && MediaDue(r, at);
    if q.probes == [] {
      assert at > now && q.mediaDebt == Bytes(q.adjustedBitrate, at - now);
      assert r.mediaDebt == 0.0;
      BytesMono(r.adjustedBitrate, 0.0, PACING);
    } else {
      assert ProbeDue(q.probes[0], at);
    }
  }

  /**
   Media that waits is on offer at the announced time: if a timeout plans the next poll for `at`
   and the queues are the same then, the timeout at `at` leaves a queue on offer.
   */
  lemma {:induction false} AnnouncedIsOffered(p: Pacer, now: Time, queues: seq<QueueState>, at: Time)
    requires Sound(p) && p.lastEmitted.Some?
    requires Announces(HandleTimeout(p, now, queues).0, at)
    ensures HandleTimeout(HandleTimeout(p, now, queues).0, at, queues).0.nextPollQueue.Some?
  {
    var (q, request) := HandleTimeout(p, now, queues);
    TimeoutOffers(p, now, queues);
    StaysSound(p, now, queues);
    TimeoutOffers(q, at, queues);
    var r := HandleTimeout(q, at, queues).0;
    if q.nextPollQueue.None? && HandleTimeout(q, at, queues).1.None? {
      if !NoUnpaced(queues) {
        UnpacedOnTime(q, now, r, at);
      } else {
        assert !AllEmpty(queues) && q.adjustedBitrate > 0.0;
        RateStaysPositive(p.(queues := queues), q, now, at);
        assert q.(queues := queues) == q;
        MediaOnTime(q, now, r, at);
      }
    }
  }

  lemma {:induction false} StaysSound(p: Pacer, now: Time, queues: seq<QueueState>)
    requires Sound(p)
    ensures Sound(HandleTimeout(p, now, queues).0)
  {
    TimeoutOffers(p, now, queues);
    AdjustedRateDrains(p.(queues := queues), now);
    PaddingFrame(Prepared(p, now, queues), now);
  }

  // ---- The distance of padding ----

  // The padding rate stays, and time does not run backwards.
  ghost predicate Calm(p: Pacer, a: Action, rate: Rate) {
    match a
    case Tick(now, _, _) => p.lastHandle.Some? && p.lastHandle.value <= now
    case Poll(_, receipt) => receipt.Some? ==> receipt.value >= 0.0
    case SetRates(_, padding) => padding == rate
  }

  ghost predicate CalmRun(p: Pacer, actions: seq<Action>, rate: Rate) {
    actions == [] ||
    var n := |actions| - 1;
    CalmRun(p, actions[..n], rate) && Calm(RunFrom(p, actions[..n]), actions[n], rate)
  }

  // What is left of a padding debt, at most, after so much time.
  ghost predicate Owes(p: Pacer, since: Time, debt: Size, rate: Rate) {
    && p.paddingBitrate == rate && p.lastHandle.Some? && since <= p.lastHandle.value
    && 0.0 <= p.paddingDebt <= Bytes(rate, MAX_DEBT_IN_TIME)
    && p.paddingDebt + Bytes(rate, p.lastHandle.value - since) >= debt
  }

  lemma TimeoutPadding(p: Pacer, now: Time, queues: seq<QueueState>)
    ensures var q := HandleTimeout(p, now, queues).0;
            && q.paddingBitrate == p.paddingBitrate && q.lastHandle == Some(now)
            && q.paddingDebt == Max(p.paddingDebt - Bytes(p.paddingBitrate, Elapsed(p, now)), 0.0)
  {
    PaddingFrame(Prepared(p, now, queues), now);
  }

  lemma CollectKeepsPadding(p: Pacer, probe: Option<ProbeConfig>)
    ensures var q := StartAndCollect(p, probe).0;
            q.paddingBitrate == p.paddingBitrate && q.lastHandle == p.lastHandle && q.paddingDebt == p.paddingDebt
  {
  }

  lemma TickPadding(p: Pacer, now: Time, queues: seq<QueueState>, probe: Option<ProbeConfig>)
    ensures var q := Act(p, Tick(now, queues, probe));
            && q.paddingBitrate == p.paddingBitrate && q.lastHandle == Some(now)
            && q.paddingDebt == Max(p.paddingDebt - Bytes(p.paddingBitrate, Elapsed(p, now)), 0.0)
  {
    TimeoutPadding(p, now, queues);
    CollectKeepsPadding(HandleTimeout(p, now, queues).0, probe);
  }

  lemma {:induction false} OwesTick(p: Pacer, now: Time, queues: seq<QueueState>, probe: Option<ProbeConfig>,
                                    since: Time, debt: Size, rate: Rate)
    requires rate >= 0.0 && Owes(p, since, debt, rate) && Calm(p, Tick(now, queues, probe), rate)
    ensures Owes(Act(p, Tick(now, queues, probe)), since, debt, rate)
  {
    TickPadding(p, now, queues, probe);
    BytesAdd(rate, p.lastHandle.value - since, now - p.lastHandle.value);
    BytesMono(rate, 0.0, now - p.lastHandle.value);
  }

  lemma {:induction false} OwesPoll(p: Pacer, at: Time, receipt: Option<Size>, since: Time, debt: Size, rate: Rate)
    requires rate >= 0.0 && Owes(p, since, debt, rate) && Calm(p, Poll(at, receipt), rate)
    ensures Owes(Act(p, Poll(at, receipt)), since, debt, rate)
  {
  }

  lemma {:induction false} OwesRun(p: Pacer, actions: seq<Action>, since: Time, debt: Size, rate: Rate)
    requires rate >= 0.0 && Owes(p, since, debt, rate) && CalmRun(p, actions, rate)
    ensures Owes(RunFrom(p, actions), since, debt, rate)
  {
    if actions != [] {
      var n := |actions| - 1;
      OwesRun(p, actions[..n], since, debt, rate);
      match actions[n]
      case Tick(now, queues, probe) => OwesTick(RunFrom(p, actions[..n]), now, queues, probe, since, debt, rate);
      case Poll(at, receipt) => OwesPoll(RunFrom(p, actions[..n]), at, receipt, since, debt, rate);
      case SetRates(_, _) =>
    }
  }

  lemma BytesStrict(rate: Rate, a: real, b: real)
    requires rate > 0.0 && a < b
    ensures Bytes(rate, a) < Bytes(rate, b)
  {
    assert rate * (b - a) > 0.0;
  }

  // A packet owes its size, or all that fits under the cap.
  lemma {:induction false} SendOwes(p: Pacer, since: Time, at: Time, size: Size, rate: Rate)
    requires rate >= 0.0 && p.paddingBitrate == rate && p.lastHandle == Some(since)
    requires p.paddingDebt >= 0.0 && size >= 0.0
    ensures Owes(RegisterSend(p, at, size), since, Min(size, Bytes(rate, MAX_DEBT_IN_TIME)), rate)
  {
    BytesMono(rate, 0.0, MAX_DEBT_IN_TIME);
  }

  // Padding outside a probe is requested only at a padding rate and without padding debt.
  lemma {:induction false} RequestIsDrained(p: Pacer, now: Time, queues: seq<QueueState>)
    requires p.probes == [] && HandleTimeout(p, now, queues).1.Some?
    ensures p.paddingBitrate != 0.0 && HandleTimeout(p, now, queues).0.paddingDebt == 0.0
  {
  }

  lemma OwesNothing(size: Size, elapsed: real, rate: Rate)
    requires rate > 0.0 && Bytes(rate, elapsed) >= Min(size, Bytes(rate, MAX_DEBT_IN_TIME))
    ensures size <= Bytes(rate, elapsed) || elapsed >= MAX_DEBT_IN_TIME
  {
    if elapsed < MAX_DEBT_IN_TIME {
      BytesStrict(rate, elapsed, MAX_DEBT_IN_TIME);
    }
  }

  // A window of calm actions after which a timeout requests padding, outside a probe.
  ghost predicate PadsAfter(p: Pacer, actions: seq<Action>, now: Time, queues: seq<QueueState>, rate: Rate) {
    && CalmRun(p, actions, rate)
    && var q := RunFrom(p, actions);
       q.probes == [] && Calm(q, Tick(now, queues, None), rate) && HandleTimeout(q, now, queues).1.Some?
  }

  lemma {:induction false} TimeoutOwes(q: Pacer, now: Time, queues: seq<QueueState>, since: Time, debt: Size,
                                       rate: Rate)
    requires rate >= 0.0 && Owes(q, since, debt, rate) && q.lastHandle.value <= now
    ensures HandleTimeout(q, now, queues).0.paddingDebt + Bytes(rate, now - since) >= debt
  {
    TimeoutPadding(q, now, queues);
    BytesAdd(rate, q.lastHandle.value - since, now - q.lastHandle.value);
  }

  lemma {:induction false} PadsDrained(p: Pacer, actions: seq<Action>, now: Time, queues: seq<QueueState>,
                                       since: Time, debt: Size, rate: Rate)
    requires rate >= 0.0 && Owes(p, since, debt, rate) && PadsAfter(p, actions, now, queues, rate)
    ensures rate > 0.0 && Bytes(rate, now - since) >= debt
  {
    OwesRun(p, actions, since, debt, rate);
    RequestIsDrained(RunFrom(p, actions), now, queues);
    TimeoutOwes(RunFrom(p, actions), now, queues, since, debt, rate);
  }

  /**
   Padding keeps its distance: after a packet, no timeout requests padding outside a probe before
   the padding rate has made up for the packet, or for 500 ms of itself, whatever happens meanwhile.
   */
  lemma {:induction false} PaddingKeepsDistance(p: Pacer, since: Time, at: Time, size: Size, actions: seq<Action>,
                                                now: Time, queues: seq<QueueState>, rate: Rate)
    requires rate >= 0.0 && p.paddingBitrate == rate && p.lastHandle == Some(since)
    requires p.paddingDebt >= 0.0 && size >= 0.0
    requires PadsAfter(RegisterSend(p, at, size), actions, now, queues, rate)
    ensures size <= Bytes(rate, now - since) || now - since >= MAX_DEBT_IN_TIME
  {
    SendOwes(p, since, at, size, rate);
    PadsDrained(RegisterSend(p, at, size), actions, now, queues, since, Min(size, Bytes(rate, MAX_DEBT_IN_TIME)), rate);
    OwesNothing(size, now - since, rate);
  }

  // ---- The backlog ----

  datatype Queued = Queued(at: Time, size: nat)

  function TotalSize(ps: seq<Queued>): nat {
    if ps == [] then 0 else TotalSize(ps[1..]) + ps[0].size
  }

  /** How long the packets have waited, together. */
  function TotalWait(ps: seq<Queued>, now: Time): real {
    if ps == [] then 0.0 else TotalWait(ps[1..], now) + (now - ps[0].at)
  }

  /** A snapshot taken of a queue that holds these packets. */
  ghost predicate Describes(s: Snapshot, ps: seq<Queued>) {
    s.packetCount == |ps| && s.byteSize == TotalSize(ps) && s.queueTimeOrigin == TotalWait(ps, s.createdAt)
  }

  function Flat(pss: seq<seq<Queued>>): seq<Queued> {
    if pss == [] then [] else Flat(pss[..|pss| - 1]) + pss[|pss| - 1]
  }

  lemma {:induction false} WaitGrows(ps: seq<Queued>, past: Time, now: Time)
    ensures TotalWait(ps, now) == TotalWait(ps, past) + |ps| as real * (now - past)
  {
    if ps != [] {
      WaitGrows(ps[1..], past, now);
    }
  }

  lemma {:induction false} TotalsConcat(xs: seq<Queued>, ys: seq<Queued>, now: Time)
    ensures TotalSize(xs + ys) == TotalSize(xs) + TotalSize(ys)
    ensures TotalWait(xs + ys, now) == TotalWait(xs, now) + TotalWait(ys, now)
  {
    if xs == [] {
      assert xs + ys == ys;
    } else {
      assert (xs + ys)[1..] == xs[1..] + ys;
      TotalsConcat(xs[1..], ys, now);
    }
  }

  lemma {:induction false} OneQueueWaits(s: Snapshot, ps: seq<Queued>, now: Time)
    requires Describes(s, ps) && s.createdAt <= now
    ensures s.queueTimeOrigin + s.packetCount as real * Max(now - s.createdAt, 0.0) == TotalWait(ps, now)
  {
    WaitGrows(ps, s.createdAt, now);
  }

  lemma FlatSnoc(pss: seq<seq<Queued>>, n: nat)
    requires 0 < n <= |pss|
    ensures Flat(pss[..n]) == Flat(pss[..n - 1]) + pss[n - 1]
  {
    assert pss[..n][..n - 1] == pss[..n - 1];
  }

  // A backlog is that of the packets.
  ghost predicate Sums(b: Backlog, ps: seq<Queued>, now: Time) {
    b.queueTime == TotalWait(ps, now) && b.packets == |ps| && b.size == TotalSize(ps) as real
  }

  lemma {:induction false} BacklogStep(qs: seq<QueueState>, now: Time, n: nat, before: seq<Queued>, ps: seq<Queued>)
    requires 0 < n <= |qs| && Sums(BacklogOf(qs, now, n - 1), before, now)
    requires Describes(qs[n - 1].snapshot, ps) && qs[n - 1].snapshot.createdAt <= now
    ensures Sums(BacklogOf(qs, now, n), before + ps, now)
  {
    var b, s := BacklogOf(qs, now, n - 1), qs[n - 1].snapshot;
    OneQueueWaits(s, ps, now);
    TotalsConcat(before, ps, now);
    assert BacklogOf(qs, now, n).queueTime
        == b.queueTime + (s.queueTimeOrigin + s.packetCount as real * Max(now - s.createdAt, 0.0));
  }

  ghost predicate AllDescribed(qs: seq<QueueState>, pss: seq<seq<Queued>>, now: Time) {
    |qs| == |pss| && forall i :: 0 <= i < |qs| ==> Describes(qs[i].snapshot, pss[i]) && qs[i].snapshot.createdAt <= now
  }

  /** The backlog is how long all queued packets have waited until now, their number and their bytes. */
  lemma {:induction false} BacklogIsWaiting(qs: seq<QueueState>, pss: seq<seq<Queued>>, now: Time, n: nat)
    requires AllDescribed(qs, pss, now) && n <= |qs|
    ensures Sums(BacklogOf(qs, now, n), Flat(pss[..n]), now)
  {
    if n > 0 {
      BacklogIsWaiting(qs, pss, now, n - 1);
      FlatSnoc(pss, n);
      BacklogStep(qs, now, n, Flat(pss[..n - 1]), pss[n - 1]);
    }
  }
}
