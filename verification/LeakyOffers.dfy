/**
 Which queue a timeout of the leaky bucket puts on offer, and when padding is requested. The
 conditions are on the queues, debts and probes themselves, not on how the pacer searches them.
 */
module LeakyOffers {
  import opened Prelude
  import opened PacerQueues
  import opened ProbeCluster
  import opened LeakyBucket
  import opened LeakyBound

  // Rates and debts as a pacer has them.
  ghost predicate Sound(p: Pacer) {
    && p.pacingBitrate >= 0.0 && p.adjustedBitrate >= 0.0 && p.paddingBitrate >= 0.0
    && p.mediaDebt >= 0.0 && p.paddingDebt >= 0.0
    && (p.probes != [] ==> p.probes[0].config.targetBitrate >= 0.0)
  }

  // ---- Which queue ----

  /** An unpaced packet waits in the queue. */
  predicate WaitsUnpaced(q: QueueState) {
    q.unpaced && q.snapshot.firstUnsent.Some?
  }

  /** Queue i has waited longest among the unpaced ones; among equals it is the first. */
  ghost predicate OldestUnpaced(qs: seq<QueueState>, i: int) {
    && 0 <= i < |qs| && WaitsUnpaced(qs[i])
    && forall j :: 0 <= j < |qs| && WaitsUnpaced(qs[j]) ==>
         var t, u := qs[i].snapshot.firstUnsent.value, qs[j].snapshot.firstUnsent.value;
         t <= u && (j < i ==> t < u)
  }

  // Having sent earlier, or never.
  predicate SentBefore(a: Option<Time>, b: Option<Time>) {
    b.Some? && (a.None? || a.value < b.value)
  }

  /** Media goes before padding, padding before nothing; then the queue that has sent least recently. */
  predicate MoreUrgent(a: Snapshot, b: Snapshot) {
    if a.priority == b.priority then SentBefore(a.lastEmitted, b.lastEmitted)
    else a.priority == MediaPriority || b.priority == EmptyPriority
  }

  /** Queue i is the most urgent non-empty one; among equals it is the first. */
  ghost predicate MostUrgent(qs: seq<QueueState>, i: int) {
    && 0 <= i < |qs| && qs[i].snapshot.packetCount > 0
    && forall j :: 0 <= j < |qs| && qs[j].snapshot.packetCount > 0 ==>
         && !MoreUrgent(qs[j].snapshot, qs[i].snapshot)
         && (j < i ==> MoreUrgent(qs[i].snapshot, qs[j].snapshot))
  }

  /** Queue i is the first non-empty one. */
  ghost predicate FirstWaiting(qs: seq<QueueState>, i: int) {
    0 <= i < |qs| && qs[i].snapshot.packetCount > 0 && forall j :: 0 <= j < i ==> qs[j].snapshot.packetCount == 0
  }

  /** Queue i can carry padding and has sent most recently; among equals it is the last. */
  ghost predicate LatestForPadding(qs: seq<QueueState>, i: int) {
    && 0 <= i < |qs| && qs[i].useForPadding
    && forall j :: 0 <= j < |qs| && qs[j].useForPadding ==>
         && !SentBefore(qs[i].snapshot.lastEmitted, qs[j].snapshot.lastEmitted)
         && (i < j ==> SentBefore(qs[j].snapshot.lastEmitted, qs[i].snapshot.lastEmitted))
  }

  lemma {:induction false} UnpacedFound(qs: seq<QueueState>)
    ensures var u := FirstMin(UnpacedKeys(qs), |qs|);
            && (u.None? <==> NoUnpaced(qs))
            && (u.Some? ==> OldestUnpaced(qs, u.value))
  {
    var ks := UnpacedKeys(qs);
    assert forall j :: 0 <= j < |qs| ==> (ks[j].Some? <==> WaitsUnpaced(qs[j]));
    assert forall j :: 0 <= j < |qs| && ks[j].Some? ==> ks[j].value == Key(0, qs[j].snapshot.firstUnsent);
  }

  lemma UrgencyIsLess(a: Snapshot, b: Snapshot)
    ensures Less(Key(a.priority.Ord(), a.lastEmitted), Key(b.priority.Ord(), b.lastEmitted)) <==> MoreUrgent(a, b)
  {
  }

  lemma {:induction false} UrgentFound(qs: seq<QueueState>)
    ensures var k := FirstMin(MediaKeys(qs), |qs|);
            && (k.None? <==> AllEmpty(qs))
            && (k.Some? ==> MostUrgent(qs, k.value))
  {
    var ks, k := MediaKeys(qs), FirstMin(MediaKeys(qs), |qs|);
    assert forall j :: 0 <= j < |qs| ==> (ks[j].Some? <==> qs[j].snapshot.packetCount > 0);
    if k.Some? {
      var s := qs[k.value].snapshot;
      forall j | 0 <= j < |qs| && qs[j].snapshot.packetCount > 0
        ensures !MoreUrgent(qs[j].snapshot, s) && (j < k.value ==> MoreUrgent(s, qs[j].snapshot))
      {
        assert ks[j].value == Key(qs[j].snapshot.priority.Ord(), qs[j].snapshot.lastEmitted);
        UrgencyIsLess(qs[j].snapshot, s);
        UrgencyIsLess(s, qs[j].snapshot);
      }
    }
  }

  lemma {:induction false} PaddingFound(qs: seq<QueueState>)
    ensures var k := LastMax(PaddingKeys(qs), |qs|);
            && (k.Some? <==> HasPaddingQueue(qs))
            && (k.Some? ==> LatestForPadding(qs, k.value))
  {
    var ks := PaddingKeys(qs);
    assert forall j :: 0 <= j < |qs| ==> (ks[j].Some? <==> qs[j].useForPadding);
    assert forall j :: 0 <= j < |qs| && ks[j].Some? ==> ks[j].value == Key(0, qs[j].snapshot.lastEmitted);
  }

  // ---- When ----

  /** A probe may go on: it has not begun, or what it has sent is not ahead of its target rate. */
  predicate ProbeDue(s: ProbeState, now: Time) {
    if s.startedAt.None? then now >= ALREADY_HAPPENED
    else if s.config.targetBitrate == 0.0 then now >= NOT_HAPPENING
    else s.bytesSent <= Bytes(s.config.targetBitrate, now - s.startedAt.value)
         && now >= s.lastPaddingAt + s.config.minProbeDelta
  }

  lemma {:induction false} ProbeDueIff(s: ProbeState, now: Time)
    requires s.config.targetBitrate >= 0.0
    ensures now >= NextProbeTime(s) <==> ProbeDue(s, now)
  {
    if s.startedAt.Some? && s.config.targetBitrate > 0.0 {
      DrainIff(s.bytesSent, s.config.targetBitrate, now - s.startedAt.value);
    }
  }

  /** The next time to look is `at`, and queue i is on offer from then on. */
  ghost predicate OfferedFrom(q: Pacer, now: Time, at: Time, reason: Reason, i: int) {
    && 0 <= i < |q.queues|
    && q.nextPollTime == Some((at, reason))
    && q.nextPollQueue == if at <= now then Some(q.queues[i].midrid) else None
  }

  /** Paced media: on offer while the debt is within the pacing interval, else once it has drained. */
  ghost predicate PacedFrom(q: Pacer, now: Time, at: Time) {
    if q.mediaDebt <= Bytes(q.adjustedBitrate, PACING) then at == now
    else at > now && q.mediaDebt == Bytes(q.adjustedBitrate, at - now)
  }

  // Paced media waits and the pacer may send.
  ghost predicate MediaDue(q: Pacer, now: Time) {
    exists i, at, reason :: MostUrgent(q.queues, i) && OfferedFrom(q, now, at, reason, i) &&
      if q.probes == [] then PacedFrom(q, now, at) && reason == Paced
      else (forall u :: at <= u <==> ProbeDue(q.probes[0], u)) && reason == Probe1
  }

  // When to look for padding: once the probe is due, or once both debts are gone, a microsecond on at least.
  ghost predicate PaddingFrom(q: Pacer, now: Time, at: Time) {
    if q.probes != [] then forall u :: at <= u <==> ProbeDue(q.probes[0], u)
    else && at > now && Drained(q, at - now)
         && forall d :: 0.0 <= d && Drained(q, d) ==> at <= now + Max(d, MICROSECOND)
  }

  // Nothing is on offer; if padding is possible, the pacer looks again later.
  ghost predicate NothingDue(q: Pacer, now: Time) {
    && q.nextPollQueue.None?
    && (q.nextPollTime.Some? <==> q.paddingBitrate > 0.0 && HasPaddingQueue(q.queues))
    && (q.nextPollTime.Some? ==>
          && q.nextPollTime.value.1 == (if q.probes == [] then Padding else Probe2)
          && PaddingFrom(q, now, q.nextPollTime.value.0))
  }

  /** What a timeout puts on offer when nothing was on offer and no padding is requested. */
  ghost predicate OfferIsRight(q: Pacer, now: Time) {
    if q.lastEmitted.None? then
      if AllEmpty(q.queues) then q.nextPollQueue.None? && q.nextPollTime.None?
      else exists i :: FirstWaiting(q.queues, i) && OfferedFrom(q, now, now, FirstEver, i)
    else if !NoUnpaced(q.queues) then
      exists i :: OldestUnpaced(q.queues, i) &&
        OfferedFrom(q, now, q.queues[i].snapshot.firstUnsent.value, Unpaced, i)
    else if !AllEmpty(q.queues) && q.adjustedBitrate > 0.0 then MediaDue(q, now)
    else NothingDue(q, now)
  }

  lemma {:induction false} FirstIsRight(p: Pacer, now: Time)
    requires p.lastEmitted.None? && p.nextPollQueue.None? && p.nextPollTime.None?
    ensures OfferIsRight(TakenUp(p, now, FindNextPoll(p, now)), now)
  {
    var k, q := FirstNonEmpty(p.queues, |p.queues|), TakenUp(p, now, FindNextPoll(p, now));
    if k.Some? {
      assert FirstWaiting(q.queues, k.value) && OfferedFrom(q, now, now, FirstEver, k.value);
    }
  }

  lemma {:induction false} UnpacedIsRight(p: Pacer, now: Time)
    requires p.lastEmitted.Some? && !NoUnpaced(p.queues)
    ensures OfferIsRight(TakenUp(p, now, FindNextPoll(p, now)), now)
  {
    UnpacedFound(p.queues);
    var i, q := FirstMin(UnpacedKeys(p.queues), |p.queues|).value, TakenUp(p, now, FindNextPoll(p, now));
    assert OldestUnpaced(q.queues, i) && OfferedFrom(q, now, q.queues[i].snapshot.firstUnsent.value, Unpaced, i);
  }

  lemma {:induction false} PacedAt(p: Pacer, now: Time)
    requires p.adjustedBitrate > 0.0
    ensures PacedFrom(p, now, now + PacedOffset(p))
  {
    var drain := DrainTime(p.mediaDebt, p.adjustedBitrate);
    DrainIff(p.mediaDebt, p.adjustedBitrate, PACING);
    RateFor(p.mediaDebt, p.adjustedBitrate, 0.0);
    assert drain * p.adjustedBitrate == p.mediaDebt * 8.0;
  }

  lemma {:induction false} MediaIsRight(p: Pacer, now: Time)
    requires p.lastEmitted.Some? && NoUnpaced(p.queues) && !AllEmpty(p.queues) && p.adjustedBitrate > 0.0
    requires p.lastHandle == Some(now) && (p.probes != [] ==> p.probes[0].config.targetBitrate >= 0.0)
    ensures OfferIsRight(TakenUp(p, now, FindNextPoll(p, now)), now)
  {
    UnpacedFound(p.queues);
    UrgentFound(p.queues);
    var i := FirstMin(MediaKeys(p.queues), |p.queues|).value;
    var next := FindMediaPoll(p, now, p.queues[i].midrid);
    var q := TakenUp(p, now, Some(next));
    assert FindNextPoll(p, now) == Some(next);
    assert MostUrgent(q.queues, i) && OfferedFrom(q, now, next.at, next.reason, i);
    if p.probes == [] {
      PacedAt(p, now);
      assert PacedFrom(q, now, next.at);
    } else {
      forall u ensures next.at <= u <==> ProbeDue(q.probes[0], u) {
        ProbeDueIff(p.probes[0], u);
      }
    }
  }

  lemma {:induction false} NothingIsRight(p: Pacer, now: Time)
    requires p.lastEmitted.Some? && NoUnpaced(p.queues) && (AllEmpty(p.queues) || p.adjustedBitrate <= 0.0)
    requires p.nextPollQueue.None? && p.nextPollTime.None? && p.lastHandle == Some(now) && Sound(p)
    ensures OfferIsRight(TakenUp(p, now, FindNextPoll(p, now)), now)
  {
    UnpacedFound(p.queues);
    UrgentFound(p.queues);
    var next, q := FindPaddingPoll(p, now), TakenUp(p, now, FindPaddingPoll(p, now));
    assert FindNextPoll(p, now) == next;
    if next.Some? {
      if p.probes == [] {
        PaddingWaitsForDebt(p, now, now);
        SameDrained(p, q);
      } else {
        forall u ensures next.value.at <= u <==> ProbeDue(p.probes[0], u) {
          ProbeDueIff(p.probes[0], u);
        }
      }
      assert PaddingFrom(q, now, next.value.at);
    }
  }

  lemma SameDrained(p: Pacer, q: Pacer)
    requires q == p.(nextPollQueue := q.nextPollQueue, nextPollTime := q.nextPollTime)
    ensures forall d :: Drained(p, d) <==> Drained(q, d)
  {
  }

  lemma {:induction false} FoundIsRight(p: Pacer, now: Time)
    requires p.lastHandle == Some(now) && Sound(p) && p.nextPollQueue.None? && p.nextPollTime.None?
    ensures OfferIsRight(TakenUp(p, now, FindNextPoll(p, now)), now)
  {
    if p.lastEmitted.None? {
      FirstIsRight(p, now);
    } else if !NoUnpaced(p.queues) {
      UnpacedIsRight(p, now);
    } else if !AllEmpty(p.queues) && p.adjustedBitrate > 0.0 {
      MediaIsRight(p, now);
    } else {
      NothingIsRight(p, now);
    }
  }

  // ---- Padding ----

  // When a probe counts as begun, if padding is asked for now.
  function Begin(s: ProbeState, now: Time): Time {
    if s.startedAt.None? then now else s.startedAt.value
  }

  /** What is left of the target of a probe. */
  function Remaining(s: ProbeState): Size {
    TargetBytes(s.config) - s.bytesSent
  }

  /** A probe asks for padding: not ahead of its rate, not too soon after the last time, and something is left. */
  predicate ProbePads(s: ProbeState, now: Time) {
    && (s.startedAt.None? ==> now >= ALREADY_HAPPENED)
    && now >= s.lastPaddingAt + s.config.minProbeDelta && now > s.lastPaddingAt
    && (if s.config.targetBitrate == 0.0 then now >= NOT_HAPPENING
        else s.bytesSent <= Bytes(s.config.targetBitrate, now - Begin(s, now)))
    && Remaining(s) > 0.0
  }

  // The lesser of two bounds.
  predicate IsLesser(x: real, a: real, b: real) {
    x <= a && x <= b && (x == a || x == b)
  }

  /** The bytes a probe asks for: what is left, but no more than its rate between two requests, or a small packet. */
  ghost predicate ProbeAmount(s: ProbeState, size: Size) {
    var burst := Bytes(s.config.targetBitrate, s.config.minProbeDelta);
    if burst >= MAX_PADDING_PACKET_SIZE then IsLesser(size, Remaining(s), burst)
    else IsLesser(size, Remaining(s), MAX_PADDING_PACKET_SIZE)
  }

  lemma {:induction false} BegunDue(s: ProbeState, now: Time)
    requires s.config.targetBitrate >= 0.0 && s.startedAt.Some? && now >= s.lastPaddingAt + s.config.minProbeDelta
    ensures now >= NextProbeTime(s) <==>
              if s.config.targetBitrate == 0.0 then now >= NOT_HAPPENING
              else s.bytesSent <= Bytes(s.config.targetBitrate, now - s.startedAt.value)
  {
    ProbeDueIff(s, now);
  }

  // A probe that is not ahead of its rate at its own start is not ahead of it later.
  lemma {:induction false} ProbeAsks(s: ProbeState, now: Time)
    requires s.config.targetBitrate >= 0.0
    ensures ShouldSendNow(s, now) && NextPacket(s, now).1.Some? <==> ProbePads(s, now)
    ensures ShouldSendNow(s, now) && NextPacket(s, now).1.Some? ==>
              && ProbeAmount(s, NextPacket(s, now).1.value)
              && NextPacket(s, now).0 == s.(startedAt := Some(Begin(s, now)), lastPaddingAt := now)
  {
    var q := s.(startedAt := Some(Begin(s, now)));
    if now >= s.lastPaddingAt + s.config.minProbeDelta {
      BegunDue(q, now);
    }
  }

  /** A begun probe is not ahead of its rate. */
  predicate NotAhead(s: ProbeState, now: Time) {
    if s.config.targetBitrate == 0.0 then now >= NOT_HAPPENING
    else s.bytesSent <= Bytes(s.config.targetBitrate, now - Begin(s, now))
  }

  /** A probe that is asked for padding begins, if it has not; and it remembers the time, unless it is ahead. */
  function Asked(s: ProbeState, now: Time): ProbeState {
    if !ProbeDue(s, now) || now < s.lastPaddingAt + s.config.minProbeDelta then s
    else s.(startedAt := Some(Begin(s, now)),
            lastPaddingAt := if NotAhead(s, now) && now > s.lastPaddingAt then now else s.lastPaddingAt)
  }

  lemma {:induction false} AskedIs(s: ProbeState, now: Time)
    requires s.config.targetBitrate >= 0.0
    ensures Asked(s, now) == if ShouldSendNow(s, now) then NextPacket(s, now).0 else s
  {
    ProbeDueIff(s, now);
    if now >= s.lastPaddingAt + s.config.minProbeDelta {
      BegunDue(s.(startedAt := Some(Begin(s, now))), now);
    }
  }

  /** The probes after a timeout: without anything to send the active one is asked, or all go if none can be padded. */
  function ProbesAfter(p: Pacer, now: Time): seq<ProbeState> {
    if !AllEmpty(p.queues) || p.probes == [] then p.probes
    else if !HasPaddingQueue(p.queues) then []
    else p.probes[0 := Asked(p.probes[0], now)]
  }

  lemma {:induction false} ProbesAre(p: Pacer, now: Time)
    requires p.probes != [] ==> p.probes[0].config.targetBitrate >= 0.0
    ensures RequestPadding(p, now).0.probes == ProbesAfter(p, now)
  {
    PaddingFound(p.queues);
    if p.probes != [] {
      AskedIs(p.probes[0], now);
      assert p.probes[0 := p.probes[0]] == p.probes;
    }
  }

  /** When a timeout asks for padding, given the debts after draining. */
  predicate PaddingDue(p: Pacer, now: Time) {
    && AllEmpty(p.queues) && HasPaddingQueue(p.queues)
    && if p.probes != [] then ProbePads(p.probes[0], now)
       else p.mediaDebt == 0.0 && p.paddingDebt == 0.0 && p.paddingBitrate > 0.0
  }

  /** Which queue is to carry it, and how much: a burst of the padding rate, or what the probe asks for. */
  ghost predicate PaddingIsRight(p: Pacer, now: Time, probes: seq<ProbeState>, request: PaddingRequest) {
    && (exists i :: LatestForPadding(p.queues, i) && p.queues[i].midrid == request.midrid)
    && if p.probes == [] then request.padding == Bytes(p.paddingBitrate, PADDING_BURST_INTERVAL)
       else ProbeAmount(p.probes[0], request.padding)
            && probes == p.probes[0 := p.probes[0].(startedAt := Some(Begin(p.probes[0], now)), lastPaddingAt := now)]
  }

  lemma {:induction false} PaddingIff(p: Pacer, now: Time)
    requires p.paddingBitrate >= 0.0 && (p.probes != [] ==> p.probes[0].config.targetBitrate >= 0.0)
    ensures var (q, request) := RequestPadding(p, now);
            && (request.Some? <==> PaddingDue(p, now))
            && (request.Some? ==> PaddingIsRight(p, now, q.probes, request.value))
  {
    PaddingFound(p.queues);
    var k := LastMax(PaddingKeys(p.queues), |p.queues|);
    if k.Some? {
      assert LatestForPadding(p.queues, k.value);
      if p.probes != [] {
        ProbeAsks(p.probes[0], now);
      }
    }
  }

  // ---- A timeout ----

  lemma PaddingFrame(p: Pacer, now: Time)
    ensures var q := RequestPadding(p, now).0;
            && q == p.(hasPaddingQueue := q.hasPaddingQueue, probes := q.probes)
            && (q.probes != [] ==> p.probes != [] && q.probes[0].config == p.probes[0].config)
  {
  }

  /** What is left of a debt that has drained since the last timeout. */
  function Undrained(debt: Size, rate: Rate, last: Option<Time>, now: Time): Size {
    if last.None? || now <= last.value then debt
    else if debt <= Bytes(rate, now - last.value) then 0.0
    else debt - Bytes(rate, now - last.value)
  }

  // What a timeout does not touch, and what becomes of the debts and the rate.
  ghost predicate Settles(p: Pacer, now: Time, queues: seq<QueueState>, q: Pacer) {
    && q.queues == queues && q.lastEmitted == p.lastEmitted && q.lastHandle == Some(now)
    && q.pacingBitrate == p.pacingBitrate && q.paddingBitrate == p.paddingBitrate
    && q.mediaDebt == Undrained(p.mediaDebt, p.adjustedBitrate, p.lastHandle, now)
    && q.paddingDebt == Undrained(p.paddingDebt, p.paddingBitrate, p.lastHandle, now)
    && q.adjustedBitrate == AdjustedRate(p.(queues := queues), now)
    && RateIsRight(p.(queues := queues), now, q.adjustedBitrate)
  }

  /**
   A timeout in full. It asks for padding exactly when that is due, and the queue that is to
   carry it is on offer. Otherwise what was on offer stays so; and if nothing was, the offer is
   the right one for the queues it was shown.
   */
  ghost predicate TimeoutIsRight(p: Pacer, now: Time, queues: seq<QueueState>, q: Pacer,
                                 request: Option<PaddingRequest>)
  {
    && Settles(p, now, queues, q)
    && var p1 := q.(probes := p.probes);
    && (request.Some? <==> PaddingDue(p1, now))
    && (request.Some? ==>
          PaddingIsRight(p1, now, q.probes, request.value) && q.nextPollQueue == Some(request.value.midrid))
    && q.probes == ProbesAfter(p1, now)
    && (request.None? && p.nextPollQueue.Some? ==> q.nextPollQueue == p.nextPollQueue && q.nextPollTime.None?)
    && (request.None? && p.nextPollQueue.None? ==> OfferIsRight(q, now))
  }

  lemma {:induction false} PreparedSettles(p: Pacer, now: Time, queues: seq<QueueState>)
    requires Sound(p)
    ensures Settles(p, now, queues, Prepared(p, now, queues))
    ensures Prepared(p, now, queues) == p.(queues := queues, lastHandle := Some(now), needsTimeout := false,
            nextPollTime := None, mediaDebt := Prepared(p, now, queues).mediaDebt,
            paddingDebt := Prepared(p, now, queues).paddingDebt,
            adjustedBitrate := Prepared(p, now, queues).adjustedBitrate)
  {
    AdjustedRateIs(p.(queues := queues), now);
  }

  // What settles does not depend on what is on offer, nor on the probes.
  lemma SettledStays(p: Pacer, now: Time, queues: seq<QueueState>, q: Pacer, q': Pacer)
    requires Settles(p, now, queues, q)
    requires q' == q.(hasPaddingQueue := q'.hasPaddingQueue, probes := q'.probes, nextPollQueue := q'.nextPollQueue,
                      nextPollTime := q'.nextPollTime)
    ensures Settles(p, now, queues, q')
  {
  }

  // Whether padding is due depends on queues, debts, padding rate and probes only.
  lemma DueStays(p1: Pacer, q: Pacer, now: Time)
    requires q.queues == p1.queues && q.mediaDebt == p1.mediaDebt && q.paddingDebt == p1.paddingDebt
    requires q.paddingBitrate == p1.paddingBitrate
    ensures var r := q.(probes := p1.probes);
            && (PaddingDue(r, now) <==> PaddingDue(p1, now))
            && forall request, ps :: PaddingIsRight(r, now, ps, request) <==> PaddingIsRight(p1, now, ps, request)
  {
  }

  // The padding decision of a timeout, and the state the search for an offer starts from.
  lemma {:induction false} PaddingDecided(p: Pacer, now: Time, queues: seq<QueueState>)
    requires Sound(p)
    ensures var (p2, request) := RequestPadding(Prepared(p, now, queues), now);
            var r := p2.(probes := p.probes);
            && Settles(p, now, queues, p2) && Sound(p2) && p2.nextPollTime.None? && p2.nextPollQueue == p.nextPollQueue
            && (request.Some? <==> PaddingDue(r, now))
            && (request.Some? ==> PaddingIsRight(r, now, p2.probes, request.value))
            && p2.probes == ProbesAfter(r, now)
  {
    var p1 := Prepared(p, now, queues);
    var p2 := RequestPadding(p1, now).0;
    PreparedSettles(p, now, queues);
    PreparedSound(p, now, queues);
    PaddingIff(p1, now);
    PaddingFrame(p1, now);
    ProbesAre(p1, now);
    SettledStays(p, now, queues, p1, p2);
    DueStays(p1, p2, now);
  }

  lemma {:induction false} PreparedSound(p: Pacer, now: Time, queues: seq<QueueState>)
    requires Sound(p)
    ensures Sound(Prepared(p, now, queues)) && Prepared(p, now, queues).probes == p.probes
  {
    AdjustedRateDrains(p.(queues := queues), now);
  }

  lemma OfferTouches(p: Pacer, request: Option<PaddingRequest>, now: Time)
    ensures var q := Offer(p, request, now);
            q == p.(nextPollQueue := q.nextPollQueue, nextPollTime := q.nextPollTime)
  {
  }

  lemma {:induction false} OfferMade(p: Pacer, request: Option<PaddingRequest>, now: Time)
    requires p.lastHandle == Some(now) && Sound(p) && p.nextPollTime.None?
    ensures var q := Offer(p, request, now);
            && (request.Some? ==> q.nextPollQueue == Some(request.value.midrid))
            && (request.None? && p.nextPollQueue.Some? ==> q.nextPollQueue == p.nextPollQueue && q.nextPollTime.None?)
            && (request.None? && p.nextPollQueue.None? ==> OfferIsRight(q, now))
  {
    if request.None? && p.nextPollQueue.None? {
      FoundIsRight(p, now);
    }
  }

  lemma {:induction false} TimeoutOffers(p: Pacer, now: Time, queues: seq<QueueState>)
    requires Sound(p)
    ensures var (q, request) := HandleTimeout(p, now, queues); TimeoutIsRight(p, now, queues, q, request)
  {
    var (p2, request) := RequestPadding(Prepared(p, now, queues), now);
    PaddingDecided(p, now, queues);
    OfferTouches(p2, request, now);
    OfferMade(p2, request, now);
    var q := Offer(p2, request, now);
    SettledStays(p, now, queues, p2, q);
    DueStays(p2.(probes := p.probes), q, now);
  }
}
