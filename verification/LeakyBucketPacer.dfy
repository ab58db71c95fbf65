/** The leaky bucket pacer as the object the session drives. */
module LeakyBucketPacing {
  import opened Prelude
  import opened PacerQueues
  import opened ProbeCluster
  import opened LeakyBucket
  import opened LeakyBound
  import opened LeakyOffers
  import opened ProbeRuns
  import opened ProbeCompletion

  class LeakyBucketPacer {
    var pacingBitrate: Rate
    var adjustedBitrate: Rate
    var paddingBitrate: Rate
    var lastHandleTime: Option<Time>
    var lastEmitted: Option<Time>
    var nextPollTime: Option<(Time, Reason)>
    var mediaDebt: Size
    var paddingDebt: Size
    var queueStates: seq<QueueState>
    var nextPollQueue: Option<MidRid>
    var probeQueue: seq<ProbeState>
    var completedProbe: Option<ClusterId>
    var needsTimeoutBeforeNextPoll: bool
    var hasPaddingQueue: bool

    function View(): Pacer
      reads this
    {
      Pacer(pacingBitrate, adjustedBitrate, paddingBitrate, lastHandleTime, lastEmitted, nextPollTime, mediaDebt,
            paddingDebt, queueStates, nextPollQueue, probeQueue, completedProbe, needsTimeoutBeforeNextPoll,
            hasPaddingQueue)
    }

    /** Rates and debts are never negative. */
    ghost predicate Valid()
      reads this
    {
      && pacingBitrate >= 0.0 && adjustedBitrate >= 0.0 && paddingBitrate >= 0.0
      && (forall i :: 0 <= i < |probeQueue| ==> probeQueue[i].config.targetBitrate >= 0.0)
      && mediaDebt >= 0.0 && paddingDebt >= 0.0
    }

    // The clusters in the pacer, in the order they were started.
    ghost function Clusters(): seq<ClusterId>
      reads this
    {
      Parked(View()) + Ids(probeQueue)
    }

    constructor (initialPacingBitrate: Rate)
      requires initialPacingBitrate >= 0.0
      ensures Valid() && View() == NewPacer(initialPacingBitrate)
    {
      pacingBitrate, adjustedBitrate, paddingBitrate := initialPacingBitrate, 0.0, 0.0;
      lastHandleTime, lastEmitted, nextPollTime := None, None, None;
      mediaDebt, paddingDebt := 0.0, 0.0;
      queueStates, nextPollQueue, probeQueue, completedProbe := [], None, [], None;
      needsTimeoutBeforeNextPoll, hasPaddingQueue := true, false;
    }

    method SetPacingRate(rate: Rate)
      requires Valid() && rate >= 0.0
      modifies this
      ensures Valid() && View() == old(View()).(pacingBitrate := rate)
    {
      pacingBitrate := rate;
    }

    method SetPaddingRate(rate: Rate)
      requires Valid() && rate >= 0.0
      modifies this
      ensures Valid() && View() == old(View()).(paddingBitrate := rate)
    {
      paddingBitrate := rate;
    }

    /** The pacer wants to be called at the earliest of its two deadlines. */
    method PollTimeout() returns (r: Option<Time>)
      ensures r.None? <==> lastHandleTime.None? && nextPollTime.None?
      ensures r.Some? && lastHandleTime.Some? ==> r.value <= lastHandleTime.value + PACING
      ensures r.Some? && nextPollTime.Some? ==> r.value <= nextPollTime.value.0
      ensures r.Some? ==> || (lastHandleTime.Some? && r.value == lastHandleTime.value + PACING)
                          || (nextPollTime.Some? && r.value == nextPollTime.value.0)
    {
      r := if lastHandleTime.None? then None else Some(lastHandleTime.value + PACING);
      if nextPollTime.Some? && (r.None? || nextPollTime.value.0 < r.value) {
        r := Some(nextPollTime.value.0);
      }
    }

    /**
     Time has moved on: drains debt, adjusts the rate and decides what may be polled next. The
     gate is open afterwards, debt has drained by at most what the rate allowed, and clusters
     are kept unless all queues are empty and none can carry padding. What is on offer is the
     right queue: the one for padding that is due, the longest waiting unpaced one, the most
     urgent paced one in its time.
     */
    method HandleTimeout(now: Time, queues: seq<QueueState>) returns (request: Option<PaddingRequest>)
      requires Valid()
      modifies this
      ensures Valid() && LeakyBucket.HandleTimeout(old(View()), now, queues) == (View(), request)
      ensures !needsTimeoutBeforeNextPoll && completedProbe == old(completedProbe)
      ensures mediaDebt <= old(mediaDebt) <= mediaDebt + Bytes(old(adjustedBitrate), Elapsed(old(View()), now))
      ensures Ids(probeQueue) == if DropsProbes(queues) then [] else old(Ids(probeQueue))
      ensures TimeoutIsRight(old(View()), now, queues, View(), request)
    {
      TimeoutFacts(View(), now, queues);
      request := Decide(now, queues);
    }

    method Decide(now: Time, queues: seq<QueueState>) returns (request: Option<PaddingRequest>)
      requires Valid()
      modifies this
      ensures Valid() && LeakyBucket.HandleTimeout(old(View()), now, queues) == (View(), request)
    {
      Prepare(now, queues);
      request := CreatePaddingRequest(now);
      if request.Some? {
        nextPollQueue := Some(request.value.midrid);
        return;
      }
      if nextPollQueue.Some? {
        return None;
      }
      var next := NextPollOf(now);
      if next.Some? {
        nextPollQueue := if now < next.value.at then None else next.value.queue;
        nextPollTime := Some((next.value.at, next.value.reason));
      }
    }

    // Opens the gate, takes in the queues, drains the debts and adjusts the rate.
    method Prepare(now: Time, queues: seq<QueueState>)
      requires Valid()
      modifies this
      ensures Valid() && View() == Prepared(old(View()), now, queues)
    {
      PreparedIsValid(View(), now, queues);
      needsTimeoutBeforeNextPoll := false;
      nextPollTime := None;
      queueStates := queues;
      var elapsed := UpdateHandleTime(now);
      ClearDebt(elapsed);
      UpdateAdjustedBitrate(now);
    }

    method UpdateHandleTime(now: Time) returns (elapsed: real)
      modifies `lastHandleTime
      ensures elapsed == Elapsed(old(View()), now) && lastHandleTime == Some(now)
    {
      if lastHandleTime.None? {
        elapsed := 0.0;
      } else {
        elapsed := Max(now - lastHandleTime.value, 0.0);
      }
      lastHandleTime := Some(now);
    }

    method ClearDebt(elapsed: real)
      modifies `mediaDebt, `paddingDebt
      ensures View() == LeakyBucket.ClearDebt(old(View()), elapsed)
    {
      mediaDebt := Max(mediaDebt - Bytes(adjustedBitrate, elapsed), 0.0);
      paddingDebt := Max(paddingDebt - Bytes(paddingBitrate, elapsed), 0.0);
    }

    method UpdateAdjustedBitrate(now: Time)
      modifies `adjustedBitrate
      ensures View() == old(View()).(adjustedBitrate := AdjustedRate(old(View()), now))
      ensures BaseRate(old(View())) >= 0.0 ==> RateIsRight(old(View()), now, adjustedBitrate)
    {
      if BaseRate(View()) >= 0.0 {
        AdjustedRateIs(View(), now);
      }
      AdjustRate(now);
    }

    // The fold over the queues, and the rate it asks for.
    method AdjustRate(now: Time)
      modifies `adjustedBitrate
      ensures View() == old(View()).(adjustedBitrate := AdjustedRate(old(View()), now))
    {
      var b := SumBacklog(now);
      adjustedBitrate := if probeQueue != [] then probeQueue[0].config.targetBitrate else pacingBitrate;
      if b.packets == 0 {
        return;
      }
      var minRate := b.size * 8.0 / QueueWait(b);
      if minRate > adjustedBitrate {
        adjustedBitrate := Min(Max(minRate, 0.0), MAX_BITRATE);
      }
    }

    // Adds up queue time, packets and bytes over all queues.
    method SumBacklog(now: Time) returns (b: Backlog)
      ensures b == BacklogOf(queueStates, now, |queueStates|)
    {
      b := Backlog(0.0, 0, 0.0);
      for n := 0 to |queueStates|
        invariant b == BacklogOf(queueStates, now, n)
      {
        var s := queueStates[n].snapshot;
        b := Backlog(b.queueTime + (s.queueTimeOrigin + s.packetCount as real * Max(now - s.createdAt, 0.0)),
                     b.packets + s.packetCount, b.size + s.byteSize as real);
      }
    }

    method CreatePaddingRequest(now: Time) returns (request: Option<PaddingRequest>)
      requires Valid()
      modifies this
      ensures Valid() && RequestPadding(old(View()), now) == (View(), request)
      ensures mediaDebt == old(mediaDebt)
      ensures request.Some? <==> PaddingDue(old(View()), now)
      ensures request.Some? ==> PaddingIsRight(old(View()), now, probeQueue, request.value)
    {
      PaddingIff(View(), now);
      if !AllEmpty(queueStates) {
        return None;
      }
      var k := FindLastMax(PaddingKeys(queueStates));
      hasPaddingQueue := k.Some?;
      if !hasPaddingQueue {
        probeQueue := [];
        return None;
      }
      var midrid := queueStates[k.value].midrid;
      if probeQueue != [] {
        if !ShouldSendNow(probeQueue[0], now) {
          return None;
        }
        var (probe, size) := NextPacket(probeQueue[0], now);
        probeQueue := probeQueue[0 := probe];
        if size.None? {
          return None;
        }
        return Some(PaddingRequest(midrid, size.value));
      }
      if mediaDebt != 0.0 || paddingDebt != 0.0 {
        return None;
      }
      if paddingBitrate == 0.0 {
        return None;
      }
      request := Some(PaddingRequest(midrid, Bytes(paddingBitrate, PADDING_BURST_INTERVAL)));
    }

    method FindFirstNonEmpty() returns (r: Option<nat>)
      ensures r == FirstNonEmpty(queueStates, |queueStates|)
    {
      var k := 0;
      while k < |queueStates| && queueStates[k].snapshot.packetCount == 0
        invariant 0 <= k <= |queueStates|
        invariant forall j :: 0 <= j < k ==> queueStates[j].snapshot.packetCount == 0
      {
        k := k + 1;
      }
      r := if k == |queueStates| then None else Some(k);
    }

    /** When to poll next, and which queue; reads only. */
    method NextPollOf(now: Time) returns (next: Option<NextPoll>)
      ensures next == FindNextPoll(View(), now)
      ensures Valid() && lastHandleTime == Some(now) && nextPollQueue.None? && nextPollTime.None? ==>
                OfferIsRight(TakenUp(View(), now, next), now)
    {
      if Valid() && lastHandleTime == Some(now) && nextPollQueue.None? && nextPollTime.None? {
        FoundIsRight(View(), now);
      }
      next := SearchPoll(now);
    }

    // The first case that applies: nothing sent yet, unpaced, media, padding.
    method SearchPoll(now: Time) returns (next: Option<NextPoll>)
      ensures next == FindNextPoll(View(), now)
    {
      if lastEmitted.None? {
        var k := FindFirstNonEmpty();
        return if k.None? then None else Some(NextPoll(now, FirstEver, Some(queueStates[k.value].midrid)));
      }
      var u := FindFirstMin(UnpacedKeys(queueStates));
      if u.Some? && queueStates[u.value].snapshot.firstUnsent.Some? {
        var q := queueStates[u.value];
        return Some(NextPoll(q.snapshot.firstUnsent.value, Unpaced, Some(q.midrid)));
      }
      var k := FindFirstMin(MediaKeys(queueStates));
      if k.Some? && adjustedBitrate > 0.0 {
        var poll := NextMediaPollOf(now, queueStates[k.value].midrid);
        return Some(poll);
      }
      next := NextPaddingPollOf(now);
    }

    method NextMediaPollOf(now: Time, midrid: MidRid) returns (poll: NextPoll)
      ensures poll == FindMediaPoll(View(), now, midrid)
    {
      if probeQueue != [] {
        return NextPoll(NextProbeTime(probeQueue[0]), Probe1, Some(midrid));
      }
      var drain := DrainTime(mediaDebt, adjustedBitrate);
      var offset := if drain > PACING then drain else 0.0;
      poll := NextPoll(if lastHandleTime.Some? then lastHandleTime.value + offset else now, Paced, Some(midrid));
    }

    method NextPaddingPollOf(now: Time) returns (next: Option<NextPoll>)
      ensures next == FindPaddingPoll(View(), now)
    {
      if !(paddingBitrate > 0.0 && HasPaddingQueue(queueStates)) {
        return None;
      }
      if probeQueue != [] {
        return Some(NextPoll(NextProbeTime(probeQueue[0]), Probe2, None));
      }
      var drain := Max(DrainTime(mediaDebt, adjustedBitrate), DrainTime(paddingDebt, paddingBitrate));
      if drain == 0.0 {
        drain := MICROSECOND;
      }
      next := Some(NextPoll(if lastHandleTime.Some? then lastHandleTime.value + drain else now, Padding, None));
    }

    /**
     Hands out the queue on offer with the probe its packet belongs to. The gate closes with it,
     so that no second queue is handed out before the next timeout.
     */
    method PollQueue() returns (r: Option<Polled>)
      requires Valid()
      modifies `nextPollQueue, `needsTimeoutBeforeNextPoll, `nextPollTime
      ensures Valid() && LeakyBucket.PollQueue(old(View())) == (View(), r)
      ensures r.Some? <==> !old(needsTimeoutBeforeNextPoll) && old(nextPollQueue).Some?
      ensures r.Some? ==> needsTimeoutBeforeNextPoll && nextPollQueue.None?
      ensures r.Some? ==> old(nextPollQueue) == Some(r.value.midrid)
      ensures r.Some? && lastHandleTime.Some? ==> nextPollTime == Some((lastHandleTime.value + MICROSECOND, Immediate))
      ensures r.Some? ==> r.value.cluster == if Ids(probeQueue) == [] then None else Some(Ids(probeQueue)[0])
    {
      if needsTimeoutBeforeNextPoll {
        return None;
      }
      if nextPollQueue.None? {
        return None;
      }
      var next := nextPollQueue.value;
      nextPollQueue := None;
      needsTimeoutBeforeNextPoll := true;
      if lastHandleTime.None? {
        nextPollTime := None;
      } else {
        nextPollTime := Some((lastHandleTime.value + MICROSECOND, Immediate));
      }
      r := Some(Polled(next, ActiveCluster(View())));
    }

    /**
     A packet went out: it is added to the debts, up to 500 ms of their rates, and advances the
     active probe. The slot it may be parked in must be empty, so that no cluster is lost.
     */
    method RegisterSend(now: Time, size: Size)
      requires Valid() && completedProbe.None? && size >= 0.0
      modifies this
      ensures Valid() && View() == LeakyBucket.RegisterSend(old(View()), now, size)
      ensures mediaDebt == Min(old(mediaDebt) + size, Bytes(adjustedBitrate, 0.5))
      ensures paddingDebt == Min(old(paddingDebt) + size, Bytes(paddingBitrate, 0.5))
      ensures Clusters() == old(Clusters())
      ensures completedProbe.Some? <==> old(probeQueue) != [] && Reached(Counted(WorkOn(old(probeQueue)[0]), size))
    {
      AddDebts(now, size);
      RecordOnProbe(now, size);
      var done := PopCompleteProbe();
      if done.Some? {
        completedProbe := done;
      }
    }

    method AddDebts(now: Time, size: Size)
      requires Valid() && size >= 0.0
      modifies `lastEmitted, `mediaDebt, `paddingDebt
      ensures Valid() && View() == AddDebt(old(View()), now, size)
      ensures mediaDebt == Min(old(mediaDebt) + size, Bytes(adjustedBitrate, 0.5))
      ensures paddingDebt == Min(old(paddingDebt) + size, Bytes(paddingBitrate, 0.5))
    {
      BytesMono(adjustedBitrate, 0.0, MAX_DEBT_IN_TIME);
      BytesMono(paddingBitrate, 0.0, MAX_DEBT_IN_TIME);
      lastEmitted := Some(now);
      mediaDebt := mediaDebt + size;
      mediaDebt := Min(mediaDebt, Bytes(adjustedBitrate, MAX_DEBT_IN_TIME));
      paddingDebt := paddingDebt + size;
      paddingDebt := Min(paddingDebt, Bytes(paddingBitrate, MAX_DEBT_IN_TIME));
    }

    method RecordOnProbe(now: Time, size: Size)
      requires Valid()
      modifies `probeQueue
      ensures Valid() && View() == RecordSend(old(View()), now, size)
      ensures Ids(probeQueue) == old(Ids(probeQueue))
      ensures FrontDone(probeQueue) <==> old(probeQueue) != [] && Reached(Counted(WorkOn(old(probeQueue)[0]), size))
    {
      if probeQueue != [] {
        probeQueue := probeQueue[0 := RecordPacket(probeQueue[0], now, size)];
      }
      assert Ids(probeQueue) == old(Ids(probeQueue));
    }

    method StartProbe(config: ProbeConfig)
      requires Valid() && config.targetBitrate >= 0.0
      modifies `probeQueue
      ensures Valid() && View() == LeakyBucket.StartProbe(old(View()), config)
      ensures Clusters() == old(Clusters()) + [config.cluster]
    {
      probeQueue := probeQueue + [NewProbe(config)];
      assert Ids(probeQueue) == old(Ids(probeQueue)) + [config.cluster];
    }

    method PopCompleteProbe() returns (r: Option<ClusterId>)
      requires Valid()
      modifies `probeQueue
      ensures Valid() && PopComplete(old(View())) == (View(), r)
      ensures old(Ids(probeQueue)) == OneId(r) + Ids(probeQueue)
      ensures r.Some? <==> FrontDone(old(probeQueue))
    {
      PopKeepsOrder(View());
      if probeQueue != [] {
        CompleteReached(probeQueue[0], WorkOn(probeQueue[0]));
      }
      if probeQueue == [] || !IsComplete(probeQueue[0]) {
        return None;
      }
      r := Some(probeQueue[0].config.cluster);
      probeQueue := probeQueue[1..];
    }

    /** Collects the oldest cluster if it is parked or complete; the slot is empty afterwards. */
    method CheckProbeComplete() returns (r: Option<ClusterId>)
      requires Valid()
      modifies `probeQueue, `completedProbe
      ensures Valid() && LeakyBucket.CheckProbeComplete(old(View())) == (View(), r)
      ensures completedProbe.None? && old(Clusters()) == OneId(r) + Clusters()
      ensures r.Some? <==> old(completedProbe).Some? || FrontDone(old(probeQueue))
    {
      if completedProbe.Some? {
        r := completedProbe;
        completedProbe := None;
        return;
      }
      r := PopCompleteProbe();
    }
  }

  // What the object promises of a timeout, on values.
  lemma {:induction false} TimeoutFacts(p: Pacer, now: Time, queues: seq<QueueState>)
    requires Sound(p)
    ensures var (q, request) := HandleTimeout(p, now, queues);
            && !q.needsTimeout && q.completedProbe == p.completedProbe
            && q.mediaDebt <= p.mediaDebt <= q.mediaDebt + Bytes(p.adjustedBitrate, Elapsed(p, now))
            && Ids(q.probes) == (if DropsProbes(queues) then [] else Ids(p.probes))
            && TimeoutIsRight(p, now, queues, q, request)
  {
    TimeoutOffers(p, now, queues);
    TimeoutKeepsClusters(p, now, queues);
    PreparedDebt(p, now, queues);
    PaddingKeepsTime(Prepared(p, now, queues), now);
  }

  lemma PreparedIsValid(p: Pacer, now: Time, queues: seq<QueueState>)
    requires BaseRate(p) >= 0.0
    ensures var q := Prepared(p, now, queues); q.adjustedBitrate >= 0.0 && q.mediaDebt >= 0.0 && q.paddingDebt >= 0.0
  {
  }
}
