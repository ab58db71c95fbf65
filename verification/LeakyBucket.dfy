/**
 The leaky bucket pacer, call by call, as functions on its state.

 Sending adds to a debt that drains at the pacing rate. A poll hands out at most one
 queue between two timeouts: the gate closes with the poll and opens with the next
 timeout. Probe clusters wait in a queue; one finished while sending is parked in a
 single slot until the session collects it.
 */
module LeakyBucket {
  import opened Prelude
  import opened PacerQueues
  import opened ProbeCluster

  const MAX_BITRATE: Rate := 10000000000.0
  const MAX_DEBT_IN_TIME: real := 0.5
  const PADDING_BURST_INTERVAL: real := 0.005
  const PACING: real := 0.04
  const QUEUE_LIMIT: real := 2.0
  const MIN_QUEUE_WAIT: real := 0.001
  const MICROSECOND: real := 0.000001

  datatype Reason = FirstEver | Unpaced | Probe1 | Probe2 | Paced | Padding | Immediate

  datatype Pacer = Pacer(
    pacingBitrate: Rate, adjustedBitrate: Rate, paddingBitrate: Rate,
    lastHandle: Option<Time>, lastEmitted: Option<Time>, nextPollTime: Option<(Time, Reason)>,
    mediaDebt: Size, paddingDebt: Size, queues: seq<QueueState>, nextPollQueue: Option<MidRid>,
    probes: seq<ProbeState>, completedProbe: Option<ClusterId>, needsTimeout: bool, hasPaddingQueue: bool)

  function NewPacer(rate: Rate): Pacer {
    Pacer(rate, 0.0, 0.0, None, None, None, 0.0, 0.0, [], None, [], None, true, false)
  }

  // ---- Parts of handle_timeout ----

  function Elapsed(p: Pacer, now: Time): (e: real)
    ensures e >= 0.0
  {
    if p.lastHandle.None? then 0.0 else Max(now - p.lastHandle.value, 0.0)
  }

  function ClearDebt(p: Pacer, elapsed: real): Pacer {
    p.(mediaDebt := Max(p.mediaDebt - Bytes(p.adjustedBitrate, elapsed), 0.0),
       paddingDebt := Max(p.paddingDebt - Bytes(p.paddingBitrate, elapsed), 0.0))
  }

  datatype Backlog = Backlog(queueTime: real, packets: nat, size: Size)

  // Queue time, packets and bytes over the first n queues.
  function BacklogOf(qs: seq<QueueState>, now: Time, n: nat): Backlog
    requires n <= |qs|
  {
    if n == 0 then Backlog(0.0, 0, 0.0) else
      var b, s := BacklogOf(qs, now, n - 1), qs[n - 1].snapshot;
      Backlog(b.queueTime + (s.queueTimeOrigin + s.packetCount as real * Max(now - s.createdAt, 0.0)),
              b.packets + s.packetCount, b.size + s.byteSize as real)
  }

  function BaseRate(p: Pacer): Rate {
    if p.probes != [] then p.probes[0].config.targetBitrate else p.pacingBitrate
  }

  // How long the queued packets may still wait on average.
  function QueueWait(b: Backlog): (wait: real)
    requires b.packets > 0
    ensures wait >= MIN_QUEUE_WAIT
  {
    Max(MIN_QUEUE_WAIT, Max(QUEUE_LIMIT - b.queueTime / b.packets as real, 0.0))
  }

  // The target of the active probe, or the pacing rate, raised to drain queues in time.
  function AdjustedRate(p: Pacer, now: Time): Rate {
    var rate, b := BaseRate(p), BacklogOf(p.queues, now, |p.queues|);
    if b.packets == 0 then rate else
      var minRate := b.size * 8.0 / QueueWait(b);
      if minRate > rate then Min(Max(minRate, 0.0), MAX_BITRATE) else rate
  }

  // Padding is due only when all queues are empty; without a queue for it probes are dropped.
  function RequestPadding(p: Pacer, now: Time): (Pacer, Option<PaddingRequest>) {
    if !AllEmpty(p.queues) then (p, None) else
      var k := LastMax(PaddingKeys(p.queues), |p.queues|);
      if k.None? then (p.(hasPaddingQueue := false, probes := []), None) else
        var midrid := p.queues[k.value].midrid;
        var p1 := p.(hasPaddingQueue := true);
        if p.probes != [] then
          if !ShouldSendNow(p.probes[0], now) then (p1, None) else
            var (probe, size) := NextPacket(p.probes[0], now);
            var p2 := p1.(probes := p.probes[0 := probe]);
            if size.None? then (p2, None) else (p2, Some(PaddingRequest(midrid, size.value)))
        else if p.mediaDebt != 0.0 || p.paddingDebt != 0.0 || p.paddingBitrate == 0.0 then (p1, None)
        else (p1, Some(PaddingRequest(midrid, Bytes(p.paddingBitrate, PADDING_BURST_INTERVAL))))
  }

  datatype NextPoll = NextPoll(at: Time, reason: Reason, queue: Option<MidRid>)

  function PacedOffset(p: Pacer): real {
    var drain := DrainTime(p.mediaDebt, p.adjustedBitrate);
    if drain > PACING then drain else 0.0
  }

  // Padding waits until both debts are drained, or for the probe; no queue is on offer yet.
  function FindPaddingPoll(p: Pacer, now: Time): Option<NextPoll> {
    if !(p.paddingBitrate > 0.0 && HasPaddingQueue(p.queues)) then None
    else if p.probes != [] then Some(NextPoll(NextProbeTime(p.probes[0]), Probe2, None))
    else
      var drain := Max(DrainTime(p.mediaDebt, p.adjustedBitrate), DrainTime(p.paddingDebt, p.paddingBitrate));
      var offset := if drain == 0.0 then MICROSECOND else drain;
      Some(NextPoll(if p.lastHandle.Some? then p.lastHandle.value + offset else now, Padding, None))
  }

  // Media follows the probe, or else waits for the debt to drain if that takes too long.
  function FindMediaPoll(p: Pacer, now: Time, midrid: MidRid): NextPoll {
    if p.probes != [] then NextPoll(NextProbeTime(p.probes[0]), Probe1, Some(midrid))
    else NextPoll(if p.lastHandle.Some? then p.lastHandle.value + PacedOffset(p) else now, Paced, Some(midrid))
  }

  function FindNextPoll(p: Pacer, now: Time): Option<NextPoll> {
    var qs := p.queues;
    if p.lastEmitted.None? then
      var k := FirstNonEmpty(qs, |qs|);
      if k.None? then None else Some(NextPoll(now, FirstEver, Some(qs[k.value].midrid)))
    else
      var u := FirstMin(UnpacedKeys(qs), |qs|);
      if u.Some? && qs[u.value].snapshot.firstUnsent.Some? then
        Some(NextPoll(qs[u.value].snapshot.firstUnsent.value, Unpaced, Some(qs[u.value].midrid)))
      else
        var k := FirstMin(MediaKeys(qs), |qs|);
        if k.Some? && p.adjustedBitrate > 0.0 then Some(FindMediaPoll(p, now, qs[k.value].midrid))
        else FindPaddingPoll(p, now)
  }

  // The state when a padding decision is due: gate open, debt drained, rate adjusted.
  function Prepared(p: Pacer, now: Time, queues: seq<QueueState>): Pacer {
    var p1 := p.(needsTimeout := false, nextPollTime := None, queues := queues, lastHandle := Some(now));
    var p2 := ClearDebt(p1, Elapsed(p, now));
    p2.(adjustedBitrate := AdjustedRate(p2, now))
  }

  // Takes up what was found: the queue is on offer once its time has come.
  function TakenUp(p: Pacer, now: Time, next: Option<NextPoll>): Pacer {
    if next.None? then p
    else p.(nextPollQueue := if now < next.value.at then None else next.value.queue,
            nextPollTime := Some((next.value.at, next.value.reason)))
  }

  // What is on offer after the padding decision: the queue for padding, what was on offer, or what is found.
  function Offer(p: Pacer, request: Option<PaddingRequest>, now: Time): Pacer {
    if request.Some? then p.(nextPollQueue := Some(request.value.midrid))
    else if p.nextPollQueue.Some? then p
    else TakenUp(p, now, FindNextPoll(p, now))
  }

  function HandleTimeout(p: Pacer, now: Time, queues: seq<QueueState>): (Pacer, Option<PaddingRequest>) {
    var (p1, request) := RequestPadding(Prepared(p, now, queues), now);
    (Offer(p1, request, now), request)
  }

  // ---- The other calls ----

  function ActiveCluster(p: Pacer): Option<ClusterId> {
    if p.probes == [] then None else Some(p.probes[0].config.cluster)
  }

  datatype Polled = Polled(midrid: MidRid, cluster: Option<ClusterId>)

  function PollQueue(p: Pacer): (Pacer, Option<Polled>) {
    if p.needsTimeout || p.nextPollQueue.None? then (p, None)
    else (p.(nextPollQueue := None, needsTimeout := true,
             nextPollTime := if p.lastHandle.None? then None else Some((p.lastHandle.value + MICROSECOND, Immediate))),
          Some(Polled(p.nextPollQueue.value, ActiveCluster(p))))
  }

  // Pops the active probe if it is complete.
  function PopComplete(p: Pacer): (Pacer, Option<ClusterId>) {
    if p.probes != [] && IsComplete(p.probes[0]) then (p.(probes := p.probes[1..]), Some(p.probes[0].config.cluster))
    else (p, None)
  }

  // The packet in the debts, each capped at 500 ms of its rate.
  function AddDebt(p: Pacer, now: Time, size: Size): Pacer {
    p.(lastEmitted := Some(now),
       mediaDebt := Min(p.mediaDebt + size, Bytes(p.adjustedBitrate, MAX_DEBT_IN_TIME)),
       paddingDebt := Min(p.paddingDebt + size, Bytes(p.paddingBitrate, MAX_DEBT_IN_TIME)))
  }

  function RecordSend(p: Pacer, now: Time, size: Size): Pacer {
    if p.probes == [] then p else p.(probes := p.probes[0 := RecordPacket(p.probes[0], now, size)])
  }

  function RegisterSend(p: Pacer, now: Time, size: Size): Pacer {
    var (q, done) := PopComplete(RecordSend(AddDebt(p, now, size), now, size));
    if done.Some? then q.(completedProbe := done) else q
  }

  function StartProbe(p: Pacer, config: ProbeConfig): Pacer {
    p.(probes := p.probes + [NewProbe(config)])
  }

  function CheckProbeComplete(p: Pacer): (Pacer, Option<ClusterId>) {
    if p.completedProbe.Some? then (p.(completedProbe := None), p.completedProbe) else PopComplete(p)
  }

  // ---- The session around the pacer ----

  /**
   What the session does with the pacer: a timeout updates the queues, may start a probe and
   collects at most one finished probe; a poll sends one packet if the polled queue has one.
   */
  datatype Action =
    | Tick(now: Time, queues: seq<QueueState>, probe: Option<ProbeConfig>)
    | Poll(at: Time, receipt: Option<Size>)
    | SetRates(pacing: Rate, padding: Rate)

  // Starts a probe, if there is one to start, and collects a finished one.
  function StartAndCollect(p: Pacer, probe: Option<ProbeConfig>): (Pacer, Option<ClusterId>) {
    CheckProbeComplete(if probe.None? then p else StartProbe(p, probe.value))
  }

  function SessionTick(p: Pacer, now: Time, queues: seq<QueueState>, probe: Option<ProbeConfig>)
    : (Pacer, Option<ClusterId>)
  {
    StartAndCollect(HandleTimeout(p, now, queues).0, probe)
  }

  // The packet size, if a packet goes out.
  function SessionPoll(p: Pacer, now: Time, receipt: Option<Size>): (Pacer, Option<Size>) {
    var (p1, polled) := PollQueue(p);
    if polled.None? || receipt.None? then (p1, None) else (RegisterSend(p1, now, receipt.value), receipt)
  }

  function Act(p: Pacer, a: Action): Pacer {
    match a
    case Tick(now, queues, probe) => SessionTick(p, now, queues, probe).0
    case Poll(now, receipt) => SessionPoll(p, now, receipt).0
    case SetRates(pacing, padding) => p.(pacingBitrate := pacing, paddingBitrate := padding)
  }

  function RunFrom(p: Pacer, actions: seq<Action>): Pacer {
    if actions == [] then p
    else Act(RunFrom(p, actions[..|actions| - 1]), actions[|actions| - 1])
  }
}
