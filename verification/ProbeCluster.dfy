/** A probe cluster: the plan, and how far its execution has got. */
module ProbeCluster {
  import opened Prelude
  import opened PacerQueues

  type ClusterId = nat

  // The beginning of time, and an instant that will never be reached.
  const ALREADY_HAPPENED: Time := 0.0
  const NOT_HAPPENING: Time := 3153603600.0
  const MAX_PADDING_PACKET_SIZE: Size := 240.0

  datatype ProbeConfig = ProbeConfig(
    cluster: ClusterId, targetBitrate: Rate, targetDuration: real, minPacketCount: nat, minProbeDelta: real)

  datatype ProbeState = ProbeState(
    config: ProbeConfig, bytesSent: Size, packetsSent: nat, startedAt: Option<Time>, lastPaddingAt: Time)

  function NewProbe(config: ProbeConfig): ProbeState {
    ProbeState(config, 0.0, 0, None, ALREADY_HAPPENED)
  }

  /** The bytes a rate amounts to over a duration. */
  function Bytes(rate: Rate, duration: real): Size {
    rate * duration / 8.0
  }

  /** The time a rate needs for a number of bytes; none at all at rate zero. */
  function DrainTime(size: Size, rate: Rate): real {
    if rate == 0.0 then 0.0 else size * 8.0 / rate
  }

  function TargetBytes(c: ProbeConfig): Size {
    Bytes(c.targetBitrate, c.targetDuration)
  }

  function NextProbeTime(p: ProbeState): Time {
    if p.startedAt.None? then ALREADY_HAPPENED
    else if p.config.targetBitrate == 0.0 then NOT_HAPPENING
    else Max(p.startedAt.value + DrainTime(p.bytesSent, p.config.targetBitrate),
             p.lastPaddingAt + p.config.minProbeDelta)
  }

  predicate IsComplete(p: ProbeState) {
    p.startedAt.Some? && p.bytesSent >= TargetBytes(p.config) && p.packetsSent >= p.config.minPacketCount
  }

  predicate ShouldSendNow(p: ProbeState, now: Time) {
    now >= NextProbeTime(p) && now >= p.lastPaddingAt + p.config.minProbeDelta
  }

  // The padding to request now, if any; the first call starts the probe.
  function NextPacket(p: ProbeState, now: Time): (r: (ProbeState, Option<Size>))
    ensures r.0.config == p.config
  {
    var q := if p.startedAt.None? then p.(startedAt := Some(now)) else p;
    if now < q.lastPaddingAt + q.config.minProbeDelta || now < NextProbeTime(q) || q.lastPaddingAt >= now then (q, None)
    else
      var q' := q.(lastPaddingAt := now);
      var burst := Max(Bytes(q.config.targetBitrate, q.config.minProbeDelta), MAX_PADDING_PACKET_SIZE);
      var request := Min(Max(TargetBytes(q.config) - q.bytesSent, 0.0), burst);
      (q', if request == 0.0 then None else Some(request))
  }

  function RecordPacket(p: ProbeState, now: Time, size: Size): (q: ProbeState)
    ensures q.config == p.config
  {
    p.(startedAt := if p.startedAt.None? then Some(now) else p.startedAt,
       bytesSent := p.bytesSent + size, packetsSent := p.packetsSent + 1)
  }
}
