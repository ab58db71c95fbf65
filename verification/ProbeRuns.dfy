/**
 Probe clusters over whole runs: every started cluster is in exactly one place, and the
 single slot for a finished cluster never overwrites one that was not collected yet.
 */
module ProbeRuns {
  import opened Prelude
  import opened PacerQueues
  import opened ProbeCluster
  import opened LeakyBucket

  function Ids(probes: seq<ProbeState>): (ids: seq<ClusterId>)
    ensures |ids| == |probes|
    ensures forall i :: 0 <= i < |ids| ==> ids[i] == probes[i].config.cluster
  {
    seq(|probes|, i requires 0 <= i < |probes| => probes[i].config.cluster)
  }

  function Parked(p: Pacer): seq<ClusterId> {
    OneId(p.completedProbe)
  }

  /** How a cluster left the pacer: reported to the estimator as ended, or dropped. */
  datatype Fate = Ended(id: ClusterId) | Dropped(id: ClusterId)

  function FateIds(fates: seq<Fate>): seq<ClusterId> {
    if fates == [] then [] else FateIds(fates[..|fates| - 1]) + [fates[|fates| - 1].id]
  }

  function EndedIds(fates: seq<Fate>): seq<ClusterId> {
    if fates == [] then [] else
      var f := fates[|fates| - 1];
      EndedIds(fates[..|fates| - 1]) + (if f.Ended? then [f.id] else [])
  }

  function AllDropped(ids: seq<ClusterId>): seq<Fate> {
    if ids == [] then [] else AllDropped(ids[..|ids| - 1]) + [Dropped(ids[|ids| - 1])]
  }

  lemma {:induction false} FateConcat(xs: seq<Fate>, ys: seq<Fate>)
    ensures FateIds(xs + ys) == FateIds(xs) + FateIds(ys)
    ensures EndedIds(xs + ys) == EndedIds(xs) + EndedIds(ys)
  {
    if ys == [] {
      assert xs + ys == xs;
    } else {
      assert (xs + ys)[..|xs + ys| - 1] == xs + ys[..|ys| - 1];
      FateConcat(xs, ys[..|ys| - 1]);
    }
  }

  lemma {:induction false} DroppedFates(ids: seq<ClusterId>)
    ensures FateIds(AllDropped(ids)) == ids && EndedIds(AllDropped(ids)) == []
  {
    if ids != [] {
      var front := ids[..|ids| - 1];
      DroppedFates(front);
      assert AllDropped(ids)[..|AllDropped(ids)| - 1] == AllDropped(front);
      assert ids == front + [ids[|ids| - 1]];
    }
  }

  lemma FateOne(f: Fate)
    ensures FateIds([f]) == [f.id] && EndedIds([f]) == if f.Ended? then [f.id] else []
  {
    assert [f][..0] == [];
  }

  // ---- Effects of the calls on the clusters ----

  /** Probes are dropped just when every queue is empty and none can carry padding. */
  predicate DropsProbes(queues: seq<QueueState>) {
    AllEmpty(queues) && !HasPaddingQueue(queues)
  }

  lemma {:induction false} PaddingKeepsClusters(p: Pacer, now: Time)
    ensures var p1 := RequestPadding(p, now).0;
            && p1.completedProbe == p.completedProbe && p1.needsTimeout == p.needsTimeout
            && Ids(p1.probes) == if DropsProbes(p.queues) then [] else Ids(p.probes)
  {
    var k := LastMax(PaddingKeys(p.queues), |p.queues|);
    assert k.None? <==> !HasPaddingQueue(p.queues) by {
      forall i | 0 <= i < |p.queues| ensures PaddingKeys(p.queues)[i].None? <==> !p.queues[i].useForPadding {}
    }
  }

  lemma {:induction false} TimeoutKeepsClusters(p: Pacer, now: Time, queues: seq<QueueState>)
    ensures var p1 := HandleTimeout(p, now, queues).0;
            && p1.completedProbe == p.completedProbe && !p1.needsTimeout
            && Ids(p1.probes) == if DropsProbes(queues) then [] else Ids(p.probes)
  {
    PaddingKeepsClusters(Prepared(p, now, queues), now);
  }

  // ---- The books of a run ----

  datatype Books = Books(
    started: seq<ClusterId>,    // given to the pacer, in order
    fates: seq<Fate>,           // how they left, in the order they were started
    reported: seq<ClusterId>)   // reported as ended, in the order of the reports

  // The fates decided by one timeout: the parked cluster, then dropped ones, then the active one.
  function Fates(parked: Option<ClusterId>, drops: bool, queued: seq<ClusterId>, report: Option<ClusterId>): seq<Fate> {
    (if parked.Some? then [Ended(parked.value)] else []) +
    (if drops then AllDropped(queued) else []) +
    (if parked.None? && report.Some? then [Ended(report.value)] else [])
  }

  lemma {:induction false} FatesAre(parked: Option<ClusterId>, drops: bool, queued: seq<ClusterId>,
                                    report: Option<ClusterId>)
    requires parked.Some? ==> report == parked
    ensures FateIds(Fates(parked, drops, queued, report)) ==
              OneId(parked) + (if drops then queued else []) + (if parked.None? then OneId(report) else [])
    ensures EndedIds(Fates(parked, drops, queued, report)) == OneId(report)
  {
    var first := if parked.Some? then [Ended(parked.value)] else [];
    var mid := if drops then AllDropped(queued) else [];
    var last := if parked.None? && report.Some? then [Ended(report.value)] else [];
    DroppedFates(queued);
    FateConcat(first + mid, last);
    FateConcat(first, mid);
    if first != [] {
      FateOne(first[0]);
    }
    if last != [] {
      FateOne(last[0]);
    }
  }

  function OneId(id: Option<ClusterId>): seq<ClusterId> {
    if id.None? then [] else [id.value]
  }

  function TickFates(p: Pacer, now: Time, queues: seq<QueueState>, probe: Option<ProbeConfig>): seq<Fate> {
    Fates(p.completedProbe, DropsProbes(queues), Ids(p.probes), SessionTick(p, now, queues, probe).1)
  }

  function AddedId(probe: Option<ProbeConfig>): seq<ClusterId> {
    if probe.None? then [] else [probe.value.cluster]
  }

  function Entered(p: Pacer, a: Action, b: Books): Books {
    match a
    case Tick(now, queues, probe) =>
      var report := SessionTick(p, now, queues, probe).1;
      Books(b.started + AddedId(probe),
            b.fates + TickFates(p, now, queues, probe),
            b.reported + OneId(report))
    case _ => b
  }

  function BooksOf(p: Pacer, actions: seq<Action>): Books {
    if actions == [] then Books([], [], [])
    else
      var n := |actions| - 1;
      Entered(RunFrom(p, actions[..n]), actions[n], BooksOf(p, actions[..n]))
  }

  /** Every started cluster has left, is parked, or is queued, in the order of starting. */
  ghost predicate Balanced(p: Pacer, b: Books) {
    && b.started == FateIds(b.fates) + Parked(p) + Ids(p.probes)
    && b.reported == EndedIds(b.fates)
    && (p.completedProbe.Some? ==> p.needsTimeout)
  }

  lemma PopKeepsOrder(p: Pacer)
    ensures var (p1, done) := PopComplete(p);
            && Ids(p.probes) == OneId(done) + Ids(p1.probes)
            && p1.completedProbe == p.completedProbe && p1.needsTimeout == p.needsTimeout
  {
    var (p1, done) := PopComplete(p);
    if done.Some? {
      assert Ids(p.probes) == [p.probes[0].config.cluster] + Ids(p.probes[1..]);
    }
  }

  // Starting a probe and collecting a finished one.
  lemma {:induction false} CollectMoves(p1: Pacer, probe: Option<ProbeConfig>)
    ensures var p2 := if probe.None? then p1 else StartProbe(p1, probe.value);
            var (q, report) := CheckProbeComplete(p2);
            && q.completedProbe.None?
            && (p1.completedProbe.Some? ==> report == p1.completedProbe)
            && Ids(p1.probes) + AddedId(probe)
                 == (if p1.completedProbe.None? then OneId(report) else []) + Ids(q.probes)
  {
    var p2 := if probe.None? then p1 else StartProbe(p1, probe.value);
    assert Ids(p2.probes) == Ids(p1.probes) + AddedId(probe);
    PopKeepsOrder(p2);
  }

  lemma OrderKept(parked: seq<ClusterId>, queued: seq<ClusterId>, dropped: seq<ClusterId>, kept: seq<ClusterId>,
                  added: seq<ClusterId>, popped: seq<ClusterId>, left: seq<ClusterId>)
    requires queued == dropped + kept && kept + added == popped + left
    ensures parked + queued + added == parked + dropped + popped + left
  {
    assert parked + (dropped + kept) + added == parked + dropped + (kept + added);
    assert parked + dropped + (popped + left) == parked + dropped + popped + left;
  }

  // The clusters around a timeout: p before, q after.
  lemma {:induction false} TickMoves(p: Pacer, now: Time, queues: seq<QueueState>, probe: Option<ProbeConfig>)
    ensures var (q, report) := SessionTick(p, now, queues, probe);
            && q.completedProbe.None?
            && Parked(p) + Ids(p.probes) + AddedId(probe) == FateIds(TickFates(p, now, queues, probe)) + Ids(q.probes)
            && EndedIds(TickFates(p, now, queues, probe)) == OneId(report)
  {
    var p1 := HandleTimeout(p, now, queues).0;
    TimeoutKeepsClusters(p, now, queues);
    CollectMoves(p1, probe);
    var (q, report) := SessionTick(p, now, queues, probe);
    var queued := Ids(p.probes);
    FatesAre(p.completedProbe, DropsProbes(queues), queued, report);
    OrderKept(Parked(p), queued, if DropsProbes(queues) then queued else [], Ids(p1.probes), AddedId(probe),
              if p.completedProbe.None? then OneId(report) else [], Ids(q.probes));
  }

  lemma BooksArithmetic(started: seq<ClusterId>, gone: seq<ClusterId>, parked: seq<ClusterId>, queued: seq<ClusterId>,
                        added: seq<ClusterId>, fates: seq<ClusterId>, left: seq<ClusterId>)
    requires started == gone + parked + queued && parked + queued + added == fates + left
    ensures started + added == gone + fates + [] + left
  {
    assert gone + parked + queued + added == gone + (parked + queued + added);
    assert gone + (fates + left) == gone + fates + [] + left;
  }

  lemma {:induction false} TickBalances(p: Pacer, now: Time, queues: seq<QueueState>, probe: Option<ProbeConfig>,
                                        b: Books)
    requires Balanced(p, b)
    ensures Balanced(SessionTick(p, now, queues, probe).0, Entered(p, Tick(now, queues, probe), b))
  {
    TickMoves(p, now, queues, probe);
    var q, fates := SessionTick(p, now, queues, probe).0, TickFates(p, now, queues, probe);
    FateConcat(b.fates, fates);
    BooksArithmetic(b.started, FateIds(b.fates), Parked(p), Ids(p.probes), AddedId(probe), FateIds(fates),
                    Ids(q.probes));
  }

  lemma {:induction false} SendMoves(p: Pacer, now: Time, size: Size)
    requires p.completedProbe.None?
    ensures Parked(RegisterSend(p, now, size)) + Ids(RegisterSend(p, now, size).probes) == Ids(p.probes)
    ensures RegisterSend(p, now, size).needsTimeout == p.needsTimeout
  {
    var p2 := RecordSend(AddDebt(p, now, size), now, size);
    assert Ids(p2.probes) == Ids(p.probes);
    PopKeepsOrder(p2);
  }

  lemma {:induction false} PollBalances(p: Pacer, at: Time, receipt: Option<Size>, b: Books)
    requires Balanced(p, b)
    ensures Balanced(SessionPoll(p, at, receipt).0, b)
  {
    var (p1, polled) := PollQueue(p);
    if polled.Some? && receipt.Some? {
      SendMoves(p1, at, receipt.value);
      assert Parked(p) + Ids(p.probes) == Ids(p1.probes);
      SameClusters(p, RegisterSend(p1, at, receipt.value), b);
    }
  }

  // Moving clusters between queue and slot without changing their order.
  lemma SameClusters(p: Pacer, q: Pacer, b: Books)
    requires Balanced(p, b) && q.needsTimeout && Parked(q) + Ids(q.probes) == Parked(p) + Ids(p.probes)
    ensures Balanced(q, b)
  {
    assert FateIds(b.fates) + Parked(p) + Ids(p.probes) == FateIds(b.fates) + (Parked(p) + Ids(p.probes));
    assert FateIds(b.fates) + Parked(q) + Ids(q.probes) == FateIds(b.fates) + (Parked(q) + Ids(q.probes));
  }

  /**
   Over every run of session steps each started cluster is in exactly one place: still
   queued, parked as completed, reported once as ended in start order, or dropped.
   */
  lemma {:induction false} ProbesConserved(rate: Rate, actions: seq<Action>)
    ensures Balanced(RunFrom(NewPacer(rate), actions), BooksOf(NewPacer(rate), actions))
  {
    if actions == [] {
      assert Ids([]) == [];
    } else {
      var n := |actions| - 1;
      ProbesConserved(rate, actions[..n]);
      var p, b := RunFrom(NewPacer(rate), actions[..n]), BooksOf(NewPacer(rate), actions[..n]);
      match actions[n]
      case Tick(now, queues, probe) => TickBalances(p, now, queues, probe, b);
      case Poll(at, receipt) => PollBalances(p, at, receipt, b);
      case SetRates(_, _) =>
    }
  }

  /** In every run the slot is empty whenever a send may write it. */
  lemma {:induction false} SlotNeverOverwritten(rate: Rate, actions: seq<Action>)
    ensures var p := RunFrom(NewPacer(rate), actions);
            PollQueue(p).1.Some? ==> PollQueue(p).0.completedProbe.None?
  {
    ProbesConserved(rate, actions);
  }

  // ---- The gate between packets ----

  predicate Sends(p: Pacer, a: Action) {
    a.Poll? && SessionPoll(p, a.at, a.receipt).1.Some?
  }

  function Packets(p: Pacer, actions: seq<Action>): nat {
    if actions == [] then 0 else
      var n := |actions| - 1;
      Packets(p, actions[..n]) + if Sends(RunFrom(p, actions[..n]), actions[n]) then 1 else 0
  }

  function Ticks(actions: seq<Action>): nat {
    if actions == [] then 0 else Ticks(actions[..|actions| - 1]) + if actions[|actions| - 1].Tick? then 1 else 0
  }

  // What the gate lets through before the next timeout.
  function Gate(p: Pacer): nat {
    if p.needsTimeout then 0 else 1
  }

  lemma {:induction false} GateStep(p: Pacer, a: Action)
    ensures (if Sends(p, a) then 1 else 0) + Gate(Act(p, a)) <= (if a.Tick? then 1 else 0) + Gate(p)
  {
    if a.Poll? {
      var p1 := PollQueue(p).0;
      if PollQueue(p).1.Some? && a.receipt.Some? {
        var p2 := RegisterSend(p1, a.at, a.receipt.value);
        assert p1.needsTimeout && p2.needsTimeout;
      }
    }
  }

  /** In any run every packet uses up a timeout: one that came before it, or the gate being open at the start. */
  lemma {:induction false} PacketsNeedTimeouts(p: Pacer, actions: seq<Action>)
    ensures Packets(p, actions) + Gate(RunFrom(p, actions)) <= Ticks(actions) + Gate(p)
  {
    if actions != [] {
      var n := |actions| - 1;
      PacketsNeedTimeouts(p, actions[..n]);
      GateStep(RunFrom(p, actions[..n]), actions[n]);
    }
  }

  /** After a packet no other one leaves before the next timeout, whatever else happens. */
  lemma {:induction false} OnePacketPerTimeout(p: Pacer, a: Action, actions: seq<Action>)
    requires Sends(p, a) && Ticks(actions) == 0
    ensures Packets(Act(p, a), actions) == 0
  {
    GateStep(p, a);
    PacketsNeedTimeouts(Act(p, a), actions);
  }
}
