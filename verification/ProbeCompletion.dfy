/**
 When a probe cluster ends: over every run a cluster is reported as ended, or parked for the
 report, exactly when the packets sent while it was the active one have reached its targets.
 */
module ProbeCompletion {
  import opened Prelude
  import opened PacerQueues
  import opened ProbeCluster
  import opened LeakyBucket
  import opened ProbeRuns

  /** A started cluster and what was sent while it was the active one. */
  datatype Work = Work(config: ProbeConfig, bytes: Size, packets: nat)

  /** The sent bytes make up the target rate over the target duration, in enough packets. */
  predicate Reached(w: Work) {
    w.bytes * 8.0 >= w.config.targetBitrate * w.config.targetDuration && w.packets >= w.config.minPacketCount
  }

  /** What a cluster in the pacer has done. */
  function WorkOn(s: ProbeState): Work {
    Work(s.config, s.bytesSent, s.packetsSent)
  }

  /** One more packet. */
  function Counted(w: Work, size: Size): Work {
    w.(bytes := w.bytes + size, packets := w.packets + 1)
  }

  /** The active cluster has begun and reached its targets. */
  predicate FrontDone(probes: seq<ProbeState>) {
    probes != [] && probes[0].startedAt.Some? && Reached(WorkOn(probes[0]))
  }

  // Not ended yet: nothing was sent for it, or not enough.
  predicate Unfinished(w: Work) {
    w.packets == 0 || !Reached(w)
  }

  // The active cluster is the oldest one that is still queued.
  function ActiveAt(p: Pacer, ws: seq<Work>): int {
    |ws| - |p.probes|
  }

  function Credited(p: Pacer, ws: seq<Work>, size: Size): (r: seq<Work>)
    ensures |r| == |ws|
  {
    var k := ActiveAt(p, ws);
    if p.probes == [] || !(0 <= k < |ws|) then ws
    else ws[k := Counted(ws[k], size)]
  }

  /** The log of the work: a timeout may start a cluster, a packet counts for the active one. */
  function WorkAfter(p: Pacer, a: Action, ws: seq<Work>): seq<Work> {
    match a
    case Tick(_, _, probe) => if probe.None? then ws else ws + [Work(probe.value, 0.0, 0)]
    case Poll(_, receipt) => if Sends(p, a) then Credited(p, ws, receipt.value) else ws
    case SetRates(_, _) => ws
  }

  function WorkOf(p: Pacer, actions: seq<Action>): seq<Work> {
    if actions == [] then [] else
      var n := |actions| - 1;
      WorkAfter(RunFrom(p, actions[..n]), actions[n], WorkOf(p, actions[..n]))
  }

  // A queued cluster knows its plan and what was sent for it.
  ghost predicate Knows(s: ProbeState, w: Work) {
    s.config == w.config && s.bytesSent == w.bytes && s.packetsSent == w.packets
  }

  ghost predicate InStep(s: ProbeState, w: Work) {
    Knows(s, w) && Unfinished(w)
  }

  ghost predicate QueueInStep(probes: seq<ProbeState>, ws: seq<Work>) {
    |probes| <= |ws| && forall i :: 0 <= i < |probes| ==> InStep(probes[i], ws[|ws| - |probes| + i])
  }

  ghost predicate FateDecided(f: Fate, w: Work) {
    f.id == w.config.cluster && (if f.Ended? then Reached(w) else Unfinished(w))
  }

  /** Every cluster ended having reached its targets, or was dropped or still waits without having reached them. */
  ghost predicate Decided(p: Pacer, fates: seq<Fate>, ws: seq<Work>) {
    && |fates| + |Parked(p)| + |p.probes| == |ws|
    && (forall j :: 0 <= j < |fates| ==> FateDecided(fates[j], ws[j]))
    && (p.completedProbe.Some? ==> FateDecided(Ended(p.completedProbe.value), ws[|fates|]))
    && QueueInStep(p.probes, ws)
  }

  // ---- Completion of one probe ----

  lemma CompleteReached(s: ProbeState, w: Work)
    requires Knows(s, w)
    ensures IsComplete(s) <==> s.startedAt.Some? && Reached(w)
  {
    assert TargetBytes(w.config) == w.config.targetBitrate * w.config.targetDuration / 8.0;
  }

  // Only the active probe, once started, may have reached its targets.
  ghost predicate MayPop(probes: seq<ProbeState>, ws: seq<Work>) {
    |probes| <= |ws| && forall i :: 0 <= i < |probes| ==> MayBeDone(probes[i], ws[|ws| - |probes| + i], i)
  }

  ghost predicate MayBeDone(s: ProbeState, w: Work, i: nat) {
    Knows(s, w) && (i > 0 || s.startedAt.None? ==> Unfinished(w))
  }

  lemma InStepMayPop(probes: seq<ProbeState>, ws: seq<Work>)
    requires QueueInStep(probes, ws)
    ensures MayPop(probes, ws)
  {
    forall i | 0 <= i < |probes| ensures MayBeDone(probes[i], ws[|ws| - |probes| + i], i) {
      assert InStep(probes[i], ws[|ws| - |probes| + i]);
    }
  }

  // Popping the active probe, with the work kept in step before the test.
  lemma {:induction false} PopDecides(p: Pacer, ws: seq<Work>)
    requires MayPop(p.probes, ws)
    ensures var (q, done) := PopComplete(p);
            && QueueInStep(q.probes, ws)
            && (done.Some? ==> p.probes != [] && FateDecided(Ended(done.value), ws[|ws| - |p.probes|]))
            && |q.probes| + |OneId(done)| == |p.probes|
  {
    if p.probes != [] {
      assert MayBeDone(p.probes[0], ws[|ws| - |p.probes|], 0);
      CompleteReached(p.probes[0], ws[|ws| - |p.probes|]);
      var q := PopComplete(p).0;
      forall i | 0 <= i < |q.probes| ensures InStep(q.probes[i], ws[|ws| - |q.probes| + i]) {
        var k := i + |p.probes| - |q.probes|;
        assert MayBeDone(p.probes[k], ws[|ws| - |p.probes| + k], k);
      }
    }
  }

  // ---- A packet ----

  lemma {:induction false} SendDecides(p: Pacer, now: Time, size: Size, fates: seq<Fate>, ws: seq<Work>)
    requires Decided(p, fates, ws) && p.completedProbe.None?
    ensures Decided(RegisterSend(p, now, size), fates, Credited(p, ws, size))
  {
    var p1, vs := RecordSend(AddDebt(p, now, size), now, size), Credited(p, ws, size);
    if p.probes != [] {
      forall i | 0 <= i < |p1.probes| ensures MayBeDone(p1.probes[i], vs[|vs| - |p1.probes| + i], i) {
        assert InStep(p.probes[i], ws[|ws| - |p.probes| + i]);
      }
      PopDecides(p1, vs);
    }
  }

  // ---- A timeout ----

  // Asking for padding may start the active probe, but sends nothing.
  ghost predicate SameWork(s: ProbeState, s': ProbeState) {
    s'.config == s.config && s'.bytesSent == s.bytesSent && s'.packetsSent == s.packetsSent
  }

  ghost predicate SameWorks(probes: seq<ProbeState>, probes': seq<ProbeState>) {
    |probes'| == |probes| && forall i :: 0 <= i < |probes| ==> SameWork(probes[i], probes'[i])
  }

  lemma NextPacketKeepsWork(s: ProbeState, now: Time)
    ensures SameWork(s, NextPacket(s, now).0)
  {
  }

  lemma {:induction false} PaddingKeepsWork(p: Pacer, now: Time)
    ensures var p1 := RequestPadding(p, now).0;
            && p1.completedProbe == p.completedProbe
            && (if DropsProbes(p.queues) then p1.probes == []
                else SameWorks(p.probes, p1.probes))
  {
    PaddingKeepsClusters(p, now);
    if p.probes != [] {
      NextPacketKeepsWork(p.probes[0], now);
    }
  }

  lemma {:induction false} TimeoutKeepsWork(p: Pacer, now: Time, queues: seq<QueueState>)
    ensures var p1 := HandleTimeout(p, now, queues).0;
            && p1.completedProbe == p.completedProbe
            && (if DropsProbes(queues) then p1.probes == []
                else SameWorks(p.probes, p1.probes))
  {
    PaddingKeepsWork(Prepared(p, now, queues), now);
  }

  // The clusters dropped by a timeout had not ended.
  lemma {:induction false} DropsDecided(probes: seq<ProbeState>, ws: seq<Work>, n: nat)
    requires QueueInStep(probes, ws) && n <= |probes|
    ensures var fs := AllDropped(Ids(probes)[..n]);
            |fs| == n && forall j :: 0 <= j < n ==> FateDecided(fs[j], ws[|ws| - |probes| + j])
  {
    if n > 0 {
      DropsDecided(probes, ws, n - 1);
      assert Ids(probes)[..n][..n - 1] == Ids(probes)[..n - 1];
      assert InStep(probes[n - 1], ws[|ws| - |probes| + n - 1]);
    }
  }

  // The fates fs fit the clusters from position base on.
  ghost predicate FatesFit(fs: seq<Fate>, ws: seq<Work>, base: nat) {
    base + |fs| <= |ws| && forall j :: 0 <= j < |fs| ==> FateDecided(fs[j], ws[base + j])
  }

  // What collecting makes of a queue in step.
  ghost predicate Collected(p1: Pacer, added: nat, ws: seq<Work>, q: Pacer, report: Option<ClusterId>) {
    && QueueInStep(q.probes, ws) && q.completedProbe.None?
    && (p1.completedProbe.Some? ==> |q.probes| == |p1.probes| + added && report == p1.completedProbe)
    && (p1.completedProbe.None? ==> |q.probes| + |OneId(report)| == |p1.probes| + added)
    && (p1.completedProbe.None? && report.Some? ==>
          |q.probes| < |ws| && FatesFit([Ended(report.value)], ws, |ws| - |q.probes| - 1))
  }

  // Starting a probe and collecting a finished one, after the queue has been dealt with.
  lemma {:induction false} CollectDecides(p1: Pacer, probe: Option<ProbeConfig>, ws: seq<Work>)
    requires QueueInStep(p1.probes, ws)
    ensures var vs := if probe.None? then ws else ws + [Work(probe.value, 0.0, 0)];
            var r := StartAndCollect(p1, probe);
            Collected(p1, |AddedId(probe)|, vs, r.0, r.1)
  {
    var p2 := if probe.None? then p1 else StartProbe(p1, probe.value);
    var vs := if probe.None? then ws else ws + [Work(probe.value, 0.0, 0)];
    forall i | 0 <= i < |p2.probes| ensures InStep(p2.probes[i], vs[|vs| - |p2.probes| + i]) {
      if i < |p1.probes| {
        assert InStep(p1.probes[i], ws[|ws| - |p1.probes| + i]);
      }
    }
    InStepMayPop(p2.probes, vs);
    PopDecides(p2, vs);
  }

  lemma FatesFitConcat(xs: seq<Fate>, ys: seq<Fate>, ws: seq<Work>, base: nat)
    requires FatesFit(xs, ws, base) && FatesFit(ys, ws, base + |xs|)
    ensures FatesFit(xs + ys, ws, base)
  {
    forall j | 0 <= j < |xs + ys| ensures FateDecided((xs + ys)[j], ws[base + j]) {
      if j >= |xs| {
        assert FateDecided(ys[j - |xs|], ws[base + |xs| + (j - |xs|)]);
      }
    }
  }

  lemma FitStays(fs: seq<Fate>, ws: seq<Work>, vs: seq<Work>, base: nat)
    requires FatesFit(fs, ws, base) && ws <= vs
    ensures FatesFit(fs, vs, base)
  {
    forall j | 0 <= j < |fs| ensures FateDecided(fs[j], vs[base + j]) {
      assert vs[base + j] == ws[base + j];
    }
  }

  function EndedOne(id: Option<ClusterId>): seq<Fate> {
    if id.None? then [] else [Ended(id.value)]
  }

  function DroppedBy(drops: bool, probes: seq<ProbeState>): seq<Fate> {
    if drops then AllDropped(Ids(probes)) else []
  }

  // What the timeout decides before the report: the parked cluster has ended, then come the dropped ones.
  lemma {:induction false} FirstFates(p: Pacer, drops: bool, fates: seq<Fate>, ws: seq<Work>)
    requires Decided(p, fates, ws)
    ensures FatesFit(fates + EndedOne(p.completedProbe) + DroppedBy(drops, p.probes), ws, 0)
    ensures drops ==> |DroppedBy(drops, p.probes)| == |p.probes|
  {
    assert FatesFit(fates, ws, 0);
    FatesFitConcat(fates, EndedOne(p.completedProbe), ws, 0);
    if drops {
      DropsDecided(p.probes, ws, |p.probes|);
      assert Ids(p.probes)[..|p.probes|] == Ids(p.probes);
    }
    FatesFitConcat(fates + EndedOne(p.completedProbe), DroppedBy(drops, p.probes), ws, 0);
  }

  lemma Regroup(fates: seq<Fate>, a: seq<Fate>, b: seq<Fate>, c: seq<Fate>)
    ensures fates + a + b + c == fates + (a + b + c)
  {
  }

  lemma {:induction false} TickCollects(p: Pacer, now: Time, queues: seq<QueueState>, probe: Option<ProbeConfig>,
                                        ws: seq<Work>)
    requires QueueInStep(p.probes, ws)
    ensures var p1, r := HandleTimeout(p, now, queues).0, SessionTick(p, now, queues, probe);
            && p1.completedProbe == p.completedProbe
            && |p1.probes| == (if DropsProbes(queues) then 0 else |p.probes|)
            && Collected(p1, |AddedId(probe)|, WorkAfter(p, Tick(now, queues, probe), ws), r.0, r.1)
  {
    TimeoutKeepsWork(p, now, queues);
    QueueStays(p.probes, HandleTimeout(p, now, queues).0.probes, ws);
    CollectDecides(HandleTimeout(p, now, queues).0, probe, ws);
  }

  // The fates so far fit all clusters that are no longer queued.
  lemma FitDecides(q: Pacer, fates: seq<Fate>, ws: seq<Work>)
    requires QueueInStep(q.probes, ws) && q.completedProbe.None?
    requires FatesFit(fates, ws, 0) && |fates| + |q.probes| == |ws|
    ensures Decided(q, fates, ws)
  {
    forall j | 0 <= j < |fates| ensures FateDecided(fates[j], ws[j]) {
      assert FateDecided(fates[j], ws[0 + j]);
    }
  }

  // What the report adds: the cluster that has just ended, unless the parked one was reported.
  function LastFate(parked: Option<ClusterId>, report: Option<ClusterId>): seq<Fate> {
    if parked.None? then EndedOne(report) else []
  }

  lemma {:induction false} LastFits(p1: Pacer, added: nat, q: Pacer, report: Option<ClusterId>, vs: seq<Work>, n: nat)
    requires Collected(p1, added, vs, q, report) && n + |p1.probes| + added == |vs|
    ensures FatesFit(LastFate(p1.completedProbe, report), vs, n)
    ensures n + |LastFate(p1.completedProbe, report)| + |q.probes| == |vs|
  {
  }

  // Putting the fates of a timeout behind those before.
  lemma {:induction false} Assemble(p: Pacer, p1: Pacer, drops: bool, added: nat, q: Pacer, report: Option<ClusterId>,
                                    fates: seq<Fate>, ws: seq<Work>, vs: seq<Work>)
    requires Decided(p, fates, ws) && ws <= vs && |vs| == |ws| + added && p1.completedProbe == p.completedProbe
    requires |p1.probes| == (if drops then 0 else |p.probes|) && Collected(p1, added, vs, q, report)
    ensures Decided(q, fates + Fates(p.completedProbe, drops, Ids(p.probes), report), vs)
  {
    FirstFates(p, drops, fates, ws);
    var parked, dropped := EndedOne(p.completedProbe), DroppedBy(drops, p.probes);
    var early, last := fates + parked + dropped, LastFate(p.completedProbe, report);
    FitStays(early, ws, vs, 0);
    LastFits(p1, added, q, report, vs, |early|);
    FatesFitConcat(early, last, vs, 0);
    FitDecides(q, early + last, vs);
    Regroup(fates, parked, dropped, last);
    assert Fates(p.completedProbe, drops, Ids(p.probes), report) == parked + dropped + last;
  }

  lemma {:induction false} TickDecides(p: Pacer, now: Time, queues: seq<QueueState>, probe: Option<ProbeConfig>,
                                       fates: seq<Fate>, ws: seq<Work>)
    requires Decided(p, fates, ws)
    ensures Decided(SessionTick(p, now, queues, probe).0, fates + TickFates(p, now, queues, probe),
                    WorkAfter(p, Tick(now, queues, probe), ws))
  {
    TickCollects(p, now, queues, probe, ws);
    var r := SessionTick(p, now, queues, probe);
    Assemble(p, HandleTimeout(p, now, queues).0, DropsProbes(queues), |AddedId(probe)|, r.0, r.1, fates, ws,
             WorkAfter(p, Tick(now, queues, probe), ws));
  }

  // A queue stays in step when nothing is sent, and when it is emptied.
  lemma QueueStays(probes: seq<ProbeState>, probes': seq<ProbeState>, ws: seq<Work>)
    requires QueueInStep(probes, ws)
    requires probes' == [] || SameWorks(probes, probes')
    ensures QueueInStep(probes', ws)
  {
    forall i | 0 <= i < |probes'| ensures InStep(probes'[i], ws[|ws| - |probes'| + i]) {
      assert InStep(probes[i], ws[|ws| - |probes| + i]);
    }
  }

  // ---- Runs ----

  lemma {:induction false} PollDecides(p: Pacer, at: Time, receipt: Option<Size>, fates: seq<Fate>, ws: seq<Work>)
    requires Decided(p, fates, ws) && (PollQueue(p).1.Some? ==> PollQueue(p).0.completedProbe.None?)
    ensures Decided(SessionPoll(p, at, receipt).0, fates, WorkAfter(p, Poll(at, receipt), ws))
  {
    if Sends(p, Poll(at, receipt)) {
      var p1 := PollQueue(p).0;
      assert Credited(p, ws, receipt.value) == Credited(p1, ws, receipt.value);
      SendDecides(p1, at, receipt.value, fates, ws);
    }
  }

  lemma {:induction false} ActDecides(p: Pacer, a: Action, b: Books, ws: seq<Work>)
    requires Decided(p, b.fates, ws) && (PollQueue(p).1.Some? ==> PollQueue(p).0.completedProbe.None?)
    ensures Decided(Act(p, a), Entered(p, a, b).fates, WorkAfter(p, a, ws))
  {
    match a
    case Tick(now, queues, probe) => TickDecides(p, now, queues, probe, b.fates, ws);
    case Poll(at, receipt) => PollDecides(p, at, receipt, b.fates, ws);
    case SetRates(_, _) =>
  }

  /**
   Over every run: a cluster reported as ended or parked for the report has reached its targets
   by what was sent while it was active; one that is dropped or still queued has not. So a
   cluster that reaches them is parked by that very packet.
   */
  lemma {:induction false} EndedIffReached(rate: Rate, actions: seq<Action>)
    ensures var p0 := NewPacer(rate);
            Decided(RunFrom(p0, actions), BooksOf(p0, actions).fates, WorkOf(p0, actions))
  {
    if actions != [] {
      var n, p0 := |actions| - 1, NewPacer(rate);
      EndedIffReached(rate, actions[..n]);
      SlotNeverOverwritten(rate, actions[..n]);
      ActDecides(RunFrom(p0, actions[..n]), actions[n], BooksOf(p0, actions[..n]), WorkOf(p0, actions[..n]));
    }
  }

  /** The clusters of the log are those that were started, in order. */
  lemma {:induction false} WorkIsStarted(rate: Rate, actions: seq<Action>)
    ensures var ws, started := WorkOf(NewPacer(rate), actions), BooksOf(NewPacer(rate), actions).started;
            |ws| == |started| && forall j :: 0 <= j < |ws| ==> ws[j].config.cluster == started[j]
  {
    if actions != [] {
      WorkIsStarted(rate, actions[..|actions| - 1]);
    }
  }

  /** A reported cluster has reached its targets by what was sent while it was the active one. */
  lemma {:induction false} ReportedReached(p: Pacer, fates: seq<Fate>, ws: seq<Work>, id: ClusterId)
    requires Decided(p, fates, ws) && id in EndedIds(fates)
    ensures exists j :: 0 <= j < |ws| && ws[j].config.cluster == id && Reached(ws[j])
  {
    var j := EndedAt(fates, id);
    assert FateDecided(fates[j], ws[j]);
  }

  lemma {:induction false} EndedAt(fates: seq<Fate>, id: ClusterId) returns (j: nat)
    requires id in EndedIds(fates)
    ensures j < |fates| && fates[j] == Ended(id)
  {
    j := |fates| - 1;
    if fates[j] != Ended(id) {
      j := EndedAt(fates[..j], id);
    }
  }
}
