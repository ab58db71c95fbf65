/**
 What the observations of the loss controller stand for: over every run they cut the feedback
 since the last reset into stretches of more than 250 ms and count each of them, packet by packet.
 */
module LossAccounting {
  import opened Prelude
  import opened LossWindow

  // ---- Counting packets ----

  function LostOnes(ps: seq<PacketResult>): seq<PacketResult> {
    if ps == [] then []
    else if ps[0].lost then [ps[0]] + LostOnes(ps[1..]) else LostOnes(ps[1..])
  }

  function TotalBytes(ps: seq<PacketResult>): nat {
    if ps == [] then 0 else ps[0].size + TotalBytes(ps[1..])
  }

  /** How many packets, how many of them lost, and the bytes of both. */
  function Counted(ps: seq<PacketResult>): Partial {
    Partial(|ps|, |LostOnes(ps)|, TotalBytes(ps), TotalBytes(LostOnes(ps)))
  }

  lemma {:induction false} BytesConcat(xs: seq<PacketResult>, ys: seq<PacketResult>)
    ensures TotalBytes(xs + ys) == TotalBytes(xs) + TotalBytes(ys)
  {
    if xs == [] {
      assert xs + ys == ys;
    } else {
      assert (xs + ys)[1..] == xs[1..] + ys;
      BytesConcat(xs[1..], ys);
    }
  }

  lemma BytesCons(p: PacketResult, ps: seq<PacketResult>)
    ensures TotalBytes([p] + ps) == p.size + TotalBytes(ps)
  {
    assert ([p] + ps)[1..] == ps;
  }

  // What one more packet in front adds to the lost ones.
  lemma {:induction false} LostCons(ps: seq<PacketResult>)
    requires ps != []
    ensures var k := if ps[0].lost then 1 else 0;
            && |LostOnes(ps)| == k + |LostOnes(ps[1..])|
            && TotalBytes(LostOnes(ps)) == k * ps[0].size + TotalBytes(LostOnes(ps[1..]))
  {
    BytesCons(ps[0], LostOnes(ps[1..]));
  }

  lemma {:induction false} LostConcat(xs: seq<PacketResult>, ys: seq<PacketResult>)
    ensures |LostOnes(xs + ys)| == |LostOnes(xs)| + |LostOnes(ys)|
    ensures TotalBytes(LostOnes(xs + ys)) == TotalBytes(LostOnes(xs)) + TotalBytes(LostOnes(ys))
  {
    if xs == [] {
      assert xs + ys == ys;
    } else {
      assert (xs + ys)[1..] == xs[1..] + ys;
      LostConcat(xs[1..], ys);
      LostCons(xs);
      LostCons(xs + ys);
    }
  }

  ghost predicate Adds(a: Partial, b: Partial, c: Partial) {
    && c.numPackets == a.numPackets + b.numPackets && c.numLost == a.numLost + b.numLost
    && c.size == a.size + b.size && c.lostSize == a.lostSize + b.lostSize
  }

  lemma PlusIs(a: Partial, b: Partial, c: Partial)
    requires Adds(a, b, c)
    ensures c == Plus(a, b)
  {
  }

  lemma {:induction false} CountsConcat(xs: seq<PacketResult>, ys: seq<PacketResult>)
    ensures Adds(Counted(xs), Counted(ys), Counted(xs + ys))
  {
    BytesConcat(xs, ys);
    LostConcat(xs, ys);
  }

  lemma {:induction false} CountedConcat(xs: seq<PacketResult>, ys: seq<PacketResult>)
    ensures Counted(xs + ys) == Plus(Counted(xs), Counted(ys))
  {
    CountsConcat(xs, ys);
    PlusIs(Counted(xs), Counted(ys), Counted(xs + ys));
  }

  lemma {:induction false} CountedOne(p: PacketResult)
    ensures Counted([p]) == Partial(1, if p.lost then 1 else 0, p.size, if p.lost then p.size else 0)
  {
    assert [p][1..] == [];
    assert TotalBytes([p]) == p.size;
    assert LostOnes([p]) == if p.lost then [p] else [];
  }

  /** Summing up counts the packets and their bytes, and of these the lost ones. */
  lemma {:induction false} SummarizeCounts(ps: seq<PacketResult>, n: nat)
    requires 0 < |ps| && n <= |ps|
    ensures Summarize(ps, n).partial == Counted(ps[..n])
  {
    if n > 0 {
      SummarizeCounts(ps, n - 1);
      assert ps[..n] == ps[..n - 1] + [ps[n - 1]];
      CountedConcat(ps[..n - 1], [ps[n - 1]]);
      CountedOne(ps[n - 1]);
    }
  }

  lemma {:induction false} LostWithin(ps: seq<PacketResult>)
    ensures |LostOnes(ps)| <= |ps| && TotalBytes(LostOnes(ps)) <= TotalBytes(ps)
    ensures (forall p :: p in ps ==> !p.lost) ==> LostOnes(ps) == []
    ensures (forall p :: p in ps ==> p.lost) ==> LostOnes(ps) == ps
  {
    if ps != [] {
      LostWithin(ps[1..]);
      assert ps == [ps[0]] + ps[1..];
      if ps[0].lost {
        assert LostOnes(ps)[1..] == LostOnes(ps[1..]);
      }
    }
  }

  ghost predicate IsLatest(ps: seq<PacketResult>, t: int) {
    (exists i :: 0 <= i < |ps| && ps[i].sendTime == t) && forall i :: 0 <= i < |ps| ==> ps[i].sendTime <= t
  }

  function Latest(ps: seq<PacketResult>): (t: int)
    requires ps != []
    ensures IsLatest(ps, t)
  {
    if |ps| == 1 then ps[0].sendTime
    else
      var rest := Latest(ps[..|ps| - 1]);
      if ps[|ps| - 1].sendTime >= rest then ps[|ps| - 1].sendTime else rest
  }

  lemma {:induction false} SummaryOf(ps: seq<PacketResult>)
    requires ps != []
    ensures Summarize(ps, |ps|) == Summary(Counted(ps), Latest(ps))
  {
    SummarizeCounts(ps, |ps|);
    assert ps[..|ps|] == ps;
  }

  // ---- Cutting the feedback ----

  /** The packets of one observation, and the time it covers. */
  datatype Stretch = Stretch(packets: seq<PacketResult>, from: int, to: int)

  /** All feedback since the last reset: the finished stretches, the packets after them, and their beginning. */
  datatype Ledger = Ledger(closed: seq<Stretch>, open: seq<PacketResult>, since: Option<int>)

  const NEW_LEDGER := Ledger([], [], None)

  // A stretch ends with the first feedback that takes it beyond 250 ms.
  function LedgerStep(l: Ledger, e: Event): Ledger {
    match e
    case Reset => NEW_LEDGER
    case Feedback(ps) =>
      if ps == [] then l else
        var to := Latest(ps);
        var from := if l.since.None? then to else l.since.value;
        if to - from <= OBSERVATION_LOWER_BOUND then Ledger(l.closed, l.open + ps, Some(from))
        else Ledger(l.closed + [Stretch(l.open + ps, from, to)], [], Some(to))
  }

  function LedgerRun(events: seq<Event>): Ledger {
    if events == [] then NEW_LEDGER
    else LedgerStep(LedgerRun(events[..|events| - 1]), events[|events| - 1])
  }

  /** The observation counts the packets of the stretch, and its rate makes up their bytes over its time. */
  ghost predicate Observes(o: Observation, s: Stretch) {
    && Partial(o.numPackets, o.numLost, o.size, o.lostSize) == Counted(s.packets)
    && o.numReceived == |s.packets| - |LostOnes(s.packets)|
    && s.to - s.from > OBSERVATION_LOWER_BOUND
    && o.sendingRate * (s.to - s.from) as real == o.size as real * 8000000.0
  }

  /** The history observes the finished stretches one by one; what is staged counts the rest. */
  ghost predicate Accounts(history: seq<Observation>, staging: Staging, l: Ledger) {
    && |history| == |l.closed|
    && (forall i :: 0 <= i < |history| ==> Observes(history[i], l.closed[i]))
    && staging == Staging(Counted(l.open), l.since)
  }

  lemma RateMakesUp(size: nat, duration: int)
    requires duration > 0
    ensures BitsPerSecond(size, duration) * duration as real == size as real * 8000000.0
  {
  }

  // Where the stretch that a feedback belongs to has begun.
  function From(l: Ledger, ps: seq<PacketResult>): int
    requires ps != []
  {
    if l.since.None? then Latest(ps) else l.since.value
  }

  lemma {:induction false} StageWaits(l: Ledger, ps: seq<PacketResult>, id: nat)
    requires PartialOk(Counted(l.open)) && ps != [] && Latest(ps) - From(l, ps) <= OBSERVATION_LOWER_BOUND
    ensures Stage(Staging(Counted(l.open), l.since), ps, id)
              == (Staging(Counted(l.open + ps), Some(From(l, ps))), None)
  {
    SummaryOf(ps);
    CountedConcat(l.open, ps);
  }

  // The observation made of a count.
  function Made(p: Partial, duration: int, id: nat): Observation
    requires duration > 0
  {
    Observation(p.numPackets, p.size, p.numLost, p.lostSize, p.numPackets - p.numLost, BitsPerSecond(p.size, duration),
                id, true)
  }

  lemma {:induction false} MadeObserves(s: Stretch, id: nat)
    requires s.to - s.from > OBSERVATION_LOWER_BOUND
    ensures Observes(Made(Counted(s.packets), s.to - s.from, id), s)
  {
    RateMakesUp(TotalBytes(s.packets), s.to - s.from);
  }

  lemma {:induction false} StageCloses(l: Ledger, ps: seq<PacketResult>, id: nat)
    requires PartialOk(Counted(l.open)) && ps != [] && Latest(ps) - From(l, ps) > OBSERVATION_LOWER_BOUND
    ensures Stage(Staging(Counted(l.open), l.since), ps, id)
              == (Staging(EMPTY_PARTIAL, Some(Latest(ps))),
                  Some(Made(Counted(l.open + ps), Latest(ps) - From(l, ps), id)))
  {
    SummaryOf(ps);
    CountedConcat(l.open, ps);
  }

  /** One feedback: exactly when it ends a stretch does it complete an observation, which observes that stretch. */
  lemma {:induction false} StageAccounts(l: Ledger, ps: seq<PacketResult>, id: nat)
    requires PartialOk(Counted(l.open))
    ensures var l' := LedgerStep(l, Feedback(ps));
            var (st, o) := Stage(Staging(Counted(l.open), l.since), ps, id);
            && st == Staging(Counted(l'.open), l'.since)
            && (o.None? ==> l'.closed == l.closed)
            && (o.Some? ==> |l'.closed| == |l.closed| + 1 && l'.closed[..|l.closed|] == l.closed
                            && Observes(o.value, l'.closed[|l.closed|]))
  {
    if ps == [] {
    } else if Latest(ps) - From(l, ps) <= OBSERVATION_LOWER_BOUND {
      StageWaits(l, ps, id);
    } else {
      StageCloses(l, ps, id);
      MadeObserves(Stretch(l.open + ps, From(l, ps), Latest(ps)), id);
      assert Counted([]) == EMPTY_PARTIAL;
    }
  }

  lemma {:induction false} HistoryObserves(p: Plain, l: Ledger, ps: seq<PacketResult>)
    requires Accounts(p.history, p.staging, l) && PartialOk(p.staging.partial)
    ensures var h, l' := PlainStep(p, Feedback(ps)).history, LedgerStep(l, Feedback(ps));
            |h| == |l'.closed| && forall i :: 0 <= i < |h| ==> Observes(h[i], l'.closed[i])
  {
    StageAccounts(l, ps, p.num);
    var h, l' := PlainStep(p, Feedback(ps)).history, LedgerStep(l, Feedback(ps));
    forall i | 0 <= i < |h| ensures Observes(h[i], l'.closed[i]) {
      if i < |l.closed| {
        assert l'.closed[i] == l.closed[i] && h[i] == p.history[i];
      }
    }
  }

  lemma {:induction false} StepAccounts(p: Plain, l: Ledger, e: Event)
    requires Accounts(p.history, p.staging, l) && PartialOk(p.staging.partial)
    ensures Accounts(PlainStep(p, e).history, PlainStep(p, e).staging, LedgerStep(l, e))
  {
    if e.Feedback? {
      StageAccounts(l, e.packets, p.num);
      HistoryObserves(p, l, e.packets);
    } else {
      assert Counted([]) == EMPTY_PARTIAL;
    }
  }

  /** Over every run. */
  lemma {:induction false} RunAccounts(events: seq<Event>)
    ensures Accounts(PlainRun(events).history, PlainRun(events).staging, LedgerRun(events))
  {
    if events == [] {
      assert Counted([]) == EMPTY_PARTIAL;
    } else {
      var n := |events| - 1;
      RunAccounts(events[..n]);
      StepAccounts(PlainRun(events[..n]), LedgerRun(events[..n]), events[n]);
    }
  }

  // ---- Nothing is lost or counted twice ----

  /** The packets of all feedback since the last reset. */
  function Since(events: seq<Event>): seq<PacketResult> {
    if events == [] || events[|events| - 1].Reset? then []
    else Since(events[..|events| - 1]) + events[|events| - 1].packets
  }

  function Together(ss: seq<Stretch>): seq<PacketResult> {
    if ss == [] then [] else Together(ss[..|ss| - 1]) + ss[|ss| - 1].packets
  }

  lemma TogetherSnoc(ss: seq<Stretch>, s: Stretch)
    ensures Together(ss + [s]) == Together(ss) + s.packets
  {
    assert (ss + [s])[..|ss|] == ss;
  }

  function AllOf(l: Ledger): seq<PacketResult> {
    Together(l.closed) + l.open
  }

  lemma Regroup(a: seq<PacketResult>, b: seq<PacketResult>, c: seq<PacketResult>)
    ensures a + (b + c) == a + b + c && a + (b + c) + [] == a + b + c
  {
  }

  lemma {:induction false} FeedbackIsKept(l: Ledger, ps: seq<PacketResult>)
    ensures AllOf(LedgerStep(l, Feedback(ps))) == AllOf(l) + ps
  {
    Regroup(Together(l.closed), l.open, ps);
    if ps != [] && Latest(ps) - From(l, ps) > OBSERVATION_LOWER_BOUND {
      TogetherSnoc(l.closed, Stretch(l.open + ps, From(l, ps), Latest(ps)));
    }
  }

  /** The stretches and the packets after them are the feedback since the last reset, in order. */
  lemma {:induction false} LedgerIsComplete(events: seq<Event>)
    ensures AllOf(LedgerRun(events)) == Since(events)
  {
    if events != [] && events[|events| - 1].Feedback? {
      var n := |events| - 1;
      LedgerIsComplete(events[..n]);
      FeedbackIsKept(LedgerRun(events[..n]), events[n].packets);
    }
  }

  // ---- Loss ratio of a run ----

  lemma {:induction false} InTogether(ss: seq<Stretch>, i: int, p: PacketResult)
    requires 0 <= i < |ss| && p in ss[i].packets
    ensures p in Together(ss)
  {
    if i < |ss| - 1 {
      InTogether(ss[..|ss| - 1], i, p);
    }
  }

  lemma {:induction false} DecayedSame(h: seq<Observation>, f: Observation -> real, g: Observation -> real, n: nat)
    requires forall i :: 0 <= i < |h| ==> f(h[i]) == g(h[i])
    ensures Decayed(h, f, n) == Decayed(h, g, n)
  {
    if n > 0 && h != [] {
      DecayedSame(h[..|h| - 1], f, g, n - 1);
    }
  }

  function Nought(o: Observation): real { 0.0 }

  lemma {:induction false} DecayedNought(h: seq<Observation>, n: nat)
    ensures Decayed(h, Nought, n) == 0.0
  {
    if n > 0 && h != [] {
      DecayedNought(h[..|h| - 1], n - 1);
    }
  }

  // Every packet of a stretch is in the feedback.
  lemma {:induction false} StretchIsFed(events: seq<Event>, i: int)
    requires 0 <= i < |LedgerRun(events).closed|
    ensures forall p :: p in LedgerRun(events).closed[i].packets ==> p in Since(events)
  {
    LedgerIsComplete(events);
    forall p | p in LedgerRun(events).closed[i].packets ensures p in Since(events) {
      InTogether(LedgerRun(events).closed, i, p);
    }
  }

  // Whether all packets of the feedback are lost, or none.
  ghost predicate AllLost(ps: seq<PacketResult>, lost: bool) {
    forall p :: p in ps ==> p.lost == lost
  }

  lemma {:induction false} LostOfObservation(events: seq<Event>, i: int, lost: bool)
    requires 0 <= i < |PlainRun(events).history| && AllLost(Since(events), lost)
    ensures var o := PlainRun(events).history[i]; LostOf(o) == if lost then SizeOf(o) else Nought(o)
  {
    RunAccounts(events);
    StretchIsFed(events, i);
    LostWithin(LedgerRun(events).closed[i].packets);
    assert Observes(PlainRun(events).history[i], LedgerRun(events).closed[i]);
  }

  lemma {:induction false} DecayedLost(events: seq<Event>, lost: bool)
    requires AllLost(Since(events), lost)
    ensures var h := PlainRun(events).history;
            Decayed(h, LostOf, WINDOW_SIZE) == if lost then Decayed(h, SizeOf, WINDOW_SIZE) else 0.0
  {
    var h := PlainRun(events).history;
    forall i | 0 <= i < |h| ensures LostOf(h[i]) == if lost then SizeOf(h[i]) else Nought(h[i]) {
      LostOfObservation(events, i, lost);
    }
    DecayedNought(h, WINDOW_SIZE);
    if lost {
      DecayedSame(h, LostOf, SizeOf, WINDOW_SIZE);
    } else {
      DecayedSame(h, LostOf, Nought, WINDOW_SIZE);
    }
  }

  /** The ratio is 0 if nothing was lost since the last reset, and 1 if everything was and the window holds bytes. */
  lemma {:induction false} RatioAtTheEnds(events: seq<Event>, lost: bool)
    requires AllLost(Since(events), lost)
    ensures var r := RingRun(events);
            && InBounds(r.slots, r.num)
            && LossRatio(r.slots, r.num)
                 == if lost && Decayed(PlainRun(events).history, SizeOf, WINDOW_SIZE) != 0.0 then 1.0 else 0.0
  {
    RatioOfRun(events);
    DecayedLost(events, lost);
    ShareEnds(Decayed(PlainRun(events).history, SizeOf, WINDOW_SIZE));
  }

  lemma ShareEnds(total: real)
    ensures Share(total, total) == (if total == 0.0 then 0.0 else 1.0) && Share(0.0, total) == 0.0
  {
    if total != 0.0 {
      var q, z := total / total, 0.0 / total;
      assert q * total == total && z * total == 0.0;
    }
  }
}
