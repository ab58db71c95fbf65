/**
 The observation window of the loss controller.

 The code keeps the last 15 observations in a ring, at slot id mod 15, and weighs each by
 its age. Here the ring is compared with a machine that simply keeps all observations
 since the last reset in a list.
 */
module LossWindow {
  import opened Prelude

  const WINDOW_SIZE := 15
  const OBSERVATION_LOWER_BOUND := 250000  // microseconds
  const WEIGHT_FACTOR: real := 0.9

  // Times are microseconds, sizes bytes.
  datatype PacketResult = PacketResult(sendTime: int, size: nat, lost: bool)

  datatype Observation = Observation(
    numPackets: nat, size: nat, numLost: nat, lostSize: nat, numReceived: int, sendingRate: real, id: nat,
    isInitialized: bool)

  const DUMMY := Observation(0, 0, 0, 0, 0, 0.0, 0, false)

  datatype Partial = Partial(numPackets: nat, numLost: nat, size: nat, lostSize: nat)

  const EMPTY_PARTIAL := Partial(0, 0, 0, 0)

  // ---- Summing up one feedback ----

  datatype Summary = Summary(partial: Partial, lastSendTime: int)

  /** Totals over the first n packets, and the latest send time among them. */
  function Summarize(ps: seq<PacketResult>, n: nat): (s: Summary)
    requires 0 < |ps| && n <= |ps|
    ensures s.partial.lostSize <= s.partial.size && s.partial.numLost <= s.partial.numPackets == n
    ensures forall i :: 0 <= i < n ==> ps[i].sendTime <= s.lastSendTime
    ensures exists i :: 0 <= i < |ps| && ps[i].sendTime == s.lastSendTime
  {
    if n == 0 then Summary(EMPTY_PARTIAL, ps[0].sendTime) else
      AddPacket(Summarize(ps, n - 1), ps[n - 1])
  }

  function AddPacket(s: Summary, p: PacketResult): Summary {
    Summary(Partial(s.partial.numPackets + 1, s.partial.numLost + (if p.lost then 1 else 0),
                    s.partial.size + p.size, s.partial.lostSize + (if p.lost then p.size else 0)),
            if p.sendTime > s.lastSendTime then p.sendTime else s.lastSendTime)
  }

  function Plus(a: Partial, b: Partial): Partial {
    Partial(a.numPackets + b.numPackets, a.numLost + b.numLost, a.size + b.size, a.lostSize + b.lostSize)
  }

  predicate PartialOk(p: Partial) {
    p.lostSize <= p.size && p.numLost <= p.numPackets
  }

  // ---- Staging: when a feedback completes an observation ----

  datatype Staging = Staging(partial: Partial, lastSendTime: Option<int>)

  const FRESH := Staging(EMPTY_PARTIAL, None)

  // The staging area after a feedback, and the observation it completes, if any.
  function Stage(st: Staging, ps: seq<PacketResult>, id: nat): (r: (Staging, Option<Observation>))
    requires PartialOk(st.partial)
    ensures PartialOk(r.0.partial)
    ensures r.1.Some? ==> r.1.value.isInitialized && r.1.value.id == id
    ensures r.1.Some? ==> r.1.value.lostSize <= r.1.value.size && r.1.value.numReceived >= 0
  {
    if ps == [] then (st, None) else
      var s := Summarize(ps, |ps|);
      var p := Plus(st.partial, s.partial);
      var since := if st.lastSendTime.None? then s.lastSendTime else st.lastSendTime.value;
      var duration := s.lastSendTime - since;
      if duration <= OBSERVATION_LOWER_BOUND then (Staging(p, Some(since)), None)
      else
        (Staging(EMPTY_PARTIAL, Some(s.lastSendTime)),
         Some(Observation(p.numPackets, p.size, p.numLost, p.lostSize, p.numPackets - p.numLost,
                          BitsPerSecond(p.size, duration), id, true)))
  }

  // ---- The two machines ----

  datatype Event = Feedback(packets: seq<PacketResult>) | Reset

  /** The simple machine: all observations since the last reset. */
  datatype Plain = Plain(history: seq<Observation>, num: nat, staging: Staging)

  /** The machine of the code: a ring of 15 slots. */
  datatype Ring = Ring(slots: seq<Observation>, num: nat, staging: Staging)

  function PlainStep(p: Plain, e: Event): Plain
    requires PartialOk(p.staging.partial)
  {
    match e
    case Reset => Plain([], p.num, FRESH)
    case Feedback(ps) =>
      var (st, o) := Stage(p.staging, ps, p.num);
      if o.None? then p.(staging := st) else Plain(p.history + [o.value], p.num + 1, st)
  }

  function RingStep(r: Ring, e: Event): Ring
    requires PartialOk(r.staging.partial) && |r.slots| == WINDOW_SIZE
  {
    match e
    case Reset => Ring(seq(WINDOW_SIZE, _ => DUMMY), r.num, FRESH)
    case Feedback(ps) =>
      var (st, o) := Stage(r.staging, ps, r.num);
      if o.None? then r.(staging := st) else Ring(r.slots[r.num % WINDOW_SIZE := o.value], r.num + 1, st)
  }

  function PlainRun(events: seq<Event>): (p: Plain)
    ensures PartialOk(p.staging.partial)
  {
    if events == [] then Plain([], 0, FRESH)
    else PlainStep(PlainRun(events[..|events| - 1]), events[|events| - 1])
  }

  function RingRun(events: seq<Event>): (r: Ring)
    ensures PartialOk(r.staging.partial) && |r.slots| == WINDOW_SIZE
  {
    if events == [] then Ring(seq(WINDOW_SIZE, _ => DUMMY), 0, FRESH)
    else RingStep(RingRun(events[..|events| - 1]), events[|events| - 1])
  }

  // ---- Refinement ----

  // How old the latest observation that belongs in slot j is.
  function Age(num: nat, j: int): (a: int)
    requires 0 <= j < WINDOW_SIZE
    ensures 0 <= a < WINDOW_SIZE
  {
    (num - 1 - j) % WINDOW_SIZE
  }

  function SlotOf(h: seq<Observation>, num: nat, j: int): Observation
    requires 0 <= j < WINDOW_SIZE
  {
    if Age(num, j) < |h| then h[|h| - 1 - Age(num, j)] else DUMMY
  }

  /** The slots hold exactly the latest observations of the history, each at id mod 15. */
  ghost predicate Refines(slots: seq<Observation>, num: nat, h: seq<Observation>) {
    && |slots| == WINDOW_SIZE && |h| <= num
    && (forall i :: 0 <= i < |h| ==>
          h[i].id == num - |h| + i && h[i].isInitialized && h[i].lostSize <= h[i].size)
    && (forall j :: 0 <= j < WINDOW_SIZE ==> slots[j] == SlotOf(h, num, j))
  }

  lemma {:induction false} AddRefines(slots: seq<Observation>, num: nat, h: seq<Observation>, o: Observation)
    requires Refines(slots, num, h)
    requires o.id == num && o.isInitialized && o.lostSize <= o.size
    ensures Refines(slots[num % WINDOW_SIZE := o], num + 1, h + [o])
  {
    var slots', h', k := slots[num % WINDOW_SIZE := o], h + [o], num % WINDOW_SIZE;
    forall j | 0 <= j < WINDOW_SIZE ensures slots'[j] == SlotOf(h', num + 1, j) {
      if j == k {
        assert Age(num + 1, j) == 0;
      } else {
        assert Age(num + 1, j) == Age(num, j) + 1;
      }
    }
  }

  ghost predicate Matches(r: Ring, p: Plain) {
    r.num == p.num && r.staging == p.staging && Refines(r.slots, r.num, p.history)
  }

  lemma {:induction false} StepMatches(r: Ring, p: Plain, e: Event)
    requires Matches(r, p) && PartialOk(r.staging.partial)
    ensures Matches(RingStep(r, e), PlainStep(p, e))
  {
    if e.Feedback? {
      var o := Stage(r.staging, e.packets, r.num).1;
      if o.Some? {
        AddRefines(r.slots, r.num, p.history, o.value);
      }
    }
  }

  /** Over every run of feedback and resets the ring refines the plain history. */
  lemma {:induction false} RunRefines(events: seq<Event>)
    ensures Matches(RingRun(events), PlainRun(events))
  {
    if events != [] {
      var n := |events| - 1;
      RunRefines(events[..n]);
      StepMatches(RingRun(events[..n]), PlainRun(events[..n]), events[n]);
    }
  }

  /** An initialised slot is where its id says, and its age indexes the weight table. */
  lemma {:induction false} SlotsInBounds(slots: seq<Observation>, num: nat, h: seq<Observation>, j: int)
    requires Refines(slots, num, h) && 0 <= j < WINDOW_SIZE && slots[j].isInitialized
    ensures slots[j].id < num && slots[j].id % WINDOW_SIZE == j
    ensures num - 1 - slots[j].id == Age(num, j) < WINDOW_SIZE
  {
  }

  // ---- Weighted sums ----

  function Pow(x: real, n: nat): real {
    if n == 0 then 1.0 else x * Pow(x, n - 1)
  }

  function Weight(age: nat): real {
    Pow(WEIGHT_FACTOR, age)
  }

  lemma {:induction false} WeightPositive(age: nat)
    ensures 0.0 < Weight(age) <= 1.0
  {
    if age > 0 {
      WeightPositive(age - 1);
    }
  }

  // Every initialised slot has an age that the weight table covers.
  ghost predicate InBounds(slots: seq<Observation>, num: nat) {
    forall j :: 0 <= j < |slots| && slots[j].isInitialized ==> slots[j].id < num && num - 1 - slots[j].id < WINDOW_SIZE
  }

  /** The weighted sum of some quantity over the first n slots, in slot order, as the code adds it up. */
  ghost function SlotSum(slots: seq<Observation>, num: nat, f: Observation -> real, n: nat): real
    requires n <= |slots| && InBounds(slots, num)
  {
    if n == 0 then 0.0 else SlotSum(slots, num, f, n - 1) + SlotTerm(num, f, slots[n - 1])
  }

  function Scaled(w: real, x: real): real { w * x }

  // What one slot contributes: nothing unless it is initialised.
  ghost function SlotTerm(num: nat, f: Observation -> real, o: Observation): real
    requires o.isInitialized ==> o.id < num
  {
    if o.isInitialized then Scaled(Weight(num - 1 - o.id), f(o)) else 0.0
  }

  lemma SlotSumStep(slots: seq<Observation>, num: nat, f: Observation -> real, j: nat, w: real)
    requires j < |slots| && InBounds(slots, num) && (slots[j].isInitialized ==> w == Weight(num - 1 - slots[j].id))
    ensures SlotSum(slots, num, f, j + 1)
              == SlotSum(slots, num, f, j) + if slots[j].isInitialized then Scaled(w, f(slots[j])) else 0.0
  {
  }

  /** The decayed fold over the latest n observations: each older one counts 0.9 times as much. */
  ghost function Decayed(h: seq<Observation>, f: Observation -> real, n: nat): real {
    if n == 0 || h == [] then 0.0
    else f(h[|h| - 1]) + WEIGHT_FACTOR * Decayed(h[..|h| - 1], f, n - 1)
  }

  // What the observation of a given age contributes.
  ghost function Term(h: seq<Observation>, f: Observation -> real, age: nat): real {
    if age < |h| then Weight(age) * f(h[|h| - 1 - age]) else 0.0
  }

  function Sum(xs: seq<real>): real {
    if xs == [] then 0.0 else Sum(xs[..|xs| - 1]) + xs[|xs| - 1]
  }

  lemma {:induction false} SumConcat(xs: seq<real>, ys: seq<real>)
    ensures Sum(xs + ys) == Sum(xs) + Sum(ys)
  {
    if ys == [] {
      assert xs + ys == xs;
    } else {
      assert (xs + ys)[..|xs + ys| - 1] == xs + ys[..|ys| - 1];
      SumConcat(xs, ys[..|ys| - 1]);
    }
  }

  lemma {:induction false} SumReversed(xs: seq<real>, ys: seq<real>)
    requires |xs| == |ys| && forall i :: 0 <= i < |xs| ==> ys[i] == xs[|xs| - 1 - i]
    ensures Sum(xs) == Sum(ys)
  {
    if xs != [] {
      var n := |xs| - 1;
      assert ys == [ys[0]] + ys[1..];
      assert [ys[0]][..0] == [];
      SumConcat([ys[0]], ys[1..]);
      SumReversed(xs[..n], ys[1..]);
    }
  }

  ghost function AgeTerms(h: seq<Observation>, f: Observation -> real, n: nat): (ts: seq<real>)
    ensures |ts| == n && forall a :: 0 <= a < n ==> ts[a] == Term(h, f, a)
  {
    seq(n, a requires 0 <= a < n => Term(h, f, a))
  }

  ghost function SlotTerms(h: seq<Observation>, num: nat, f: Observation -> real, n: nat): (ts: seq<real>)
    requires n <= WINDOW_SIZE
    ensures |ts| == n && forall j :: 0 <= j < n ==> ts[j] == Term(h, f, Age(num, j))
  {
    seq(n, j requires 0 <= j < n => Term(h, f, Age(num, j)))
  }

  lemma {:induction false} SlotSumIsSum(slots: seq<Observation>, num: nat, f: Observation -> real, ts: seq<real>,
                                        n: nat)
    requires InBounds(slots, num) && n <= |ts| == |slots|
    requires forall j :: 0 <= j < |ts| ==> ts[j] == SlotTerm(num, f, slots[j])
    ensures SlotSum(slots, num, f, n) == Sum(ts[..n])
  {
    if n > 0 {
      SlotSumIsSum(slots, num, f, ts, n - 1);
      assert ts[..n][..n - 1] == ts[..n - 1];
    }
  }

  lemma SlotTermIs(slots: seq<Observation>, num: nat, h: seq<Observation>, f: Observation -> real, j: int)
    requires Refines(slots, num, h) && InBounds(slots, num) && 0 <= j < WINDOW_SIZE
    ensures Term(h, f, Age(num, j)) == SlotTerm(num, f, slots[j])
  {
    assert slots[j] == SlotOf(h, num, j);
    if slots[j].isInitialized {
      SlotsInBounds(slots, num, h, j);
    }
  }

  lemma {:induction false} SlotSumIsTerms(slots: seq<Observation>, num: nat, h: seq<Observation>,
                                          f: Observation -> real)
    requires Refines(slots, num, h) && InBounds(slots, num)
    ensures SlotSum(slots, num, f, WINDOW_SIZE) == Sum(SlotTerms(h, num, f, WINDOW_SIZE))
  {
    var ts := SlotTerms(h, num, f, WINDOW_SIZE);
    forall j | 0 <= j < WINDOW_SIZE ensures ts[j] == SlotTerm(num, f, slots[j]) {
      SlotTermIs(slots, num, h, f, j);
    }
    SlotSumIsSum(slots, num, f, ts, WINDOW_SIZE);
    assert ts[..WINDOW_SIZE] == ts;
  }

  lemma AgeIs(num: nat, j: int)
    requires 0 <= j < WINDOW_SIZE
    ensures var r := num % WINDOW_SIZE; Age(num, j) == if j < r then r - 1 - j else r + WINDOW_SIZE - 1 - j
  {
  }

  // Rotating and reversing a list keeps its sum.
  lemma {:induction false} SumRotated(a: seq<real>, s: seq<real>, r: nat)
    requires r <= |a| == |s|
    requires forall j :: 0 <= j < |s| ==> s[j] == a[if j < r then r - 1 - j else r + |a| - 1 - j]
    ensures Sum(s) == Sum(a)
  {
    SumReversed(a[..r], s[..r]);
    SumReversed(a[r..], s[r..]);
    SumConcat(s[..r], s[r..]);
    SumConcat(a[..r], a[r..]);
    assert s == s[..r] + s[r..] && a == a[..r] + a[r..];
  }

  // Slot order is age order, rotated and reversed.
  lemma {:induction false} SlotsAreAges(h: seq<Observation>, num: nat, f: Observation -> real)
    ensures Sum(SlotTerms(h, num, f, WINDOW_SIZE)) == Sum(AgeTerms(h, f, WINDOW_SIZE))
  {
    var s, a, r := SlotTerms(h, num, f, WINDOW_SIZE), AgeTerms(h, f, WINDOW_SIZE), num % WINDOW_SIZE;
    forall j | 0 <= j < WINDOW_SIZE
      ensures s[j] == a[if j < r then r - 1 - j else r + WINDOW_SIZE - 1 - j]
    {
      AgeIs(num, j);
    }
    SumRotated(a, s, r);
  }

  // Pulling out one factor of the decay.
  lemma {:induction false} AgeTermsDecay(h: seq<Observation>, f: Observation -> real, n: nat)
    requires h != []
    ensures Sum(AgeTerms(h, f, n + 1)) == f(h[|h| - 1]) + WEIGHT_FACTOR * Sum(AgeTerms(h[..|h| - 1], f, n))
  {
    var ts, us := AgeTerms(h, f, n + 1), AgeTerms(h[..|h| - 1], f, n);
    if n == 0 {
      assert ts[..0] == [] && us == [];
      assert Term(h, f, 0) == Weight(0) * f(h[|h| - 1]);
    } else {
      AgeTermsDecay(h, f, n - 1);
      assert ts[..n] == AgeTerms(h, f, n);
      assert us[..n - 1] == AgeTerms(h[..|h| - 1], f, n - 1);
      TermDecay(h, f, n);
    }
  }

  lemma TermDecay(h: seq<Observation>, f: Observation -> real, n: nat)
    requires h != [] && n > 0
    ensures Term(h, f, n) == WEIGHT_FACTOR * Term(h[..|h| - 1], f, n - 1)
  {
    if n < |h| {
      var x := f(h[|h| - 1 - n]);
      assert Weight(n) == WEIGHT_FACTOR * Weight(n - 1);
      assert Weight(n) * x == WEIGHT_FACTOR * (Weight(n - 1) * x);
    }
  }

  lemma {:induction false} AgesAreDecayed(h: seq<Observation>, f: Observation -> real, n: nat)
    ensures Sum(AgeTerms(h, f, n)) == Decayed(h, f, n)
  {
    if n == 0 {
    } else if h == [] {
      AgesAreDecayed(h, f, n - 1);
      assert AgeTerms(h, f, n)[..n - 1] == AgeTerms(h, f, n - 1);
    } else {
      AgeTermsDecay(h, f, n - 1);
      AgesAreDecayed(h[..|h| - 1], f, n - 1);
    }
  }

  /** Adding up over the ring gives the decayed fold over the latest 15 observations, for any quantity. */
  lemma {:induction false} RingSumIsDecayed(slots: seq<Observation>, num: nat, h: seq<Observation>,
                                            f: Observation -> real)
    requires Refines(slots, num, h)
    ensures InBounds(slots, num) && SlotSum(slots, num, f, WINDOW_SIZE) == Decayed(h, f, WINDOW_SIZE)
  {
    forall j | 0 <= j < |slots| && slots[j].isInitialized
      ensures slots[j].id < num && num - 1 - slots[j].id < WINDOW_SIZE
    {
      SlotsInBounds(slots, num, h, j);
    }
    SlotSumIsTerms(slots, num, h, f);
    SlotsAreAges(h, num, f);
    AgesAreDecayed(h, f, WINDOW_SIZE);
  }

  // ---- The loss ratio ----

  function SizeOf(o: Observation): real { o.size as real }
  function LostOf(o: Observation): real { o.lostSize as real }

  function Share(part: real, total: real): real { if total == 0.0 then 0.0 else part / total }

  ghost function LossRatio(slots: seq<Observation>, num: nat): real
    requires |slots| == WINDOW_SIZE && InBounds(slots, num)
  {
    Share(SlotSum(slots, num, LostOf, WINDOW_SIZE), SlotSum(slots, num, SizeOf, WINDOW_SIZE))
  }

  lemma ScaledWithin(w: real, x: real, y: real)
    requires w > 0.0 && 0.0 <= x <= y
    ensures 0.0 <= Scaled(w, x) <= Scaled(w, y)
  {
    var d := y - x;
    assert w * d >= 0.0 && w * y == w * x + w * d;
  }

  lemma {:induction false} LostWithinTotal(slots: seq<Observation>, num: nat, n: nat)
    requires n <= |slots| && InBounds(slots, num)
    requires forall j :: 0 <= j < |slots| && slots[j].isInitialized ==> slots[j].lostSize <= slots[j].size
    ensures 0.0 <= SlotSum(slots, num, LostOf, n) <= SlotSum(slots, num, SizeOf, n)
  {
    if n > 0 {
      LostWithinTotal(slots, num, n - 1);
      var o := slots[n - 1];
      if o.isInitialized {
        var w := Weight(num - 1 - o.id);
        WeightPositive(num - 1 - o.id);
        ScaledWithin(w, LostOf(o), SizeOf(o));
        SlotSumStep(slots, num, LostOf, n - 1, w);
        SlotSumStep(slots, num, SizeOf, n - 1, w);
      }
    }
  }

  /** In every state a run can reach the loss ratio is the decayed ratio of the history, within [0, 1]. */
  lemma {:induction false} RatioOfRun(events: seq<Event>)
    ensures var r, h := RingRun(events), PlainRun(events).history;
            && InBounds(r.slots, r.num)
            && 0.0 <= LossRatio(r.slots, r.num) <= 1.0
            && LossRatio(r.slots, r.num) == Share(Decayed(h, LostOf, WINDOW_SIZE), Decayed(h, SizeOf, WINDOW_SIZE))
  {
    RunRefines(events);
    var r, h := RingRun(events), PlainRun(events).history;
    RefinedRatio(r.slots, r.num, h);
  }

  lemma {:induction false} RefinedRatio(slots: seq<Observation>, num: nat, h: seq<Observation>)
    requires Refines(slots, num, h)
    ensures InBounds(slots, num)
    ensures 0.0 <= LossRatio(slots, num) <= 1.0
    ensures LossRatio(slots, num) == Share(Decayed(h, LostOf, WINDOW_SIZE), Decayed(h, SizeOf, WINDOW_SIZE))
  {
    RingSumIsDecayed(slots, num, h, SizeOf);
    RingSumIsDecayed(slots, num, h, LostOf);
    LostWithinTotal(slots, num, WINDOW_SIZE);
    var total, lost := SlotSum(slots, num, SizeOf, WINDOW_SIZE), SlotSum(slots, num, LostOf, WINDOW_SIZE);
    if total != 0.0 {
      RatioInUnit(lost, total);
    }
  }

  lemma RatioInUnit(x: real, y: real)
    requires 0.0 <= x <= y && y > 0.0
    ensures 0.0 <= x / y <= 1.0
  {
    var q := x / y;
    assert q * y == x;
  }
}
