/** What every run of the channel handler keeps. */
module ChannelRuns {
  import opened Prelude
  import opened Channels

  // ---- The invariant ----

  ghost predicate WellFormed(h: Handler) {
    && IdsIncrease(h.allocs, h.nextId)
    && StreamsDistinct(h.allocs)
    && NegotiatedDistinct(h.allocs)
  }

  ghost predicate IdsIncrease(allocs: seq<Allocation>, nextId: ChannelId) {
    && (forall i, j :: 0 <= i < j < |allocs| ==> allocs[i].id < allocs[j].id)
    && (forall i :: 0 <= i < |allocs| ==> allocs[i].id < nextId)
  }

  /** Live stream ids are pairwise distinct. */
  ghost predicate StreamsDistinct(allocs: seq<Allocation>) {
    forall i, j :: 0 <= i < j < |allocs| && allocs[i].streamId.Some? ==> allocs[i].streamId != allocs[j].streamId
  }

  // No two channels negotiated the same id, and a negotiated channel only ever gets that id.
  ghost predicate NegotiatedDistinct(allocs: seq<Allocation>) {
    && (forall i, j :: 0 <= i < j < |allocs| && allocs[i].negotiated.Some? ==>
          allocs[i].negotiated != allocs[j].negotiated)
    && (forall i :: 0 <= i < |allocs| && allocs[i].negotiated.Some? && allocs[i].streamId.Some? ==>
          allocs[i].streamId == allocs[i].negotiated)
  }

  /** Looking up the stream of a channel and the channel of a stream undo each other. */
  lemma LookupsInverse(h: Handler, id: ChannelId, sid: StreamId)
    requires WellFormed(h)
    ensures StreamOf(h, id) == Some(sid) <==> ChannelOf(h, sid) == Some(id)
  {
    var i, j := IndexOf(h.allocs, id), IndexOfStream(h.allocs, sid);
    if i.Some? && j.Some? && i != j {
      assert i.value < j.value || j.value < i.value;
    }
  }

  // ---- Removing ----

  lemma {:induction false} WithoutAbsent(allocs: seq<Allocation>, id: ChannelId)
    requires forall i :: 0 <= i < |allocs| ==> allocs[i].id != id
    ensures Without(allocs, id) == allocs
  {
    if allocs != [] {
      WithoutAbsent(allocs[1..], id);
    }
  }

  lemma {:induction false} WithoutAt(allocs: seq<Allocation>, k: nat)
    requires k < |allocs| && forall i :: 0 <= i < |allocs| && i != k ==> allocs[i].id != allocs[k].id
    ensures Without(allocs, allocs[k].id) == allocs[..k] + allocs[k + 1..]
  {
    if k == 0 {
      WithoutAbsent(allocs[1..], allocs[0].id);
    } else {
      WithoutAt(allocs[1..], k - 1);
    }
  }

  // Dropping the entry at k keeps order and distinctness.
  lemma CutKeepsWellFormed(h: Handler, k: nat, closed: seq<StreamId>)
    requires WellFormed(h) && k < |h.allocs|
    ensures WellFormed(Handler(h.allocs[..k] + h.allocs[k + 1..], h.nextId, closed))
  {
    var cut := h.allocs[..k] + h.allocs[k + 1..];
    forall i | 0 <= i < |cut| ensures cut[i] == h.allocs[if i < k then i else i + 1] {}
    assert IdsIncrease(cut, h.nextId);
    assert StreamsDistinct(cut);
    assert NegotiatedDistinct(cut);
  }

  lemma {:induction false} RemoveKeepsWellFormed(h: Handler, id: ChannelId, resetPending: bool)
    requires WellFormed(h)
    ensures WellFormed(RemoveChannel(h, id, resetPending))
  {
    var k := IndexOf(h.allocs, id);
    if k.None? {
      WithoutAbsent(h.allocs, id);
    } else {
      WithoutAt(h.allocs, k.value);
      CutKeepsWellFormed(h, k.value, RemoveChannel(h, id, resetPending).closed);
    }
  }

  // ---- Allocating ----

  // How one allocation may change: it is left alone, or it gets a free id.
  ghost predicate Assigned(a: Allocation, b: Allocation, taken: set<StreamId>, taken': set<StreamId>, base: StreamId) {
    && b == a.(streamId := b.streamId)
    && (a.streamId.Some? ==> b == a)
    && (a.streamId.None? && b.streamId.Some? ==>
          && b.streamId.value !in taken
          && (a.negotiated.Some? ==> b.streamId == a.negotiated)
          && (a.negotiated.None? ==> IsLeast(b.streamId.value, taken', base)))
    && (b.streamId.None? ==> a.negotiated.Some? && a.negotiated.value in taken')
  }

  // An automatic id: of the role's parity, with every smaller id of that parity in use.
  ghost predicate IsLeast(s: StreamId, taken: set<StreamId>, base: StreamId) {
    && s >= base && (s - base) % 2 == 0
    && forall y: StreamId :: base <= y < s && (y - base) % 2 == 0 ==> y in taken
  }

  lemma AssignedGrows(a: Allocation, b: Allocation, taken: set<StreamId>, tk: set<StreamId>, tk': set<StreamId>,
                      base: StreamId)
    requires Assigned(a, b, taken, tk, base) && tk <= tk'
    ensures Assigned(a, b, taken, tk', base)
  {
  }

  lemma AssignGives(a: Allocation, taken: set<StreamId>, tk: set<StreamId>, base: StreamId)
    requires a.streamId.None? && taken <= tk && Assign(a, tk, base).Done?
    ensures var s := Assign(a, tk, base).value;
            if s.None? then Assigned(a, a, taken, tk, base)
            else s.value !in tk && Assigned(a, a.(streamId := s), taken, tk + {s.value}, base)
  {
  }

  // The list and the taken ids after the first n allocations.
  ghost predicate Allocated(allocs: seq<Allocation>, taken: set<StreamId>, base: StreamId, n: nat,
                            bs: seq<Allocation>, tk: set<StreamId>)
  {
    && n <= |allocs| == |bs|
    && StreamsDistinct(bs) && NegotiatedDistinct(bs)
    && tk == taken + LiveIds(bs)
    && (forall i :: 0 <= i < n ==> Assigned(allocs[i], bs[i], taken, tk, base))
    && (forall i :: n <= i < |allocs| ==> bs[i] == allocs[i])
  }

  lemma {:induction false} GiveIdStep(allocs: seq<Allocation>, taken: set<StreamId>, base: StreamId, k: nat,
                                      bs: seq<Allocation>, tk: set<StreamId>, s: StreamId)
    requires k < |allocs| && Allocated(allocs, taken, base, k, bs, tk)
    requires allocs[k].streamId.None? && Assign(allocs[k], tk, base) == Done(Some(s))
    ensures Allocated(allocs, taken, base, k + 1, bs[k := allocs[k].(streamId := Some(s))], tk + {s})
  {
    var cs := bs[k := allocs[k].(streamId := Some(s))];
    AssignGives(allocs[k], taken, tk, base);
    GiveIdKeeps(bs, k, s);
    LiveIdsAdd(bs, k, s);
    forall i | 0 <= i < k + 1 ensures Assigned(allocs[i], cs[i], taken, tk + {s}, base) {
      if i < k {
        AssignedGrows(allocs[i], bs[i], taken, tk, tk + {s}, base);
      }
    }
  }

  lemma {:induction false} KeepStep(allocs: seq<Allocation>, taken: set<StreamId>, base: StreamId, k: nat,
                                    bs: seq<Allocation>, tk: set<StreamId>)
    requires k < |allocs| && Allocated(allocs, taken, base, k, bs, tk)
    requires allocs[k].streamId.Some? || Assign(allocs[k], tk, base) == Done(None)
    ensures Allocated(allocs, taken, base, k + 1, bs, tk)
  {
    if allocs[k].streamId.None? {
      AssignGives(allocs[k], taken, tk, base);
    }
  }

  lemma {:induction false} AllocateResult(allocs: seq<Allocation>, taken: set<StreamId>, base: StreamId, n: nat)
    requires n <= |allocs| && StreamsDistinct(allocs) && NegotiatedDistinct(allocs)
    requires LiveIds(allocs) <= taken
    requires Allocate(allocs, taken, base, n).Done?
    ensures var r := Allocate(allocs, taken, base, n).value; Allocated(allocs, taken, base, n, r.0, r.1)
  {
    if n == 0 {
      assert taken == taken + LiveIds(allocs);
    } else {
      AllocateResult(allocs, taken, base, n - 1);
      var r := Allocate(allocs, taken, base, n - 1).value;
      var a := allocs[n - 1];
      if a.streamId.None? && Assign(a, r.1, base).value.Some? {
        GiveIdStep(allocs, taken, base, n - 1, r.0, r.1, Assign(a, r.1, base).value.value);
      } else {
        KeepStep(allocs, taken, base, n - 1, r.0, r.1);
      }
    }
  }

  // Giving a fresh id to an allocation that has none.
  lemma GiveIdKeeps(bs: seq<Allocation>, k: int, s: StreamId)
    requires 0 <= k < |bs| && bs[k].streamId.None? && s !in LiveIds(bs)
    requires StreamsDistinct(bs) && NegotiatedDistinct(bs)
    requires bs[k].negotiated.Some? ==> bs[k].negotiated.value == s
    ensures StreamsDistinct(bs[k := bs[k].(streamId := Some(s))])
    ensures NegotiatedDistinct(bs[k := bs[k].(streamId := Some(s))])
  {
    forall i | 0 <= i < |bs| && bs[i].streamId.Some? ensures bs[i].streamId.value in LiveIds(bs) {}
  }

  lemma LiveIdsAdd(bs: seq<Allocation>, k: int, s: StreamId)
    requires 0 <= k < |bs| && bs[k].streamId.None?
    ensures LiveIds(bs[k := bs[k].(streamId := Some(s))]) == LiveIds(bs) + {s}
  {
    var cs := bs[k := bs[k].(streamId := Some(s))];
    forall x ensures x in LiveIds(cs) <==> x in LiveIds(bs) + {s} {
      if x in LiveIds(bs) {
        var i :| 0 <= i < |bs| && bs[i].streamId == Some(x);
        assert cs[i].streamId == Some(x);
      }
      if x == s {
        assert cs[k].streamId == Some(s);
      }
      if x in LiveIds(cs) {
        var i :| 0 <= i < |cs| && cs[i].streamId == Some(x);
        assert i == k || bs[i].streamId == Some(x);
      }
    }
  }

  /**
   Allocation hands out only ids that are neither live nor held, changes no id that is
   already known, and makes a channel wait only for a negotiated id that is in use.
   */
  lemma {:induction false} AllocationsResult(h: Handler, client: bool)
    requires WellFormed(h) && DoAllocations(h, client).Done?
    ensures var h' := DoAllocations(h, client).value;
            && WellFormed(h') && |h'.allocs| == |h.allocs| && h'.nextId == h.nextId && h'.closed == h.closed
            && (forall i :: 0 <= i < |h.allocs| ==>
                  Assigned(h.allocs[i], h'.allocs[i], LiveIds(h.allocs) + HeldIds(h),
                           LiveIds(h'.allocs) + HeldIds(h), Base(client)))
  {
    var taken := LiveIds(h.allocs) + HeldIds(h);
    if NeedAllocation(h) {
      AllocateResult(h.allocs, taken, Base(client), |h.allocs|);
      var (bs, tk) := Allocate(h.allocs, taken, Base(client), |h.allocs|).value;
      assert LiveIds(h.allocs) <= LiveIds(bs) by {
        forall x | x in LiveIds(h.allocs) ensures x in LiveIds(bs) {
          var i :| 0 <= i < |h.allocs| && h.allocs[i].streamId == Some(x);
          assert Assigned(h.allocs[i], bs[i], taken, tk, Base(client));
        }
      }
      assert tk == LiveIds(bs) + HeldIds(h);
    } else {
      forall i | 0 <= i < |h.allocs|
        ensures Assigned(h.allocs[i], h.allocs[i], taken, taken, Base(client))
      {
        assert !NeedsAllocation(h, h.allocs[i]);
      }
    }
  }

  /** The automatic search never looks past base + 2 * |taken|, so it ends without overflow. */
  lemma {:induction false} LeastFreeBound(taken: set<StreamId>, from: int, seen: set<StreamId>)
    requires 0 <= from && seen <= taken && forall y :: y in seen ==> y < from
    ensures LeastFree(taken, from).Some? ==> LeastFree(taken, from).value <= from + 2 * (|taken| - |seen|)
    ensures LeastFree(taken, from).None? ==> from + 2 * (|taken| - |seen|) >= 65536
    decreases 65536 - from
  {
    SubsetSize(seen, taken);
    if from < 65536 && from in taken {
      SubsetSize(seen + {from}, taken);
      LeastFreeBound(taken, from + 2, seen + {from});
    }
  }

  lemma {:induction false} AutoSearchSucceeds(taken: set<StreamId>, client: bool)
    requires |taken| <= 32767
    ensures LeastFree(taken, Base(client)).Some?
    ensures LeastFree(taken, Base(client)).value <= Base(client) + 2 * |taken|
  {
    LeastFreeBound(taken, Base(client), {});
  }

  lemma {:induction false} AssignCompletes(a: Allocation, taken: set<StreamId>, client: bool)
    requires |taken| <= 32767
    ensures Assign(a, taken, Base(client)).Done?
  {
    AutoSearchSucceeds(taken, client);
  }

  lemma AddOneId(taken: set<StreamId>, x: StreamId)
    ensures |taken + {x}| <= |taken| + 1
  {
  }

  lemma {:induction false} AllocateCompletes(allocs: seq<Allocation>, taken: set<StreamId>, client: bool, n: nat)
    requires n <= |allocs| && |taken| + n <= 32768
    ensures var r := Allocate(allocs, taken, Base(client), n);
            r.Done? && |r.value.1| <= |taken| + n
  {
    if n > 0 {
      AllocateCompletes(allocs, taken, client, n - 1);
      var tk, a := Allocate(allocs, taken, Base(client), n - 1).value.1, allocs[n - 1];
      AssignCompletes(a, tk, client);
      if Assign(a, tk, Base(client)).value.Some? {
        AddOneId(tk, Assign(a, tk, Base(client)).value.value);
      }
    }
  }

  lemma {:induction false} LiveIdsSize(allocs: seq<Allocation>, n: nat)
    requires n <= |allocs|
    ensures |LiveIds(allocs[..n])| <= n
  {
    if n > 0 {
      LiveIdsSize(allocs, n - 1);
      var extra: set<StreamId> := if allocs[n - 1].streamId.Some? then {allocs[n - 1].streamId.value} else {};
      assert LiveIds(allocs[..n]) <= LiveIds(allocs[..n - 1]) + extra by {
        forall x | x in LiveIds(allocs[..n]) ensures x in LiveIds(allocs[..n - 1]) + extra {
          var i :| 0 <= i < n && allocs[..n][i].streamId == Some(x);
          if i < n - 1 {
            assert allocs[..n - 1][i].streamId == Some(x);
          }
        }
      }
      SubsetSize(LiveIds(allocs[..n]), LiveIds(allocs[..n - 1]) + extra);
    }
  }

  lemma {:induction false} IdSetSize(s: seq<StreamId>)
    ensures |IdSet(s)| <= |s|
  {
    if s == [] {
      assert IdSet(s) == {};
    } else {
      IdSetSize(s[1..]);
      assert IdSet(s) == IdSet(s[1..]) + {s[0]};
    }
  }

  /** No timeout overflows the stream ids while twice the channels plus the holds are at most 32768. */
  lemma {:induction false} TimeoutCompletes(h: Handler, inited: bool, client: bool)
    requires 2 * |h.allocs| + |h.closed| <= 32768
    ensures HandleTimeout(h, inited, client).Done?
  {
    assert h.allocs[..|h.allocs|] == h.allocs;
    LiveIdsSize(h.allocs, |h.allocs|);
    IdSetSize(h.closed);
    AllocateCompletes(h.allocs, LiveIds(h.allocs) + HeldIds(h), client, |h.allocs|);
  }

  // A channel waits for a negotiated id that a live channel owns.
  ghost predicate WaitsForLive(h: Handler, a: Allocation) {
    && a.streamId.None? && a.negotiated.Some? && a.negotiated.value !in h.closed
    && ChannelOf(h, a.negotiated.value).Some?
  }

  lemma {:induction false} NeedsIffWaits(h: Handler, h1: Handler, h': Handler, base: StreamId, i: int)
    requires 0 <= i < |h.allocs| == |h1.allocs| && h'.closed == h.closed
    requires Assigned(h.allocs[i], h1.allocs[i], LiveIds(h.allocs) + HeldIds(h), LiveIds(h1.allocs) + HeldIds(h), base)
    requires h'.allocs == OpenedAll(h1.allocs)
    ensures NeedsAllocation(h', h'.allocs[i]) <==> WaitsForLive(h', h'.allocs[i])
  {
    assert h'.allocs[i] == Opened(h1.allocs[i]);
    if h1.allocs[i].streamId.None? {
      var w := h1.allocs[i].negotiated.value;
      if w !in HeldIds(h) {
        var j :| 0 <= j < |h1.allocs| && h1.allocs[j].streamId == Some(w);
        assert h'.allocs[j].streamId == Some(w);
      }
    }
  }

  /**
   After a timeout on an initialised association the handler asks for another one
   exactly when a channel waits for a negotiated id that another live channel owns.
   */
  lemma {:induction false} QuietAfterTimeout(h: Handler, client: bool)
    requires WellFormed(h) && HandleTimeout(h, true, client).Done?
    ensures var h' := HandleTimeout(h, true, client).value.0;
            WantsTimeout(h', true) <==> exists i :: 0 <= i < |h'.allocs| && WaitsForLive(h', h'.allocs[i])
  {
    AllocationsResult(h, client);
    var h1, h' := DoAllocations(h, client).value, HandleTimeout(h, true, client).value.0;
    assert !NeedOpen(h');
    forall i | 0 <= i < |h'.allocs| ensures NeedsAllocation(h', h'.allocs[i]) <==> WaitsForLive(h', h'.allocs[i]) {
      NeedsIffWaits(h, h1, h', Base(client), i);
    }
  }

  // ---- Runs ----

  datatype Op =
    | NewOp(newConfig: ChannelConfig)
    | ConfirmOp(id: ChannelId, config: ChannelConfig)
    | TimeoutOp(inited: bool, client: bool)
    | RemoteOpenOp(sid: StreamId)
    | ResetCompleteOp(sid: StreamId)
    | AssociationLostOp
    | RemoveOp(id: ChannelId, resetPending: bool)

  function Exec(h: Handler, op: Op): Step<Handler> {
    match op
    case NewOp(c) => var (h', _) :- NewChannel(h, c); Done(h')
    case ConfirmOp(id, c) => Confirm(h, id, c)
    case TimeoutOp(inited, client) => var (h', _) :- HandleTimeout(h, inited, client); Done(h')
    case RemoteOpenOp(sid) => Done(EnsureChannelIdFor(h, sid))
    case ResetCompleteOp(sid) => Done(StreamResetComplete(h, sid))
    case AssociationLostOp => Done(AssociationLost(h))
    case RemoveOp(id, pending) => Done(RemoveChannel(h, id, pending))
  }

  function Run(ops: seq<Op>): Step<Handler> {
    if ops == [] then Done(EMPTY) else
      var h :- Run(ops[..|ops| - 1]);
      Exec(h, ops[|ops| - 1])
  }

  // Appending a channel with a new id.
  lemma AppendKeepsWellFormed(h: Handler, a: Allocation)
    requires WellFormed(h) && a.id == h.nextId && a.config.None?
    requires a.streamId.Some? ==> a.negotiated.None? && IndexOfStream(h.allocs, a.streamId.value).None?
    requires a.negotiated.Some? ==> !Named(h, a.negotiated.value)
    ensures WellFormed(h.(allocs := h.allocs + [a], nextId := h.nextId + 1))
  {
    forall i | 0 <= i < |h.allocs| && a.negotiated.Some? ensures h.allocs[i].negotiated != a.negotiated {}
  }

  lemma OpeningKeepsWellFormed(h: Handler)
    requires WellFormed(h)
    ensures WellFormed(h.(allocs := OpenedAll(h.allocs)))
  {
    var bs := OpenedAll(h.allocs);
    assert forall i :: 0 <= i < |bs| ==> bs[i] == h.allocs[i].(config := bs[i].config);
  }

  lemma ConfirmKeepsWellFormed(h: Handler, id: ChannelId, config: ChannelConfig)
    requires WellFormed(h) && Confirm(h, id, config).Done?
    ensures WellFormed(Confirm(h, id, config).value)
  {
    var bs := Confirm(h, id, config).value.allocs;
    assert forall i :: 0 <= i < |bs| ==> bs[i] == h.allocs[i].(config := bs[i].config);
  }

  lemma {:induction false} StepKeepsWellFormed(h: Handler, op: Op)
    requires WellFormed(h) && Exec(h, op).Done?
    ensures WellFormed(Exec(h, op).value)
  {
    match op
    case NewOp(c) => AppendKeepsWellFormed(h, Allocation(h.nextId, None, c.negotiated, None));
    case RemoteOpenOp(sid) =>
      if IndexOfStream(h.allocs, sid).None? {
        AppendKeepsWellFormed(h, Allocation(h.nextId, Some(sid), None, None));
      }
    case RemoveOp(id, pending) => RemoveKeepsWellFormed(h, id, pending);
    case TimeoutOp(inited, client) =>
      if inited {
        AllocationsResult(h, client);
        OpeningKeepsWellFormed(DoAllocations(h, client).value);
      }
    case ConfirmOp(id, c) => ConfirmKeepsWellFormed(h, id, c);
    case _ =>
  }

  /** In every run live stream ids stay pairwise distinct. */
  lemma {:induction false} RunWellFormed(ops: seq<Op>)
    requires Run(ops).Done?
    ensures WellFormed(Run(ops).value)
  {
    if ops != [] {
      RunWellFormed(ops[..|ops| - 1]);
      StepKeepsWellFormed(Run(ops[..|ops| - 1]).value, ops[|ops| - 1]);
    }
  }

  // A known channel keeps its stream id, and a removed one never comes back.
  ghost predicate Continues(h: Handler, h': Handler) {
    && h.nextId <= h'.nextId
    && forall id: ChannelId :: id < h.nextId && IndexOf(h'.allocs, id).Some? ==>
         && IndexOf(h.allocs, id).Some?
         && (StreamOf(h, id).Some? ==> StreamOf(h', id) == StreamOf(h, id))
  }

  // An index found in a strictly increasing list is the only one.
  lemma IndexUnique(h: Handler, i: int)
    requires WellFormed(h) && 0 <= i < |h.allocs|
    ensures IndexOf(h.allocs, h.allocs[i].id) == Some(i)
  {
    var k := IndexOf(h.allocs, h.allocs[i].id).value;
    assert !(k < i) && !(i < k);
  }

  // Every old channel of h' was in h already, with the same stream id if it had one.
  ghost predicate Originates(h: Handler, b: Allocation) {
    exists j :: 0 <= j < |h.allocs| && h.allocs[j].id == b.id &&
                (h.allocs[j].streamId.Some? ==> h.allocs[j].streamId == b.streamId)
  }

  lemma {:induction false} OriginsContinue(h: Handler, h': Handler)
    requires WellFormed(h) && WellFormed(h') && h.nextId <= h'.nextId
    requires forall i :: 0 <= i < |h'.allocs| && h'.allocs[i].id < h.nextId ==> Originates(h, h'.allocs[i])
    ensures Continues(h, h')
  {
    forall id: ChannelId | id < h.nextId && IndexOf(h'.allocs, id).Some?
      ensures IndexOf(h.allocs, id).Some?
      ensures StreamOf(h, id).Some? ==> StreamOf(h', id) == StreamOf(h, id)
    {
      var i := IndexOf(h'.allocs, id).value;
      assert Originates(h, h'.allocs[i]);
      var j :| 0 <= j < |h.allocs| && h.allocs[j].id == id &&
               (h.allocs[j].streamId.Some? ==> h.allocs[j].streamId == h'.allocs[i].streamId);
      IndexUnique(h, j);
    }
  }

  lemma {:induction false} TimeoutOrigins(h: Handler, client: bool)
    requires WellFormed(h) && HandleTimeout(h, true, client).Done?
    ensures var h' := HandleTimeout(h, true, client).value.0;
            forall i :: 0 <= i < |h'.allocs| ==> Originates(h, h'.allocs[i])
  {
    AllocationsResult(h, client);
    var h1, h' := DoAllocations(h, client).value, HandleTimeout(h, true, client).value.0;
    forall i | 0 <= i < |h'.allocs| ensures Originates(h, h'.allocs[i]) {
      assert Assigned(h.allocs[i], h1.allocs[i], LiveIds(h.allocs) + HeldIds(h), LiveIds(h1.allocs) + HeldIds(h),
                      Base(client));
      assert h.allocs[i].id == h'.allocs[i].id;
    }
  }

  lemma {:induction false} RemoveOrigins(h: Handler, id: ChannelId)
    requires WellFormed(h)
    ensures forall i :: 0 <= i < |Without(h.allocs, id)| ==> Originates(h, Without(h.allocs, id)[i])
  {
    var k := IndexOf(h.allocs, id);
    if k.None? {
      WithoutAbsent(h.allocs, id);
      forall i | 0 <= i < |h.allocs| ensures Originates(h, h.allocs[i]) {}
    } else {
      WithoutAt(h.allocs, k.value);
      var bs := Without(h.allocs, id);
      forall i | 0 <= i < |bs| ensures Originates(h, bs[i]) {
        assert bs[i] == h.allocs[if i < k.value then i else i + 1];
      }
    }
  }

  lemma {:induction false} StepContinues(h: Handler, op: Op)
    requires WellFormed(h) && Exec(h, op).Done?
    ensures Continues(h, Exec(h, op).value)
  {
    StepKeepsWellFormed(h, op);
    var h' := Exec(h, op).value;
    if op.RemoveOp? {
      RemoveOrigins(h, op.id);
    } else if op.TimeoutOp? && op.inited {
      TimeoutOrigins(h, op.client);
    } else {
      forall i | 0 <= i < |h'.allocs| && h'.allocs[i].id < h.nextId ensures Originates(h, h'.allocs[i]) {
        assert h.allocs[i].id == h'.allocs[i].id;
      }
    }
    OriginsContinue(h, h');
  }

  /** Once a channel has a stream id, it keeps that id for as long as it exists. */
  lemma {:induction false} StreamIdsAreStable(ops: seq<Op>, n: nat)
    requires n <= |ops| && Run(ops).Done?
    ensures Run(ops[..n]).Done? && Continues(Run(ops[..n]).value, Run(ops).value)
  {
    if n == |ops| {
      assert ops[..n] == ops;
    } else {
      var m := |ops| - 1;
      StreamIdsAreStable(ops[..m], n);
      assert ops[..m][..n] == ops[..n];
      RunWellFormed(ops[..m]);
      StepContinues(Run(ops[..m]).value, ops[m]);
    }
  }

  // ---- Held ids ----

  // By how much one call changes the number of outstanding resets of an id.
  ghost function HoldChange(h: Handler, op: Op, sid: StreamId, before: int): int {
    match op
    case RemoveOp(id, pending) => if pending && StreamOf(h, id) == Some(sid) then 1 else 0
    case ResetCompleteOp(x) => if x == sid then -1 else 0
    case AssociationLostOp => -before
    case _ => 0
  }

  // Resets started minus resets completed for one id since the association was last lost.
  ghost function Outstanding(ops: seq<Op>, sid: StreamId): int
    requires Run(ops).Done?
  {
    if ops == [] then 0 else
      var n := |ops| - 1;
      var before := Outstanding(ops[..n], sid);
      before + HoldChange(Run(ops[..n]).value, ops[n], sid, before)
  }

  // Only the three calls below touch the list of held ids.
  lemma HeldListChanges(h: Handler, op: Op)
    requires Exec(h, op).Done? && !op.RemoveOp? && !op.ResetCompleteOp? && !op.AssociationLostOp?
    ensures Exec(h, op).value.closed == h.closed
  {
  }

  lemma SnocCount(s: seq<StreamId>, x: StreamId, sid: StreamId)
    ensures multiset(s + [x])[sid] == multiset(s)[sid] + if x == sid then 1 else 0
  {
  }

  lemma {:induction false} HoldStep(h: Handler, op: Op, sid: StreamId)
    requires Exec(h, op).Done?
    ensures var before := multiset(h.closed)[sid];
            var after := before + HoldChange(h, op, sid, before);
            after >= 0 ==> multiset(Exec(h, op).value.closed)[sid] == after
  {
    match op
    case ResetCompleteOp(x) => RemoveFirstCounts(h.closed, x);
    case RemoveOp(id, pending) =>
      if StreamOf(h, id).Some? {
        SnocCount(h.closed, StreamOf(h, id).value, sid);
      }
    case AssociationLostOp =>
    case _ => HeldListChanges(h, op);
  }

  /**
   If completions never outnumber starts, the number of holds on an id is exactly the
   number of resets still outstanding.
   */
  lemma {:induction false} HoldsAreOutstanding(ops: seq<Op>, sid: StreamId)
    requires Run(ops).Done?
    requires forall n :: 0 <= n <= |ops| && Run(ops[..n]).Done? ==> Outstanding(ops[..n], sid) >= 0
    ensures multiset(Run(ops).value.closed)[sid] == Outstanding(ops, sid)
  {
    if ops != [] {
      var m := |ops| - 1;
      forall n | 0 <= n <= m && Run(ops[..m][..n]).Done? ensures Outstanding(ops[..m][..n], sid) >= 0 {
        assert ops[..m][..n] == ops[..n];
      }
      HoldsAreOutstanding(ops[..m], sid);
      assert ops[..|ops|] == ops;
      HoldStep(Run(ops[..m]).value, ops[m], sid);
    }
  }

  ghost predicate Live(allocs: seq<Allocation>, sid: StreamId) {
    exists i :: 0 <= i < |allocs| && allocs[i].streamId == Some(sid)
  }

  /** A live channel sits on an id whose reset is outstanding. */
  ghost predicate HeldAndLive(h: Handler, sid: StreamId) {
    sid in h.closed && Live(h.allocs, sid)
  }

  lemma {:induction false} TimeoutTakesNoHeldId(h: Handler, client: bool, sid: StreamId)
    requires WellFormed(h) && sid in h.closed && HandleTimeout(h, true, client).Done?
    ensures HandleTimeout(h, true, client).value.0.closed == h.closed
    ensures Live(HandleTimeout(h, true, client).value.0.allocs, sid) ==> Live(h.allocs, sid)
  {
    AllocationsResult(h, client);
    var h1, h' := DoAllocations(h, client).value, HandleTimeout(h, true, client).value.0;
    if Live(h'.allocs, sid) {
      var i :| 0 <= i < |h'.allocs| && h'.allocs[i].streamId == Some(sid);
      assert Assigned(h.allocs[i], h1.allocs[i], LiveIds(h.allocs) + HeldIds(h), LiveIds(h1.allocs) + HeldIds(h),
                      Base(client));
      assert h.allocs[i].streamId == Some(sid);
    }
  }

  // A removed channel frees its id at the moment the id becomes held.
  lemma {:induction false} RemoveFreesId(h: Handler, id: ChannelId, sid: StreamId)
    requires WellFormed(h) && Live(Without(h.allocs, id), sid)
    ensures Live(h.allocs, sid) && StreamOf(h, id) != Some(sid)
  {
    var bs, k := Without(h.allocs, id), IndexOf(h.allocs, id);
    var i :| 0 <= i < |bs| && bs[i].streamId == Some(sid);
    if k.None? {
      WithoutAbsent(h.allocs, id);
    } else {
      WithoutAt(h.allocs, k.value);
      var j := if i < k.value then i else i + 1;
      assert h.allocs[j] == bs[i];
      assert j < k.value || k.value < j;
    }
  }

  lemma {:induction false} RemoveFirstWithin(s: seq<StreamId>, x: StreamId)
    ensures forall y :: y in RemoveFirst(s, x) ==> y in s
  {
    if s != [] {
      RemoveFirstWithin(s[1..], x);
    }
  }

  // New channels have no id yet, and a confirmed one keeps its id.
  lemma QuietCallsKeepLive(h: Handler, op: Op, sid: StreamId)
    requires (op.NewOp? || op.ConfirmOp?) && Exec(h, op).Done? && Live(Exec(h, op).value.allocs, sid)
    ensures Live(h.allocs, sid)
  {
    var bs := Exec(h, op).value.allocs;
    var i :| 0 <= i < |bs| && bs[i].streamId == Some(sid);
    assert h.allocs[i].streamId == Some(sid);
  }

  lemma RemoteOpenMakesLive(h: Handler, sid: StreamId, x: StreamId)
    ensures Live(EnsureChannelIdFor(h, x).allocs, sid) <==> Live(h.allocs, sid) || x == sid
  {
    var bs := EnsureChannelIdFor(h, x).allocs;
    if IndexOfStream(h.allocs, x).None? {
      assert bs[|h.allocs|].streamId == Some(x);
    }
    if Live(h.allocs, sid) {
      var i :| 0 <= i < |h.allocs| && h.allocs[i].streamId == Some(sid);
      assert bs[i].streamId == Some(sid);
    }
  }

  /** The only call that puts a channel on a held id is a remote open of that id. */
  lemma {:induction false} OnlyRemoteOpenTakesHeldIds(h: Handler, op: Op, sid: StreamId)
    requires WellFormed(h) && !HeldAndLive(h, sid) && Exec(h, op).Done?
    ensures HeldAndLive(Exec(h, op).value, sid) <==> op == RemoteOpenOp(sid) && sid in h.closed
  {
    var h' := Exec(h, op).value;
    match op
    case RemoteOpenOp(x) => RemoteOpenMakesLive(h, sid, x);
    case TimeoutOp(inited, client) =>
      if inited {
        HeldListChanges(h, op);
        if sid in h.closed {
          TimeoutTakesNoHeldId(h, client, sid);
        }
      }
    case RemoveOp(id, pending) =>
      if Live(h'.allocs, sid) {
        RemoveFreesId(h, id, sid);
      }
    case ResetCompleteOp(x) => RemoveFirstWithin(h.closed, x);
    case AssociationLostOp =>
    case _ =>
      if Live(h'.allocs, sid) {
        QuietCallsKeepLive(h, op, sid);
      }
  }

  /** In every run: a live channel on a held id got there by a remote open while the id was held. */
  lemma {:induction false} HeldAndLiveIsRemote(ops: seq<Op>, sid: StreamId)
    requires Run(ops).Done? && HeldAndLive(Run(ops).value, sid)
    ensures exists n :: 0 <= n < |ops| && ops[n] == RemoteOpenOp(sid) &&
                        Run(ops[..n]).Done? && sid in Run(ops[..n]).value.closed
  {
    var m := |ops| - 1;
    RunWellFormed(ops[..m]);
    if HeldAndLive(Run(ops[..m]).value, sid) {
      HeldAndLiveIsRemote(ops[..m], sid);
      var n :| 0 <= n < m && ops[..m][n] == RemoteOpenOp(sid) &&
               Run(ops[..m][..n]).Done? && sid in Run(ops[..m][..n]).value.closed;
      assert ops[..m][..n] == ops[..n] && ops[n] == RemoteOpenOp(sid);
    } else {
      OnlyRemoteOpenTakesHeldIds(Run(ops[..m]).value, ops[m], sid);
    }
  }

  // The run of three calls, from their effects one by one.
  lemma RunOfThree(a: Op, b: Op, c: Op, h1: Handler, h2: Handler, h3: Handler)
    requires Exec(EMPTY, a) == Done(h1) && Exec(h1, b) == Done(h2) && Exec(h2, c) == Done(h3)
    ensures Run([a, b, c]) == Done(h3)
  {
    assert [a][..0] == [] && [a, b][..1] == [a] && [a, b, c][..2] == [a, b];
    assert Run([]) == Done(EMPTY);
    assert Run([a]) == Done(h1);
    assert Run([a, b]) == Done(h2);
  }

  // Removing the only channel, with a reset pending.
  lemma RemoveOnly(a: Allocation, next: ChannelId)
    requires a.streamId.Some?
    ensures RemoveChannel(Handler([a], next, []), a.id, true) == Handler([], next, [a.streamId.value])
  {
    var h := Handler([a], next, []);
    assert Without([a], a.id) == Without([], a.id) by {
      assert [a][1..] == [];
    }
    assert StreamOf(h, a.id) == a.streamId;
    assert h.closed + [a.streamId.value] == [a.streamId.value];
  }

  /** It does happen: the remote opens id 4, closes it, and opens it again before the reset is over. */
  lemma HeldAndLiveExample()
    ensures var ops := [RemoteOpenOp(4), RemoveOp(0, true), RemoteOpenOp(4)];
            Run(ops).Done? && HeldAndLive(Run(ops).value, 4)
  {
    var first, second := Allocation(0, Some(4), None, None), Allocation(1, Some(4), None, None);
    var h1, h2, h3 := Handler([first], 1, []), Handler([], 1, [4]), Handler([second], 2, [4]);
    assert [] + [first] == [first] && [] + [second] == [second];
    RemoveOnly(first, 1);
    RunOfThree(RemoteOpenOp(4), RemoveOp(0, true), RemoteOpenOp(4), h1, h2, h3);
    assert h3.allocs[0].streamId == Some(4);
  }

  // The automatic channel takes id 0, and the channel that negotiated it has to wait.
  lemma WaitingStep(h: Handler, first: Allocation, second: Allocation)
    requires first == Allocation(0, None, None, None) && second == Allocation(1, None, Some(0), None)
    requires h == Handler([first, second], 2, [])
    ensures HandleTimeout(h, true, true).Done?
    ensures HandleTimeout(h, true, true).value.0 == h.(allocs := [first.(streamId := Some(0)), second])
  {
    var as0, given := h.allocs, [first.(streamId := Some(0)), second];
    assert NeedsAllocation(h, as0[0]);
    assert LiveIds(as0) + HeldIds(h) == {};
    assert Allocate(as0, {}, 0, 0) == Done((as0, {}));
    assert Assign(first, {}, 0) == Done(Some(0));
    assert as0[0 := first.(streamId := Some(0))] == given;
    var none: set<StreamId> := {};
    assert none + {0} == {0};
    assert Allocate(as0, {}, 0, 1) == Done((given, {0}));
    assert Assign(second, {0}, 0) == Done(None);
    assert Allocate(as0, {}, 0, 2) == Done((given, {0}));
    assert OpenedAll(given) == given;
  }

  /** A negotiated channel whose id was given away automatically keeps the handler asking for timeouts. */
  lemma WaitingExample(auto: ChannelConfig, fixed: ChannelConfig)
    requires auto.negotiated.None? && fixed.negotiated == Some(0)
    ensures var ops := [NewOp(auto), NewOp(fixed), TimeoutOp(true, true)];
            Run(ops).Done? && WantsTimeout(Run(ops).value, true)
  {
    var first, second := Allocation(0, None, None, None), Allocation(1, None, Some(0), None);
    var h1, h2 := Handler([first], 1, []), Handler([first, second], 2, []);
    assert [] + [first] == [first] && [first] + [second] == [first, second];
    assert !Named(h1, 0);
    WaitingStep(h2, first, second);
    var h3 := HandleTimeout(h2, true, true).value.0;
    RunOfThree(NewOp(auto), NewOp(fixed), TimeoutOp(true, true), h1, h2, h3);
    assert NeedsAllocation(h3, h3.allocs[1]);
  }

  // ---- Automatic ids of the two peers ----

  // The ids given automatically in a run, where this side has the given role throughout.
  ghost function AutoIds(ops: seq<Op>): (s: set<StreamId>)
    requires Run(ops).Done?
  {
    if ops == [] then {} else
      var n := |ops| - 1;
      AutoIds(ops[..n]) + AutoGivenBy(Run(ops[..n]).value, ops[n])
  }

  ghost function AutoGivenBy(h: Handler, op: Op): (s: set<StreamId>)
    requires Exec(h, op).Done?
  {
    if op.TimeoutOp? && op.inited then AutoGiven(h, DoAllocations(h, op.client).value) else {}
  }

  ghost function AutoGiven(h: Handler, h': Handler): set<StreamId> {
    set i | 0 <= i < |h.allocs| && i < |h'.allocs| && h.allocs[i].streamId.None? && h.allocs[i].negotiated.None? &&
            h'.allocs[i].streamId.Some? :: h'.allocs[i].streamId.value
  }

  ghost predicate HasRole(ops: seq<Op>, client: bool) {
    forall i :: 0 <= i < |ops| && ops[i].TimeoutOp? ==> ops[i].client == client
  }

  lemma LeastHasParity(a: Allocation, b: Allocation, taken: set<StreamId>, tk: set<StreamId>, client: bool)
    requires Assigned(a, b, taken, tk, Base(client))
    requires a.streamId.None? && a.negotiated.None? && b.streamId.Some?
    ensures b.streamId.value % 2 == Base(client)
  {
    assert IsLeast(b.streamId.value, tk, Base(client));
  }

  lemma {:induction false} AutoGivenHasParity(h: Handler, op: Op, client: bool)
    requires WellFormed(h) && Exec(h, op).Done? && (op.TimeoutOp? ==> op.client == client)
    ensures forall s :: s in AutoGivenBy(h, op) ==> s % 2 == Base(client)
  {
    if op.TimeoutOp? && op.inited {
      AllocationsResult(h, client);
      var h' := DoAllocations(h, client).value;
      forall s | s in AutoGiven(h, h') ensures s % 2 == Base(client) {
        var i :| 0 <= i < |h.allocs| && h.allocs[i].streamId.None? && h.allocs[i].negotiated.None? &&
                 h'.allocs[i].streamId == Some(s);
        LeastHasParity(h.allocs[i], h'.allocs[i], LiveIds(h.allocs) + HeldIds(h),
                       LiveIds(h'.allocs) + HeldIds(h), client);
      }
    }
  }

  lemma {:induction false} AutoIdsHaveParity(ops: seq<Op>, client: bool)
    requires Run(ops).Done? && HasRole(ops, client)
    ensures forall s :: s in AutoIds(ops) ==> s % 2 == Base(client)
  {
    if ops != [] {
      var n := |ops| - 1;
      AutoIdsHaveParity(ops[..n], client);
      RunWellFormed(ops[..n]);
      AutoGivenHasParity(Run(ops[..n]).value, ops[n], client);
    }
  }

  /** The ids a client and a server pick automatically never coincide. */
  lemma {:induction false} PeersNeverCollide(clientOps: seq<Op>, serverOps: seq<Op>)
    requires Run(clientOps).Done? && HasRole(clientOps, true)
    requires Run(serverOps).Done? && HasRole(serverOps, false)
    ensures AutoIds(clientOps) !! AutoIds(serverOps)
  {
    AutoIdsHaveParity(clientOps, true);
    AutoIdsHaveParity(serverOps, false);
  }
}
