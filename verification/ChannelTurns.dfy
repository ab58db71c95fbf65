/**
 Who gets which stream id: a timeout goes through the channels in order, and what each of them gets
 is decided by the ids that are live or held, and by what the channels before it have.
 */
module ChannelTurns {
  import opened Prelude
  import opened Channels
  import opened ChannelRuns

  /** The ids that are not free for channel number i: live before, held, or with a channel before it. */
  function TakenBefore(h: Handler, bs: seq<Allocation>, i: nat): set<StreamId>
    requires i <= |bs|
  {
    LiveIds(h.allocs) + HeldIds(h) + LiveIds(bs[..i])
  }

  /** The least id of the role's parity that is not taken. */
  ghost predicate IsFirstFree(s: StreamId, taken: set<StreamId>, client: bool) {
    && s !in taken && s % 2 == Base(client)
    && forall y: StreamId :: y < s && y % 2 == Base(client) ==> y in taken
  }

  /**
   What channel number i gets: nothing new if it has an id; its negotiated id if that is free, else
   it waits; without a negotiated one the first free id of the role.
   */
  ghost predicate InTurn(h: Handler, bs: seq<Allocation>, i: nat, client: bool)
    requires i < |bs| == |h.allocs|
  {
    var a, b, taken := h.allocs[i], bs[i], TakenBefore(h, bs, i);
    && b == a.(streamId := b.streamId)
    && if a.streamId.Some? then b.streamId == a.streamId
       else if a.negotiated.Some? then
         b.streamId == if a.negotiated.value in taken then None else a.negotiated
       else b.streamId.Some? && IsFirstFree(b.streamId.value, taken, client)
  }

  ghost predicate AllInTurn(h: Handler, bs: seq<Allocation>, client: bool) {
    |bs| == |h.allocs| && forall i :: 0 <= i < |bs| ==> InTurn(h, bs, i, client)
  }

  lemma LiveIdsSnoc(bs: seq<Allocation>, n: nat)
    requires n < |bs|
    ensures LiveIds(bs[..n + 1]) == LiveIds(bs[..n]) + if bs[n].streamId.Some? then {bs[n].streamId.value} else {}
  {
    var xs, ys := bs[..n], bs[..n + 1];
    forall x ensures x in LiveIds(ys) <==> x in LiveIds(xs) || bs[n].streamId == Some(x) {
      if x in LiveIds(xs) {
        var i :| 0 <= i < n && xs[i].streamId == Some(x);
        assert ys[i].streamId == Some(x);
      }
      if bs[n].streamId == Some(x) {
        assert ys[n].streamId == Some(x);
      }
      if x in LiveIds(ys) {
        var i :| 0 <= i < n + 1 && ys[i].streamId == Some(x);
        assert i == n || xs[i].streamId == Some(x);
      }
    }
  }

  // What the pass has done after n channels.
  ghost predicate PassedBy(h: Handler, bs: seq<Allocation>, tk: set<StreamId>, n: nat, client: bool) {
    && n <= |bs| == |h.allocs|
    && (forall i :: 0 <= i < n ==> InTurn(h, bs, i, client))
    && (forall i :: n <= i < |bs| ==> bs[i] == h.allocs[i])
    && tk == TakenBefore(h, bs, n)
  }

  // Replacing a later entry does not matter to those before.
  lemma InTurnStays(h: Handler, bs: seq<Allocation>, i: nat, n: nat, b: Allocation, client: bool)
    requires i < n < |bs| == |h.allocs| && InTurn(h, bs, i, client)
    ensures InTurn(h, bs[n := b], i, client)
  {
    assert bs[n := b][..i] == bs[..i];
  }

  lemma {:induction false} AssignIsTurn(a: Allocation, taken: set<StreamId>, client: bool)
    requires a.streamId.None? && Assign(a, taken, Base(client)).Done?
    ensures var s := Assign(a, taken, Base(client)).value;
            if a.negotiated.Some? then s == if a.negotiated.value in taken then None else a.negotiated
            else s.Some? && IsFirstFree(s.value, taken, client)
  {
  }

  lemma {:induction false} PassGives(h: Handler, bs: seq<Allocation>, tk: set<StreamId>, n: nat, client: bool,
                                     s: Option<StreamId>)
    requires n < |bs| && PassedBy(h, bs, tk, n, client) && h.allocs[n].streamId.None?
    requires Assign(h.allocs[n], tk, Base(client)) == Done(s)
    ensures PassedBy(h, bs[n := h.allocs[n].(streamId := s)], if s.None? then tk else tk + {s.value}, n + 1, client)
  {
    var cs := bs[n := h.allocs[n].(streamId := s)];
    AssignIsTurn(h.allocs[n], tk, client);
    assert cs[..n] == bs[..n];
    LiveIdsSnoc(cs, n);
    forall i | 0 <= i < n + 1 ensures InTurn(h, cs, i, client) {
      if i < n {
        InTurnStays(h, bs, i, n, cs[n], client);
      }
    }
  }

  lemma {:induction false} PassKeeps(h: Handler, bs: seq<Allocation>, tk: set<StreamId>, n: nat, client: bool)
    requires n < |bs| && PassedBy(h, bs, tk, n, client) && h.allocs[n].streamId.Some?
    ensures PassedBy(h, bs, tk, n + 1, client)
  {
    LiveIdsSnoc(bs, n);
    assert h.allocs[n].streamId.value in LiveIds(h.allocs);
  }

  lemma {:induction false} PassIsInTurn(h: Handler, client: bool, n: nat)
    requires n <= |h.allocs| && Allocate(h.allocs, LiveIds(h.allocs) + HeldIds(h), Base(client), n).Done?
    ensures var r := Allocate(h.allocs, LiveIds(h.allocs) + HeldIds(h), Base(client), n).value;
            PassedBy(h, r.0, r.1, n, client)
  {
    var taken := LiveIds(h.allocs) + HeldIds(h);
    if n == 0 {
      assert LiveIds(h.allocs[..0]) == {};
    } else {
      PassIsInTurn(h, client, n - 1);
      var r := Allocate(h.allocs, taken, Base(client), n - 1).value;
      var a := h.allocs[n - 1];
      if a.streamId.Some? {
        PassKeeps(h, r.0, r.1, n - 1, client);
      } else {
        var s := Assign(a, r.1, Base(client)).value;
        PassGives(h, r.0, r.1, n - 1, client, s);
        assert s.None? ==> r.0[n - 1 := a.(streamId := s)] == r.0;
      }
    }
  }

  /** Allocation gives every channel its id in turn, and leaves everything else alone. */
  lemma {:induction false} AllocationsInTurn(h: Handler, client: bool)
    requires DoAllocations(h, client).Done?
    ensures var h' := DoAllocations(h, client).value;
            AllInTurn(h, h'.allocs, client) && h' == h.(allocs := h'.allocs)
  {
    if NeedAllocation(h) {
      PassIsInTurn(h, client, |h.allocs|);
    } else {
      forall i | 0 <= i < |h.allocs| ensures InTurn(h, h.allocs, i, client) {
        assert !NeedsAllocation(h, h.allocs[i]);
      }
    }
  }

  lemma LiveIdsMono(bs: seq<Allocation>, i: nat, j: nat)
    requires i < j <= |bs|
    ensures LiveIds(bs[..i]) <= LiveIds(bs[..j])
    ensures bs[i].streamId.Some? ==> bs[i].streamId.value in LiveIds(bs[..j])
  {
    forall x | x in LiveIds(bs[..i]) ensures x in LiveIds(bs[..j]) {
      var k :| 0 <= k < i && bs[..i][k].streamId == Some(x);
      assert bs[..j][k].streamId == Some(x);
    }
    assert bs[..j][i] == bs[i];
  }

  /** Among the channels that get an automatic id, the one registered first gets the smallest. */
  lemma {:induction false} EarlierGetsSmaller(h: Handler, bs: seq<Allocation>, client: bool, i: nat, j: nat)
    requires AllInTurn(h, bs, client) && i < j < |bs|
    requires h.allocs[i].streamId.None? && h.allocs[i].negotiated.None?
    requires h.allocs[j].streamId.None? && h.allocs[j].negotiated.None?
    ensures bs[i].streamId.Some? && bs[j].streamId.Some? && bs[i].streamId.value < bs[j].streamId.value
  {
    assert InTurn(h, bs, i, client) && InTurn(h, bs, j, client);
    LiveIdsMono(bs, i, j);
    var x, y := bs[i].streamId.value, bs[j].streamId.value;
    assert y !in TakenBefore(h, bs, i) && x in TakenBefore(h, bs, j);
    FirstIsBelow(x, TakenBefore(h, bs, i), client, y);
  }

  lemma FirstIsBelow(x: StreamId, taken: set<StreamId>, client: bool, y: StreamId)
    requires IsFirstFree(x, taken, client) && y !in taken && y % 2 == Base(client)
    ensures x <= y
  {
  }

  // ---- Registering ----

  /**
   A channel can be registered exactly if it negotiates no id, or one that no channel has or has
   negotiated; whether the id is held back for a reset does not matter.
   */
  lemma {:induction false} RegistersIff(h: Handler, config: ChannelConfig)
    ensures NewChannel(h, config).Done? <==>
              config.negotiated.None? ||
              forall a :: a in h.allocs ==> a.streamId != config.negotiated && a.negotiated != config.negotiated
    ensures NewChannel(h, config).Done? ==>
              var (h', id) := NewChannel(h, config).value;
              && id == h.nextId && h'.nextId == id + 1 && h'.closed == h.closed
              && h'.allocs == h.allocs + [Allocation(id, None, config.negotiated, None)]
  {
    if config.negotiated.Some? && Named(h, config.negotiated.value) {
      var i :| 0 <= i < |h.allocs| && Names(h.allocs[i], config.negotiated.value);
      assert h.allocs[i] in h.allocs;
    }
    if config.negotiated.Some? && !Named(h, config.negotiated.value) {
      forall a | a in h.allocs ensures a.streamId != config.negotiated && a.negotiated != config.negotiated {
        var i :| 0 <= i < |h.allocs| && h.allocs[i] == a;
        assert !Names(h.allocs[i], config.negotiated.value);
      }
    }
  }

  /**
   A channel that negotiates the id of a closed one waits as long as the id is held, and gets it with
   the first timeout after that, unless a live channel or one before it has it.
   */
  lemma {:induction false} NegotiatedWaits(h: Handler, client: bool, i: nat)
    requires i < |h.allocs| && h.allocs[i].streamId.None? && h.allocs[i].negotiated.Some?
    requires HandleTimeout(h, true, client).Done?
    ensures var want, bs := h.allocs[i].negotiated.value, HandleTimeout(h, true, client).value.0.allocs;
            && |bs| == |h.allocs|
            && bs[i].streamId == if want in h.closed || Live(h.allocs, want) || Live(bs[..i], want) then None
                                 else Some(want)
  {
    AllocationsInTurn(h, client);
    var want, cs := h.allocs[i].negotiated.value, DoAllocations(h, client).value.allocs;
    var bs := HandleTimeout(h, true, client).value.0.allocs;
    assert InTurn(h, cs, i, client);
    LiveIff(h.allocs, want);
    LiveIff(cs[..i], want);
    LiveIff(bs[..i], want);
    assert forall k :: 0 <= k < i ==> bs[..i][k].streamId == cs[..i][k].streamId;
    assert Live(bs[..i], want) <==> Live(cs[..i], want) by {
      if Live(cs[..i], want) {
        var k :| 0 <= k < i && cs[..i][k].streamId == Some(want);
        assert bs[..i][k].streamId == Some(want);
      }
      if Live(bs[..i], want) {
        var k :| 0 <= k < i && bs[..i][k].streamId == Some(want);
        assert cs[..i][k].streamId == Some(want);
      }
    }
  }

  lemma LiveIff(allocs: seq<Allocation>, sid: StreamId)
    ensures Live(allocs, sid) <==> sid in LiveIds(allocs)
  {
  }
}
