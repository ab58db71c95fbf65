/**
 What becomes of a confirmed channel config: it is opened exactly once on the stream of
 its channel, or it still waits, or it left together with its channel.
 */
module ChannelOpens {
  import opened Prelude
  import opened Channels
  import opened ChannelRuns

  // A channel and a config given for it; everything below counts the copies of one pair.
  type Pair = (ChannelId, ChannelConfig)

  function One(a: Allocation, p: Pair): nat {
    if a.id == p.0 && a.config == Some(p.1) then 1 else 0
  }

  // How many allocations hold the pair, not yet handed to SCTP.
  function Waiting(allocs: seq<Allocation>, p: Pair): nat {
    if allocs == [] then 0
    else Waiting(allocs[..|allocs| - 1], p) + One(allocs[|allocs| - 1], p)
  }

  lemma {:induction false} WaitingConcat(xs: seq<Allocation>, ys: seq<Allocation>, p: Pair)
    ensures Waiting(xs + ys, p) == Waiting(xs, p) + Waiting(ys, p)
  {
    if ys == [] {
      assert xs + ys == xs;
    } else {
      var n := |ys| - 1;
      WaitingConcat(xs, ys[..n], p);
      assert (xs + ys)[..|xs + ys| - 1] == xs + ys[..n];
    }
  }

  lemma WaitingSnoc(xs: seq<Allocation>, a: Allocation, p: Pair)
    ensures Waiting(xs + [a], p) == Waiting(xs, p) + One(a, p)
  {
    assert (xs + [a])[..|xs|] == xs;
  }

  lemma {:induction false} WaitingSplit(xs: seq<Allocation>, k: nat, p: Pair)
    requires k < |xs|
    ensures Waiting(xs, p) == Waiting(xs[..k] + xs[k + 1..], p) + One(xs[k], p)
  {
    var front, back := xs[..k], xs[k + 1..];
    WaitingConcat(front, back, p);
    WaitingSnoc(front, xs[k], p);
    WaitingConcat(front + [xs[k]], back, p);
    assert xs == front + [xs[k]] + back;
  }

  lemma {:induction false} WaitingUpdate(xs: seq<Allocation>, k: nat, a: Allocation, p: Pair)
    requires k < |xs|
    ensures Waiting(xs[k := a], p) + One(xs[k], p) == Waiting(xs, p) + One(a, p)
  {
    WaitingSplit(xs, k, p);
    WaitingSplit(xs[k := a], k, p);
    assert xs[k := a][..k] + xs[k := a][k + 1..] == xs[..k] + xs[k + 1..];
  }

  // Allocating stream ids does not touch configs.
  lemma {:induction false} WaitingSame(xs: seq<Allocation>, ys: seq<Allocation>, p: Pair)
    requires |xs| == |ys|
    requires forall i :: 0 <= i < |xs| ==> xs[i].id == ys[i].id && xs[i].config == ys[i].config
    ensures Waiting(xs, p) == Waiting(ys, p)
  {
    if xs != [] {
      WaitingSame(xs[..|xs| - 1], ys[..|ys| - 1], p);
    }
  }

  /** The channel and config of every call into SCTP, in the order of the calls. */
  function OpenedPairs(allocs: seq<Allocation>, n: nat): seq<Pair>
    requires n <= |allocs|
  {
    if n == 0 then [] else
      var a := allocs[n - 1];
      OpenedPairs(allocs, n - 1) + (if CanOpen(a) then [(a.id, a.config.value)] else [])
  }

  ghost predicate HasStream(allocs: seq<Allocation>, id: ChannelId, sid: StreamId) {
    exists i :: 0 <= i < |allocs| && allocs[i].id == id && allocs[i].streamId == Some(sid)
  }

  /** Each call into SCTP opens the stream id of its own channel, with that channel's config. */
  lemma {:induction false} OpenCallsMatch(allocs: seq<Allocation>, n: nat)
    requires n <= |allocs|
    ensures |OpenCalls(allocs, n)| == |OpenedPairs(allocs, n)|
    ensures forall k :: 0 <= k < |OpenCalls(allocs, n)| ==>
              && OpenCalls(allocs, n)[k].config == OpenedPairs(allocs, n)[k].1
              && HasStream(allocs, OpenedPairs(allocs, n)[k].0, OpenCalls(allocs, n)[k].sid)
  {
    if n > 0 {
      OpenCallsMatch(allocs, n - 1);
      var a := allocs[n - 1];
      if CanOpen(a) {
        assert HasStream(allocs, a.id, a.streamId.value);
      }
    }
  }

  function Occurrences(ps: seq<Pair>, p: Pair): nat {
    if ps == [] then 0 else Occurrences(ps[..|ps| - 1], p) + (if ps[|ps| - 1] == p then 1 else 0)
  }

  // The calls into SCTP made for the pair among the first n allocations.
  function OpenedFor(allocs: seq<Allocation>, n: nat, p: Pair): nat
    requires n <= |allocs|
  {
    if n == 0 then 0
    else OpenedFor(allocs, n - 1, p) + if CanOpen(allocs[n - 1]) then One(allocs[n - 1], p) else 0
  }

  lemma {:induction false} OpenedForCounts(allocs: seq<Allocation>, n: nat, p: Pair)
    requires n <= |allocs|
    ensures OpenedFor(allocs, n, p) == Occurrences(OpenedPairs(allocs, n), p)
  {
    if n > 0 {
      OpenedForCounts(allocs, n - 1, p);
      var ps, a := OpenedPairs(allocs, n - 1), allocs[n - 1];
      if CanOpen(a) {
        assert (ps + [(a.id, a.config.value)])[..|ps|] == ps;
      } else {
        assert ps + [] == ps;
      }
    }
  }

  // Opening one allocation takes its config out of waiting.
  lemma OpenedOne(a: Allocation, p: Pair)
    ensures One(a, p) == One(Opened(a), p) + if CanOpen(a) then One(a, p) else 0
  {
  }

  lemma {:induction false} OpeningMoves(allocs: seq<Allocation>, bs: seq<Allocation>, n: nat, p: Pair)
    requires n <= |allocs| == |bs| && forall i :: 0 <= i < |bs| ==> bs[i] == Opened(allocs[i])
    ensures Waiting(allocs[..n], p) == Waiting(bs[..n], p) + OpenedFor(allocs, n, p)
  {
    if n == 0 {
      assert allocs[..n] == [] && bs[..n] == [];
    } else {
      OpeningMoves(allocs, bs, n - 1, p);
      assert allocs[..n] == allocs[..n - 1] + [allocs[n - 1]] && bs[..n] == bs[..n - 1] + [bs[n - 1]];
      WaitingSnoc(allocs[..n - 1], allocs[n - 1], p);
      WaitingSnoc(bs[..n - 1], bs[n - 1], p);
      OpenedOne(allocs[n - 1], p);
    }
  }

  // ---- The tally of a run ----

  /** How often the pair was confirmed, opened, removed with its channel, or replaced. */
  datatype Tally = Tally(confirmed: nat, started: nat, left: nat, replaced: nat)

  ghost function Counted(h: Handler, op: Op, p: Pair, t: Tally): Tally
    requires Exec(h, op).Done?
  {
    match op
    case ConfirmOp(id, c) =>
      t.(confirmed := t.confirmed + (if p == (id, c) then 1 else 0),
         replaced := t.replaced + One(h.allocs[IndexOf(h.allocs, id).value], p))
    case TimeoutOp(inited, client) =>
      if !inited then t else
        var bs := DoAllocations(h, client).value.allocs;
        t.(started := t.started + OpenedFor(bs, |bs|, p))
    case RemoveOp(id, _) =>
      var k := IndexOf(h.allocs, id);
      if k.None? then t else t.(left := t.left + One(h.allocs[k.value], p))
    case _ => t
  }

  ghost function TallyOf(ops: seq<Op>, p: Pair): Tally
    requires Run(ops).Done?
  {
    if ops == [] then Tally(0, 0, 0, 0)
    else Counted(Run(ops[..|ops| - 1]).value, ops[|ops| - 1], p, TallyOf(ops[..|ops| - 1], p))
  }

  ghost predicate Balanced(h: Handler, p: Pair, t: Tally) {
    t.confirmed == t.started + t.left + t.replaced + Waiting(h.allocs, p)
  }

  // A timeout only moves configs from waiting to started.
  lemma {:induction false} TimeoutMoves(h: Handler, client: bool, p: Pair)
    requires WellFormed(h) && HandleTimeout(h, true, client).Done?
    ensures var bs := DoAllocations(h, client).value.allocs;
            Waiting(h.allocs, p) == Waiting(HandleTimeout(h, true, client).value.0.allocs, p) + OpenedFor(bs, |bs|, p)
  {
    AllocationsResult(h, client);
    var bs := DoAllocations(h, client).value.allocs;
    forall i | 0 <= i < |bs| ensures bs[i].id == h.allocs[i].id && bs[i].config == h.allocs[i].config {
      assert Assigned(h.allocs[i], bs[i], LiveIds(h.allocs) + HeldIds(h), LiveIds(bs) + HeldIds(h), Base(client));
    }
    WaitingSame(h.allocs, bs, p);
    OpeningMoves(bs, OpenedAll(bs), |bs|, p);
    assert bs[..|bs|] == bs && OpenedAll(bs)[..|bs|] == OpenedAll(bs);
  }

  // Removing a channel only moves its config from waiting to left.
  lemma {:induction false} RemoveMoves(h: Handler, id: ChannelId, p: Pair)
    requires WellFormed(h)
    ensures var k := IndexOf(h.allocs, id);
            Waiting(h.allocs, p)
              == Waiting(Without(h.allocs, id), p) + if k.None? then 0 else One(h.allocs[k.value], p)
  {
    var k := IndexOf(h.allocs, id);
    if k.None? {
      WithoutAbsent(h.allocs, id);
    } else {
      WithoutAt(h.allocs, k.value);
      WaitingSplit(h.allocs, k.value, p);
    }
  }

  // A channel without config adds nothing to wait for.
  lemma NewKeepsWaiting(h: Handler, op: Op, p: Pair)
    requires (op.NewOp? || op.RemoteOpenOp?) && Exec(h, op).Done?
    ensures Waiting(Exec(h, op).value.allocs, p) == Waiting(h.allocs, p)
  {
    if op.NewOp? {
      WaitingSnoc(h.allocs, Allocation(h.nextId, None, op.newConfig.negotiated, None), p);
    } else {
      WaitingSnoc(h.allocs, Allocation(h.nextId, Some(op.sid), None, None), p);
    }
  }

  // A config confirmed takes the place of the one before.
  lemma ConfirmMoves(h: Handler, id: ChannelId, c: ChannelConfig, p: Pair)
    requires Confirm(h, id, c).Done?
    ensures Waiting(Confirm(h, id, c).value.allocs, p) + One(h.allocs[IndexOf(h.allocs, id).value], p)
              == Waiting(h.allocs, p) + if p == (id, c) then 1 else 0
  {
    var k := IndexOf(h.allocs, id).value;
    WaitingUpdate(h.allocs, k, h.allocs[k].(config := Some(c)), p);
  }

  lemma {:induction false} StepBalances(h: Handler, op: Op, p: Pair, t: Tally)
    requires WellFormed(h) && Exec(h, op).Done? && Balanced(h, p, t)
    ensures Balanced(Exec(h, op).value, p, Counted(h, op, p, t))
  {
    match op
    case NewOp(_) => NewKeepsWaiting(h, op, p);
    case RemoteOpenOp(_) => NewKeepsWaiting(h, op, p);
    case ConfirmOp(id, c) => ConfirmMoves(h, id, c, p);
    case TimeoutOp(inited, client) =>
      if inited {
        TimeoutMoves(h, client, p);
      }
    case RemoveOp(id, _) =>
      RemoveMoves(h, id, p);
    case _ =>
  }

  /** Conservation of configs: over every run nothing confirmed is lost or opened twice. */
  lemma {:induction false} ConfigsConserved(ops: seq<Op>, p: Pair)
    requires Run(ops).Done?
    ensures Balanced(Run(ops).value, p, TallyOf(ops, p))
  {
    if ops != [] {
      var n := |ops| - 1;
      ConfigsConserved(ops[..n], p);
      RunWellFormed(ops[..n]);
      StepBalances(Run(ops[..n]).value, ops[n], p, TallyOf(ops[..n], p));
    }
  }

  // ---- When every channel is confirmed at most once ----

  ghost predicate ConfirmsOnce(ops: seq<Op>) {
    forall i, j :: 0 <= i < j < |ops| && ops[i].ConfirmOp? && ops[j].ConfirmOp? ==> ops[i].id != ops[j].id
  }

  ghost predicate Confirms(ops: seq<Op>, p: Pair) {
    exists i :: 0 <= i < |ops| && ops[i] == ConfirmOp(p.0, p.1)
  }

  lemma {:induction false} ConfirmedIffOp(ops: seq<Op>, p: Pair)
    requires Run(ops).Done? && ConfirmsOnce(ops)
    ensures TallyOf(ops, p).confirmed == if Confirms(ops, p) then 1 else 0
  {
    if ops != [] {
      var n := |ops| - 1;
      ConfirmedIffOp(ops[..n], p);
      if Confirms(ops[..n], p) {
        var i :| 0 <= i < n && ops[..n][i] == ConfirmOp(p.0, p.1);
        assert ops[i] == ConfirmOp(p.0, p.1);
      }
      if ops[n] != ConfirmOp(p.0, p.1) && Confirms(ops, p) {
        var i :| 0 <= i < |ops| && ops[i] == ConfirmOp(p.0, p.1);
        assert ops[..n][i] == ConfirmOp(p.0, p.1);
      }
    }
  }

  lemma {:induction false} NothingReplaced(ops: seq<Op>, p: Pair)
    requires Run(ops).Done? && ConfirmsOnce(ops)
    ensures TallyOf(ops, p).replaced == 0
  {
    if ops != [] {
      var n := |ops| - 1;
      NothingReplaced(ops[..n], p);
      if ops[n].ConfirmOp? {
        var h := Run(ops[..n]).value;
        var k := IndexOf(h.allocs, ops[n].id).value;
        ConfigsConserved(ops[..n], p);
        WaitingSplit(h.allocs, k, p);
        ConfirmedIffOp(ops[..n], p);
      }
    }
  }

  /**
   If every channel is confirmed at most once, each confirmed config is in exactly one
   place: opened once, waiting, or gone with its channel; and nothing else is opened.
   */
  lemma {:induction false} EachConfigInOnePlace(ops: seq<Op>, p: Pair)
    requires Run(ops).Done? && ConfirmsOnce(ops)
    ensures TallyOf(ops, p).started + Waiting(Run(ops).value.allocs, p) + TallyOf(ops, p).left
              == if Confirms(ops, p) then 1 else 0
  {
    ConfigsConserved(ops, p);
    ConfirmedIffOp(ops, p);
    NothingReplaced(ops, p);
  }
}
