/** The channel handler as an object, each call proved against its function on values. */
module ChannelHandling {
  import opened Prelude
  import opened Channels
  import opened ChannelRuns
  import T = ChannelTurns

  /** The part of the SCTP layer the handler talks to: its role, and the calls it receives. */
  class RtcSctp {
    const client: bool
    var inited: bool
    var opens: seq<Open>
    var closes: seq<StreamId>

    constructor (client: bool)
      ensures this.client == client && !inited && opens == [] && closes == []
    {
      this.client, inited, opens, closes := client, false, [], [];
    }

    method OpenStream(sid: StreamId, config: ChannelConfig)
      modifies `opens
      ensures opens == old(opens) + [Open(sid, config)]
    {
      opens := opens + [Open(sid, config)];
    }

    method CloseStream(sid: StreamId)
      modifies `closes
      ensures closes == old(closes) + [sid]
    {
      closes := closes + [sid];
    }
  }

  class ChannelHandler {
    var allocations: seq<Allocation>
    var nextChannelId: ChannelId
    var closedStreamIds: seq<StreamId>

    function View(): Handler
      reads this
    {
      Handler(allocations, nextChannelId, closedStreamIds)
    }

    constructor ()
      ensures View() == EMPTY
    {
      allocations, nextChannelId, closedStreamIds := [], 0, [];
    }

    /** Registers a channel; `ok` is false when its negotiated stream id is named already. */
    method NewChannel(config: ChannelConfig) returns (ok: bool, id: ChannelId)
      modifies this
      ensures ok <==> Channels.NewChannel(old(View()), config).Done?
      ensures ok ==> Channels.NewChannel(old(View()), config).value == (View(), id)
      ensures ok && WellFormed(old(View())) ==> WellFormed(View())
      ensures ok <==> config.negotiated.None? ||
                      forall a :: a in old(allocations) ==>
                        a.streamId != config.negotiated && a.negotiated != config.negotiated
      ensures ok ==> id == old(nextChannelId) && closedStreamIds == old(closedStreamIds)
    {
      T.RegistersIff(View(), config);
      id := nextChannelId;
      nextChannelId := nextChannelId + 1;
      if config.negotiated.Some? {
        var exists' := false;
        for i := 0 to |allocations|
          invariant exists' <==> (exists j :: 0 <= j < i && Names(allocations[j], config.negotiated.value))
        {
          if Names(allocations[i], config.negotiated.value) {
            exists' := true;
          }
        }
        if exists' {
          return false, id;
        }
      }
      allocations := allocations + [Allocation(id, None, config.negotiated, None)];
      ok := true;
      if WellFormed(old(View())) {
        StepKeepsWellFormed(old(View()), NewOp(config));
      }
    }

    method Confirm(id: ChannelId, config: ChannelConfig) returns (ok: bool)
      modifies this
      ensures ok <==> Channels.Confirm(old(View()), id, config).Done?
      ensures ok ==> View() == Channels.Confirm(old(View()), id, config).value
      ensures !ok ==> View() == old(View())
    {
      var i := FindChannel(id);
      ok := i.Some?;
      if ok {
        allocations := allocations[i.value := allocations[i.value].(config := Some(config))];
      }
    }

    method FindChannel(id: ChannelId) returns (r: Option<nat>)
      ensures r == IndexOf(allocations, id)
    {
      for i := 0 to |allocations|
        invariant forall j :: 0 <= j < i ==> allocations[j].id != id
      {
        if allocations[i].id == id {
          return Some(i);
        }
      }
      r := None;
    }

    method FindStream(sid: StreamId) returns (r: Option<nat>)
      ensures r == IndexOfStream(allocations, sid)
    {
      for i := 0 to |allocations|
        invariant forall j :: 0 <= j < i ==> allocations[j].streamId != Some(sid)
      {
        if allocations[i].streamId == Some(sid) {
          return Some(i);
        }
      }
      r := None;
    }

    method ChannelIdByStreamId(sid: StreamId) returns (r: Option<ChannelId>)
      ensures r == ChannelOf(View(), sid)
      ensures WellFormed(View()) ==> forall id: ChannelId :: r == Some(id) <==> StreamOf(View(), id) == Some(sid)
    {
      var i := FindStream(sid);
      r := if i.None? then None else Some(allocations[i.value].id);
      if WellFormed(View()) {
        forall id: ChannelId ensures r == Some(id) <==> StreamOf(View(), id) == Some(sid) {
          LookupsInverse(View(), id, sid);
        }
      }
    }

    method StreamIdByChannelId(id: ChannelId) returns (r: Option<StreamId>)
      ensures r == StreamOf(View(), id)
    {
      var i := FindChannel(id);
      r := if i.None? then None else allocations[i.value].streamId;
    }

    /** Gives stream ids to the channels that miss one; `ok` is false on u16 overflow. */
    method DoAllocations(sctp: RtcSctp) returns (ok: bool)
      modifies this
      ensures ok <==> Channels.DoAllocations(old(View()), sctp.client).Done?
      ensures ok ==> View() == Channels.DoAllocations(old(View()), sctp.client).value
      ensures ok ==> T.AllInTurn(old(View()), allocations, sctp.client) && closedStreamIds == old(closedStreamIds)
    {
      if Channels.DoAllocations(View(), sctp.client).Done? {
        T.AllocationsInTurn(View(), sctp.client);
      }
      ok := GiveIds(sctp);
    }

    // One pass over the channels, with the ids taken so far at hand.
    method GiveIds(sctp: RtcSctp) returns (ok: bool)
      modifies this
      ensures ok <==> Channels.DoAllocations(old(View()), sctp.client).Done?
      ensures ok ==> View() == Channels.DoAllocations(old(View()), sctp.client).value
    {
      if !NeedAllocation(View()) {
        return true;
      }
      var base: StreamId := if sctp.client then 0 else 1;
      var taken := TakenIds();
      ghost var as0, taken0 := allocations, IdSet(taken);
      for n := 0 to |allocations|
        invariant closedStreamIds == old(closedStreamIds) && nextChannelId == old(nextChannelId)
        invariant |allocations| == |as0| && forall i :: n <= i < |as0| ==> allocations[i] == as0[i]
        invariant Allocate(as0, taken0, base, n) == Done((allocations, IdSet(taken)))
      {
        if allocations[n].streamId.Some? {
          continue;
        }
        var given := IdFor(allocations[n], taken, base);
        if given.Panic? {
          AllocateStuck(as0, taken0, base, n + 1);
          return false;
        }
        if given.value.Some? {
          allocations := allocations[n := allocations[n].(streamId := given.value)];
          assert IdSet(taken + [given.value.value]) == IdSet(taken) + {given.value.value};
          taken := taken + [given.value.value];
        }
      }
      ok := true;
    }

    // The ids that are live or held.
    method TakenIds() returns (taken: seq<StreamId>)
      ensures IdSet(taken) == LiveIds(allocations) + IdSet(closedStreamIds)
    {
      taken := closedStreamIds;
      for i := 0 to |allocations|
        invariant forall s :: s in taken <==> s in IdSet(closedStreamIds) || s in LiveIds(allocations[..i])
      {
        TakeOne(allocations, i);
        if allocations[i].streamId.Some? {
          taken := taken + [allocations[i].streamId.value];
        }
      }
      assert allocations[..|allocations|] == allocations;
    }

    /** Opens every channel whose stream id and config are both known. */
    method OpenChannels(sctp: RtcSctp)
      modifies this, sctp
      ensures View() == old(View()).(allocs := OpenedAll(old(allocations)))
      ensures sctp.opens == old(sctp.opens) + OpenCalls(old(allocations), |old(allocations)|)
      ensures sctp.inited == old(sctp.inited) && sctp.closes == old(sctp.closes)
    {
      ghost var as0 := allocations;
      for n := 0 to |allocations|
        invariant closedStreamIds == old(closedStreamIds) && nextChannelId == old(nextChannelId)
        invariant sctp.inited == old(sctp.inited) && sctp.closes == old(sctp.closes)
        invariant |allocations| == |as0|
        invariant forall i :: 0 <= i < |as0| ==> allocations[i] == if i < n then Opened(as0[i]) else as0[i]
        invariant sctp.opens == old(sctp.opens) + OpenCalls(as0, n)
      {
        var a := allocations[n];
        if a.streamId.Some? && a.config.Some? {
          allocations := allocations[n := a.(config := None)];
          sctp.OpenStream(a.streamId.value, a.config.value);
        }
      }
      assert allocations == OpenedAll(as0);
    }

    method HandleTimeout(sctp: RtcSctp) returns (ok: bool)
      modifies this, sctp
      ensures ok <==> Channels.HandleTimeout(old(View()), old(sctp.inited), sctp.client).Done?
      ensures ok ==> var (h, calls) := Channels.HandleTimeout(old(View()), old(sctp.inited), sctp.client).value;
                     View() == h && sctp.opens == old(sctp.opens) + calls
      ensures sctp.inited == old(sctp.inited)
      ensures ok && WellFormed(old(View())) ==> WellFormed(View())
      ensures !sctp.inited ==> ok && View() == old(View()) && sctp.opens == old(sctp.opens)
    {
      if !sctp.inited {
        return true;
      }
      ok := DoAllocations(sctp);
      if !ok {
        return;
      }
      OpenChannels(sctp);
      if WellFormed(old(View())) {
        StepKeepsWellFormed(old(View()), TimeoutOp(true, sctp.client));
      }
    }

    method PollTimeout(sctp: RtcSctp) returns (now: bool)
      ensures now <==> WantsTimeout(View(), sctp.inited)
    {
      if !sctp.inited {
        return false;
      }
      for i := 0 to |allocations|
        invariant forall j :: 0 <= j < i ==> !NeedsAllocation(View(), allocations[j]) && !CanOpen(allocations[j])
      {
        var a := allocations[i];
        if a.streamId.None? && (a.negotiated.None? || a.negotiated.value !in closedStreamIds) {
          assert NeedsAllocation(View(), allocations[i]);
          return true;
        }
        if a.config.Some? && a.streamId.Some? {
          return true;
        }
      }
      now := false;
    }

    method EnsureChannelIdFor(sid: StreamId)
      modifies this
      ensures View() == Channels.EnsureChannelIdFor(old(View()), sid)
      ensures ChannelOf(View(), sid).Some?
      ensures WellFormed(old(View())) ==> WellFormed(View())
    {
      var i := FindStream(sid);
      if i.None? {
        allocations := allocations + [Allocation(nextChannelId, Some(sid), None, None)];
        nextChannelId := nextChannelId + 1;
        assert allocations[|allocations| - 1].streamId == Some(sid);
      }
      if WellFormed(old(View())) {
        StepKeepsWellFormed(old(View()), RemoteOpenOp(sid));
      }
    }

    method CloseChannel(id: ChannelId, sctp: RtcSctp)
      modifies sctp`closes
      ensures var sid := StreamOf(View(), id);
              sctp.closes == old(sctp.closes) + (if sid.Some? then [sid.value] else [])
    {
      var i := FindChannel(id);
      if i.Some? && allocations[i.value].streamId.Some? {
        sctp.CloseStream(allocations[i.value].streamId.value);
      }
    }

    /** One reset handshake of a held id has completed: drops one hold, if there is one. */
    method StreamResetComplete(sid: StreamId)
      modifies this
      ensures View() == Channels.StreamResetComplete(old(View()), sid)
      ensures multiset(closedStreamIds) == multiset(old(closedStreamIds)) - multiset{sid}
    {
      for i := 0 to |closedStreamIds|
        invariant View() == old(View())
        invariant sid !in closedStreamIds[..i]
      {
        if closedStreamIds[i] == sid {
          RemoveFirstAt(closedStreamIds, i);
          RemoveFirstCounts(closedStreamIds, sid);
          closedStreamIds := closedStreamIds[..i] + closedStreamIds[i + 1..];
          return;
        }
        assert closedStreamIds[..i + 1] == closedStreamIds[..i] + [closedStreamIds[i]];
      }
      assert closedStreamIds[..|closedStreamIds|] == closedStreamIds;
      RemoveFirstAbsent(closedStreamIds, sid);
      RemoveFirstCounts(closedStreamIds, sid);
    }

    /** Releases all holds, so that every channel still without an id can be given one. */
    method AssociationLost()
      modifies `closedStreamIds
      ensures View() == Channels.AssociationLost(old(View()))
      ensures NeedAllocation(View()) <==> exists i :: 0 <= i < |allocations| && allocations[i].streamId.None?
      ensures forall sid :: !HeldAndLive(View(), sid)
      ensures WellFormed(old(View())) ==> WellFormed(View())
    {
      closedStreamIds := [];
      if i :| 0 <= i < |allocations| && allocations[i].streamId.None? {
        assert NeedsAllocation(View(), allocations[i]);
      }
    }

    /** Removes a channel, holding its stream id back while a reset is pending. */
    method RemoveChannel(id: ChannelId, resetPending: bool)
      modifies this
      ensures View() == Channels.RemoveChannel(old(View()), id, resetPending)
      ensures WellFormed(old(View())) ==> WellFormed(View())
    {
      var sid := StreamIdByChannelId(id);
      if resetPending && sid.Some? {
        closedStreamIds := closedStreamIds + [sid.value];
      }
      allocations := Retain(allocations, id);
      assert View() == Channels.RemoveChannel(old(View()), id, resetPending);
      if WellFormed(old(View())) {
        RemoveKeepsWellFormed(old(View()), id, resetPending);
      }
    }
  }

  // The id a channel gets: the negotiated one if it is free, else the least free one.
  method IdFor(a: Allocation, taken: seq<StreamId>, base: StreamId) returns (r: Step<Option<StreamId>>)
    ensures r == Assign(a, IdSet(taken), base)
  {
    if a.negotiated.Some? {
      return Done(if a.negotiated.value in taken then None else a.negotiated);
    }
    var proposed: int := base;
    while proposed < 65536 && proposed in taken
      invariant 0 <= proposed
      invariant LeastFree(IdSet(taken), proposed) == LeastFree(IdSet(taken), base)
      decreases 65536 - proposed
    {
      proposed := proposed + 2;
    }
    r := if proposed >= 65536 then Panic else Done(Some(proposed));
  }

  method Retain(allocs: seq<Allocation>, id: ChannelId) returns (kept: seq<Allocation>)
    ensures kept == Without(allocs, id)
  {
    kept := [];
    for i := 0 to |allocs|
      invariant kept + Without(allocs[i..], id) == Without(allocs, id)
    {
      assert allocs[i..][1..] == allocs[i + 1..];
      if allocs[i].id != id {
        assert kept + ([allocs[i]] + Without(allocs[i + 1..], id)) == kept + [allocs[i]] + Without(allocs[i + 1..], id);
        kept := kept + [allocs[i]];
      }
    }
  }

  lemma TakeOne(allocs: seq<Allocation>, i: nat)
    requires i < |allocs|
    ensures LiveIds(allocs[..i + 1]) ==
            LiveIds(allocs[..i]) + (if allocs[i].streamId.Some? then {allocs[i].streamId.value} else {})
  {
    var xs, ys := allocs[..i], allocs[..i + 1];
    forall x ensures x in LiveIds(ys) <==>
                     x in LiveIds(xs) || (allocs[i].streamId.Some? && x == allocs[i].streamId.value)
    {
      if x in LiveIds(xs) {
        var j :| 0 <= j < |xs| && xs[j].streamId == Some(x);
        assert ys[j].streamId == Some(x);
      }
      if x in LiveIds(ys) {
        var j :| 0 <= j < |ys| && ys[j].streamId == Some(x);
        assert j < i ==> xs[j].streamId == Some(x);
      }
      if allocs[i].streamId == Some(x) {
        assert ys[i].streamId == Some(x);
      }
    }
  }

  lemma {:induction false} AllocateStuck(allocs: seq<Allocation>, taken: set<StreamId>, base: StreamId, n: nat)
    requires n <= |allocs| && Allocate(allocs, taken, base, n).Panic?
    ensures Allocate(allocs, taken, base, |allocs|).Panic?
    decreases |allocs| - n
  {
    if n < |allocs| {
      AllocateStuck(allocs, taken, base, n + 1);
    }
  }

  lemma {:induction false} RemoveFirstAbsent(s: seq<StreamId>, x: StreamId)
    requires x !in s
    ensures RemoveFirst(s, x) == s
  {
    if s != [] {
      RemoveFirstAbsent(s[1..], x);
    }
  }

  lemma {:induction false} RemoveFirstAt(s: seq<StreamId>, i: nat)
    requires i < |s| && forall j :: 0 <= j < i ==> s[j] != s[i]
    ensures RemoveFirst(s, s[i]) == s[..i] + s[i + 1..]
  {
    if i > 0 {
      RemoveFirstAt(s[1..], i - 1);
      assert s[1..][..i - 1] == s[1..i] && s[1..][i..] == s[i + 1..];
      assert [s[0]] + s[1..i] == s[..i];
    }
  }
}
