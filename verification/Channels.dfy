/**
 Data channel bookkeeping: which SCTP stream id belongs to which channel.

 A channel gets its stream id either from the id both peers agreed on out of band, or
 automatically once the DTLS role is known. The stream id of a closed channel is held
 back until its reset handshake completes. The functions here say what every call of
 the handler does to its state.
 */
module Channels {
  import opened Prelude

  // A u16. Automatic ids step by two from a base of 0 (client) or 1 (server).
  type StreamId = n: int | 0 <= n < 65536
  type ChannelId = nat

  datatype ChannelConfig = ChannelConfig(name: string, negotiated: Option<StreamId>)

  datatype Allocation = Allocation(
    id: ChannelId, streamId: Option<StreamId>, negotiated: Option<StreamId>, config: Option<ChannelConfig>)

  datatype Handler = Handler(allocs: seq<Allocation>, nextId: ChannelId, closed: seq<StreamId>)

  const EMPTY := Handler([], 0, [])

  // ---- Lookups ----

  function IndexOf(allocs: seq<Allocation>, id: ChannelId): (r: Option<nat>)
    ensures r.None? <==> forall i :: 0 <= i < |allocs| ==> allocs[i].id != id
    ensures r.Some? ==> r.value < |allocs| && allocs[r.value].id == id
    ensures r.Some? ==> forall j :: 0 <= j < r.value ==> allocs[j].id != id
  {
    if allocs == [] then None
    else if allocs[0].id == id then Some(0)
    else
      var r := IndexOf(allocs[1..], id);
      if r.None? then
        assert forall i :: 0 < i < |allocs| ==> allocs[i] == allocs[1..][i - 1];
        None
      else Some(r.value + 1)
  }

  function IndexOfStream(allocs: seq<Allocation>, sid: StreamId): (r: Option<nat>)
    ensures r.None? <==> forall i :: 0 <= i < |allocs| ==> allocs[i].streamId != Some(sid)
    ensures r.Some? ==> r.value < |allocs| && allocs[r.value].streamId == Some(sid)
    ensures r.Some? ==> forall j :: 0 <= j < r.value ==> allocs[j].streamId != Some(sid)
  {
    if allocs == [] then None
    else if allocs[0].streamId == Some(sid) then Some(0)
    else
      var r := IndexOfStream(allocs[1..], sid);
      if r.None? then
        assert forall i :: 0 < i < |allocs| ==> allocs[i] == allocs[1..][i - 1];
        None
      else Some(r.value + 1)
  }

  function ChannelOf(h: Handler, sid: StreamId): Option<ChannelId> {
    var i := IndexOfStream(h.allocs, sid);
    if i.None? then None else Some(h.allocs[i.value].id)
  }

  function StreamOf(h: Handler, id: ChannelId): Option<StreamId> {
    var i := IndexOf(h.allocs, id);
    if i.None? then None else h.allocs[i.value].streamId
  }

  // ---- Calls other than the timeout ----

  predicate Names(a: Allocation, sid: StreamId) {
    a.streamId == Some(sid) || a.negotiated == Some(sid)
  }

  predicate Named(h: Handler, sid: StreamId) {
    exists i :: 0 <= i < |h.allocs| && Names(h.allocs[i], sid)
  }

  function NewChannel(h: Handler, config: ChannelConfig): Step<(Handler, ChannelId)> {
    if config.negotiated.Some? && Named(h, config.negotiated.value) then Panic
    else Done((h.(allocs := h.allocs + [Allocation(h.nextId, None, config.negotiated, None)], nextId := h.nextId + 1),
               h.nextId))
  }

  function Confirm(h: Handler, id: ChannelId, config: ChannelConfig): Step<Handler> {
    var i := IndexOf(h.allocs, id);
    if i.None? then Panic
    else Done(h.(allocs := h.allocs[i.value := h.allocs[i.value].(config := Some(config))]))
  }

  function EnsureChannelIdFor(h: Handler, sid: StreamId): Handler {
    if IndexOfStream(h.allocs, sid).Some? then h
    else h.(allocs := h.allocs + [Allocation(h.nextId, Some(sid), None, None)], nextId := h.nextId + 1)
  }

  function RemoveFirst(s: seq<StreamId>, x: StreamId): seq<StreamId> {
    if s == [] then []
    else if s[0] == x then s[1..]
    else [s[0]] + RemoveFirst(s[1..], x)
  }

  lemma {:induction false} RemoveFirstCounts(s: seq<StreamId>, x: StreamId)
    ensures multiset(RemoveFirst(s, x)) == multiset(s) - multiset{x}
  {
    if s != [] {
      assert s == [s[0]] + s[1..];
      RemoveFirstCounts(s[1..], x);
    }
  }

  function StreamResetComplete(h: Handler, sid: StreamId): Handler {
    h.(closed := RemoveFirst(h.closed, sid))
  }

  function AssociationLost(h: Handler): Handler {
    h.(closed := [])
  }

  function Without(allocs: seq<Allocation>, id: ChannelId): seq<Allocation>
  {
    if allocs == [] then []
    else if allocs[0].id == id then Without(allocs[1..], id)
    else [allocs[0]] + Without(allocs[1..], id)
  }

  function RemoveChannel(h: Handler, id: ChannelId, resetPending: bool): Handler {
    var sid := StreamOf(h, id);
    Handler(Without(h.allocs, id), h.nextId, if resetPending && sid.Some? then h.closed + [sid.value] else h.closed)
  }

  // ---- The timeout: allocate missing stream ids, then open what can be opened ----

  predicate IsHeld(h: Handler, sid: StreamId) {
    sid in h.closed
  }

  predicate NeedsAllocation(h: Handler, a: Allocation) {
    a.streamId.None? && (a.negotiated.None? || !IsHeld(h, a.negotiated.value))
  }

  predicate NeedAllocation(h: Handler) {
    exists i :: 0 <= i < |h.allocs| && NeedsAllocation(h, h.allocs[i])
  }

  predicate NeedOpen(h: Handler) {
    exists i :: 0 <= i < |h.allocs| && h.allocs[i].config.Some? && h.allocs[i].streamId.Some?
  }

  predicate WantsTimeout(h: Handler, inited: bool) {
    inited && (NeedAllocation(h) || NeedOpen(h))
  }

  function LiveIds(allocs: seq<Allocation>): set<StreamId> {
    set i | 0 <= i < |allocs| && allocs[i].streamId.Some? :: allocs[i].streamId.value
  }

  function IdSet(s: seq<StreamId>): set<StreamId> {
    set sid | sid in s
  }

  function HeldIds(h: Handler): set<StreamId> {
    IdSet(h.closed)
  }

  function Base(client: bool): StreamId {
    if client then 0 else 1
  }

  /** The least free id of the parity of `from`, at or after `from`; None on u16 overflow. */
  function LeastFree(taken: set<StreamId>, from: int): (r: Option<StreamId>)
    requires 0 <= from
    ensures r.Some? ==> from <= r.value && (r.value - from) % 2 == 0 && r.value !in taken
    ensures r.Some? ==> forall y: StreamId :: from <= y < r.value && (y - from) % 2 == 0 ==> y in taken
    ensures r.None? ==> forall y: StreamId :: from <= y && (y - from) % 2 == 0 ==> y in taken
    decreases 65536 - from
  {
    if from >= 65536 then None
    else if from !in taken then Some(from)
    else LeastFree(taken, from + 2)
  }

  // The stream id an allocation gets, given the ids already taken; None: it has to wait.
  function Assign(a: Allocation, taken: set<StreamId>, base: StreamId): Step<Option<StreamId>> {
    if a.negotiated.Some? then
      Done(if a.negotiated.value in taken then None else a.negotiated)
    else
      var x := LeastFree(taken, base);
      if x.None? then Panic else Done(x)
  }

  function Allocate(allocs: seq<Allocation>, taken: set<StreamId>, base: StreamId, n: nat)
    : (r: Step<(seq<Allocation>, set<StreamId>)>)
    requires n <= |allocs|
    ensures r.Done? ==> |r.value.0| == |allocs|
    ensures r.Done? ==> forall i :: n <= i < |allocs| ==> r.value.0[i] == allocs[i]
  {
    if n == 0 then Done((allocs, taken)) else
      var (bs, tk) :- Allocate(allocs, taken, base, n - 1);
      var a := allocs[n - 1];
      if a.streamId.Some? then Done((bs, tk)) else
        var s :- Assign(a, tk, base);
        if s.None? then Done((bs, tk))
        else Done((bs[n - 1 := a.(streamId := s)], tk + {s.value}))
  }

  function DoAllocations(h: Handler, client: bool): Step<Handler> {
    if !NeedAllocation(h) then Done(h) else
      var (bs, _) :- Allocate(h.allocs, LiveIds(h.allocs) + HeldIds(h), Base(client), |h.allocs|);
      Done(h.(allocs := bs))
  }

  datatype Open = Open(sid: StreamId, config: ChannelConfig)

  predicate CanOpen(a: Allocation) {
    a.streamId.Some? && a.config.Some?
  }

  function Opened(a: Allocation): Allocation {
    if CanOpen(a) then a.(config := None) else a
  }

  // The calls into SCTP made for the first n allocations, in order.
  function OpenCalls(allocs: seq<Allocation>, n: nat): seq<Open>
    requires n <= |allocs|
  {
    if n == 0 then []
    else
      var a := allocs[n - 1];
      OpenCalls(allocs, n - 1) + (if CanOpen(a) then [Open(a.streamId.value, a.config.value)] else [])
  }

  function OpenedAll(allocs: seq<Allocation>): seq<Allocation> {
    seq(|allocs|, i requires 0 <= i < |allocs| => Opened(allocs[i]))
  }

  function HandleTimeout(h: Handler, inited: bool, client: bool): Step<(Handler, seq<Open>)> {
    if !inited then Done((h, [])) else
      var h1 :- DoAllocations(h, client);
      Done((h1.(allocs := OpenedAll(h1.allocs)), OpenCalls(h1.allocs, |h1.allocs|)))
  }
}
