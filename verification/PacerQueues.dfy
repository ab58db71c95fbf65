/** What a pacer sees of the send queues, and the searches it makes among them. */
module PacerQueues {
  import opened Prelude

  // Times are seconds since the beginning of time, sizes bytes, rates bits per second.
  type Time = real
  type Size = real
  type Rate = real

  datatype MidRid = MidRid(mid: string, rid: Option<string>)

  // Media sorts before padding, padding before an empty queue.
  datatype Priority = MediaPriority | PaddingPriority | EmptyPriority {
    function Ord(): int {
      match this
      case MediaPriority => 0
      case PaddingPriority => 1
      case EmptyPriority => 2
    }
  }

  datatype Snapshot = Snapshot(
    createdAt: Time, byteSize: nat, packetCount: nat, queueTimeOrigin: real,
    lastEmitted: Option<Time>, firstUnsent: Option<Time>, priority: Priority)

  datatype QueueState = QueueState(midrid: MidRid, unpaced: bool, useForPadding: bool, snapshot: Snapshot)

  datatype PaddingRequest = PaddingRequest(midrid: MidRid, padding: Size)

  /** Sort keys: a class, then a time, where having no time sorts first. */
  datatype Key = Key(rank: int, time: Option<Time>)

  predicate Less(a: Key, b: Key) {
    || a.rank < b.rank
    || (a.rank == b.rank && match (a.time, b.time)
                            case (_, None) => false
                            case (None, Some(_)) => true
                            case (Some(x), Some(y)) => x < y)
  }

  /** Index i has the least key among the first n queues, and is the first such. */
  ghost predicate IsFirstMin(keys: seq<Option<Key>>, n: int, i: int) {
    && 0 <= i < n <= |keys| && keys[i].Some?
    && (forall j :: 0 <= j < n && keys[j].Some? ==> !Less(keys[j].value, keys[i].value))
    && (forall j :: 0 <= j < i && keys[j].Some? ==> Less(keys[i].value, keys[j].value))
  }

  /** Index i has the greatest key among the first n queues, and is the last such. */
  ghost predicate IsLastMax(keys: seq<Option<Key>>, n: int, i: int) {
    && 0 <= i < n <= |keys| && keys[i].Some?
    && (forall j :: 0 <= j < n && keys[j].Some? ==> !Less(keys[i].value, keys[j].value))
    && (forall j :: i < j < n && keys[j].Some? ==> Less(keys[j].value, keys[i].value))
  }

  function FirstMin(keys: seq<Option<Key>>, n: nat): (r: Option<nat>)
    requires n <= |keys|
    ensures r.None? <==> forall i :: 0 <= i < n ==> keys[i].None?
    ensures r.Some? ==> IsFirstMin(keys, n, r.value)
  {
    if n == 0 then None else
      var rest := FirstMin(keys, n - 1);
      if keys[n - 1].None? || (rest.Some? && !Less(keys[n - 1].value, keys[rest.value].value)) then rest
      else Some(n - 1)
  }

  function LastMax(keys: seq<Option<Key>>, n: nat): (r: Option<nat>)
    requires n <= |keys|
    ensures r.None? <==> forall i :: 0 <= i < n ==> keys[i].None?
    ensures r.Some? ==> IsLastMax(keys, n, r.value)
  {
    if n == 0 then None else
      var rest := LastMax(keys, n - 1);
      if keys[n - 1].None? || (rest.Some? && Less(keys[n - 1].value, keys[rest.value].value)) then rest
      else Some(n - 1)
  }

  method FindFirstMin(keys: seq<Option<Key>>) returns (r: Option<nat>)
    ensures r == FirstMin(keys, |keys|)
  {
    r := None;
    for n := 0 to |keys|
      invariant r == FirstMin(keys, n)
    {
      if keys[n].Some? && (r.None? || Less(keys[n].value, keys[r.value].value)) {
        r := Some(n);
      }
    }
  }

  method FindLastMax(keys: seq<Option<Key>>) returns (r: Option<nat>)
    ensures r == LastMax(keys, |keys|)
  {
    r := None;
    for n := 0 to |keys|
      invariant r == LastMax(keys, n)
    {
      if keys[n].Some? && (r.None? || !Less(keys[n].value, keys[r.value].value)) {
        r := Some(n);
      }
    }
  }

  // ---- The keys the pacers use ----

  // Waiting packets of unpaced queues, oldest first.
  function UnpacedKeys(qs: seq<QueueState>): (ks: seq<Option<Key>>)
    ensures |ks| == |qs|
  {
    seq(|qs|, i requires 0 <= i < |qs| =>
      if qs[i].unpaced && qs[i].snapshot.firstUnsent.Some? then Some(Key(0, qs[i].snapshot.firstUnsent)) else None)
  }

  // Non-empty queues by priority, then least recently sent on.
  function MediaKeys(qs: seq<QueueState>): (ks: seq<Option<Key>>)
    ensures |ks| == |qs|
  {
    seq(|qs|, i requires 0 <= i < |qs| =>
      if qs[i].snapshot.packetCount > 0
      then Some(Key(qs[i].snapshot.priority.Ord(), qs[i].snapshot.lastEmitted)) else None)
  }

  // Queues that can carry padding, by when they last sent.
  function PaddingKeys(qs: seq<QueueState>): (ks: seq<Option<Key>>)
    ensures |ks| == |qs|
  {
    seq(|qs|, i requires 0 <= i < |qs| =>
      if qs[i].useForPadding then Some(Key(0, qs[i].snapshot.lastEmitted)) else None)
  }

  predicate AllEmpty(qs: seq<QueueState>) {
    forall i :: 0 <= i < |qs| ==> qs[i].snapshot.packetCount == 0
  }

  predicate HasPaddingQueue(qs: seq<QueueState>) {
    exists i :: 0 <= i < |qs| && qs[i].useForPadding
  }

  // The first non-empty queue.
  function FirstNonEmpty(qs: seq<QueueState>, n: nat): (r: Option<nat>)
    requires n <= |qs|
    ensures r.None? <==> forall i :: 0 <= i < n ==> qs[i].snapshot.packetCount == 0
    ensures r.Some? ==> r.value < n && qs[r.value].snapshot.packetCount > 0
    ensures r.Some? ==> forall j :: 0 <= j < r.value ==> qs[j].snapshot.packetCount == 0
  {
    if n == 0 then None else
      var rest := FirstNonEmpty(qs, n - 1);
      if rest.Some? then rest
      else if qs[n - 1].snapshot.packetCount > 0 then Some(n - 1) else None
  }
}
