/**
 The pacer that does not pace: it serves the non-empty queues round robin, by sending on
 the one whose last send is longest ago.
 */
module NullPacing {
  import opened Prelude
  import opened PacerQueues

  type Sends = map<MidRid, Time>

  function LastSend(sends: Sends, m: MidRid): Option<Time> {
    if m in sends then Some(sends[m]) else None
  }

  // Non-empty queues by the time of the last send, never served ones first.
  function SendKeys(qs: seq<QueueState>, sends: Sends): (ks: seq<Option<Key>>)
    ensures |ks| == |qs|
    ensures forall i :: 0 <= i < |qs| ==>
              ks[i] == if qs[i].snapshot.packetCount > 0 then Some(Key(0, LastSend(sends, qs[i].midrid))) else None
  {
    seq(|qs|, i requires 0 <= i < |qs| =>
      if qs[i].snapshot.packetCount > 0 then Some(Key(0, LastSend(sends, qs[i].midrid))) else None)
  }

  function Choice(qs: seq<QueueState>, sends: Sends): Option<MidRid> {
    var k := FirstMin(SendKeys(qs, sends), |qs|);
    if k.None? then None else Some(qs[k.value].midrid)
  }

  // Never served, or served before the other one was.
  predicate ServedBefore(sends: Sends, a: MidRid, b: MidRid) {
    b in sends && (a !in sends || sends[a] < sends[b])
  }

  /** Queue i is the non-empty one that has not been served for longest; among equals it is the first. */
  ghost predicate LongestUnserved(qs: seq<QueueState>, sends: Sends, i: int) {
    && 0 <= i < |qs| && qs[i].snapshot.packetCount > 0
    && forall j :: 0 <= j < |qs| && qs[j].snapshot.packetCount > 0 ==>
         && !ServedBefore(sends, qs[j].midrid, qs[i].midrid)
         && (j < i ==> ServedBefore(sends, qs[i].midrid, qs[j].midrid))
  }

  ghost predicate IsChoice(qs: seq<QueueState>, sends: Sends, r: Option<MidRid>) {
    if r.None? then AllEmpty(qs) else exists i :: LongestUnserved(qs, sends, i) && qs[i].midrid == r.value
  }

  lemma {:induction false} ChoiceIs(qs: seq<QueueState>, sends: Sends)
    ensures IsChoice(qs, sends, Choice(qs, sends))
  {
    var ks, k := SendKeys(qs, sends), FirstMin(SendKeys(qs, sends), |qs|);
    if k.Some? {
      forall j | 0 <= j < |qs| && qs[j].snapshot.packetCount > 0
        ensures !ServedBefore(sends, qs[j].midrid, qs[k.value].midrid)
        ensures j < k.value ==> ServedBefore(sends, qs[k.value].midrid, qs[j].midrid)
      {
        assert ks[j].Some?;
      }
      assert LongestUnserved(qs, sends, k.value);
    } else {
      forall i | 0 <= i < |qs| ensures qs[i].snapshot.packetCount == 0 {
        assert ks[i].None?;
      }
    }
  }

  // ---- Fairness ----

  /** One round: fresh snapshots, a poll, and the send at a given time. */
  datatype Round = Round(queues: seq<QueueState>, at: Time)

  function AfterRound(sends: Sends, r: Round): Sends {
    var c := Choice(r.queues, sends);
    if c.None? then sends else sends[c.value := r.at]
  }

  function SendsBefore(sends: Sends, rounds: seq<Round>, n: nat): Sends
    requires n <= |rounds|
  {
    if n == 0 then sends else AfterRound(SendsBefore(sends, rounds, n - 1), rounds[n - 1])
  }

  /** The queues keep their identities, and the one at index k always has a packet. */
  ghost predicate Steady(ids: seq<MidRid>, k: int, qs: seq<QueueState>) {
    && 0 <= k < |ids| == |qs|
    && (forall i :: 0 <= i < |ids| ==> qs[i].midrid == ids[i])
    && qs[k].snapshot.packetCount > 0
  }

  ghost predicate Distinct(ids: seq<MidRid>) {
    forall i, j :: 0 <= i < j < |ids| ==> ids[i] != ids[j]
  }

  // Every send so far was before t.
  ghost predicate AllBefore(sends: Sends, t: Time) {
    forall m :: m in sends ==> sends[m] < t
  }

  ghost predicate TimesIncrease(sends: Sends, rounds: seq<Round>) {
    && (forall i :: 0 <= i < |rounds| ==> AllBefore(sends, rounds[i].at))
    && (forall i, j :: 0 <= i < j < |rounds| ==> rounds[i].at < rounds[j].at)
  }

  // The other queues that were not served after queue k: those that may go first.
  ghost function Ahead(sends: Sends, ids: seq<MidRid>, k: int): (s: set<int>)
    requires 0 <= k < |ids|
  {
    set i | 0 <= i < |ids| && i != k && !Less(Key(0, LastSend(sends, ids[k])), Key(0, LastSend(sends, ids[i])))
  }

  lemma AheadIsSmall(sends: Sends, ids: seq<MidRid>, k: int)
    requires 0 <= k < |ids|
    ensures |Ahead(sends, ids, k)| < |ids|
  {
    SubsetSize(Ahead(sends, ids, k), Below(|ids|) - {k});
  }

  /** Serving another queue than k takes that queue out of those ahead, and adds none. */
  lemma {:induction false} AheadShrinks(sends: Sends, ids: seq<MidRid>, k: int, r: Round)
    requires Distinct(ids) && Steady(ids, k, r.queues) && AllBefore(sends, r.at)
    ensures Choice(r.queues, sends).Some?
    ensures Choice(r.queues, sends) != Some(ids[k]) ==>
              Ahead(AfterRound(sends, r), ids, k) < Ahead(sends, ids, k)
  {
    var keys := SendKeys(r.queues, sends);
    assert keys[k].Some?;
    var c := FirstMin(keys, |r.queues|).value;
    assert IsFirstMin(keys, |r.queues|, c);
    if ids[c] != ids[k] {
      assert c in Ahead(sends, ids, k);
      var sends' := AfterRound(sends, r);
      assert sends' == sends[ids[c] := r.at];
      assert c !in Ahead(sends', ids, k);
      forall i | i in Ahead(sends', ids, k) ensures i in Ahead(sends, ids, k) {
        assert ids[i] != ids[c];
      }
    }
  }

  /** Fairness: a queue that stays non-empty is chosen within as many polls as there are queues. */
  lemma {:induction false} ServedInTime(sends: Sends, ids: seq<MidRid>, k: int, rounds: seq<Round>)
    requires Distinct(ids) && 0 <= k < |ids| && |rounds| > |Ahead(sends, ids, k)|
    requires TimesIncrease(sends, rounds)
    requires forall i :: 0 <= i < |rounds| ==> Steady(ids, k, rounds[i].queues)
    ensures exists n :: 0 <= n <= |Ahead(sends, ids, k)| && n < |rounds| &&
              Choice(rounds[n].queues, SendsBefore(sends, rounds, n)) == Some(ids[k])
    decreases |rounds|
  {
    AheadShrinks(sends, ids, k, rounds[0]);
    if Choice(rounds[0].queues, sends) == Some(ids[k]) {
      assert SendsBefore(sends, rounds, 0) == sends;
    } else {
      var sends', rest := AfterRound(sends, rounds[0]), rounds[1..];
      ProperSubsetSize(Ahead(sends', ids, k), Ahead(sends, ids, k));
      assert TimesIncrease(sends', rest);
      ServedInTime(sends', ids, k, rest);
      var n :| 0 <= n <= |Ahead(sends', ids, k)| && n < |rest| &&
               Choice(rest[n].queues, SendsBefore(sends', rest, n)) == Some(ids[k]);
      SendsShift(sends, rounds, n);
      assert rest[n] == rounds[n + 1];
    }
  }

  lemma ProperSubsetSize(a: set<int>, b: set<int>)
    requires a < b
    ensures |a| < |b|
  {
    assert b == a + (b - a) && |b - a| > 0;
  }

  lemma {:induction false} SendsShift(sends: Sends, rounds: seq<Round>, n: nat)
    requires n < |rounds|
    ensures SendsBefore(AfterRound(sends, rounds[0]), rounds[1..], n) == SendsBefore(sends, rounds, n + 1)
  {
    if n > 0 {
      SendsShift(sends, rounds, n - 1);
    } else {
      assert SendsBefore(sends, rounds, 0) == sends;
    }
  }

  lemma {:induction false} Fairness(sends: Sends, ids: seq<MidRid>, k: int, rounds: seq<Round>)
    requires Distinct(ids) && 0 <= k < |ids| == |rounds|
    requires TimesIncrease(sends, rounds)
    requires forall i :: 0 <= i < |rounds| ==> Steady(ids, k, rounds[i].queues)
    ensures exists n :: 0 <= n < |rounds| && Choice(rounds[n].queues, SendsBefore(sends, rounds, n)) == Some(ids[k])
  {
    AheadIsSmall(sends, ids, k);
    ServedInTime(sends, ids, k, rounds);
  }

  // ---- The pacer as an object ----

  class NullPacer {
    var lastSends: Sends
    var queueStates: seq<QueueState>
    var needsTimeoutBeforeNextPoll: bool

    constructor ()
      ensures lastSends == map[] && queueStates == [] && needsTimeoutBeforeNextPoll
    {
      lastSends, queueStates, needsTimeoutBeforeNextPoll := map[], [], true;
    }

    method HandleTimeout(queues: seq<QueueState>)
      modifies this
      ensures queueStates == queues && !needsTimeoutBeforeNextPoll && lastSends == old(lastSends)
    {
      needsTimeoutBeforeNextPoll := false;
      queueStates := queues;
    }

    /** A timeout is asked for after a poll, at the earliest of the last sends. */
    method PollTimeout() returns (t: Option<Time>)
      ensures t.Some? <==> needsTimeoutBeforeNextPoll && lastSends != map[]
      ensures t.Some? ==> t.value in lastSends.Values && forall m :: m in lastSends ==> t.value <= lastSends[m]
    {
      t := None;
      if !needsTimeoutBeforeNextPoll {
        return;
      }
      var rest := lastSends.Keys;
      while rest != {}
        invariant rest <= lastSends.Keys
        invariant t.None? <==> rest == lastSends.Keys
        invariant t.Some? ==> t.value in lastSends.Values
        invariant t.Some? ==> forall m :: m in lastSends && m !in rest ==> t.value <= lastSends[m]
        decreases rest
      {
        var m :| m in rest;
        rest := rest - {m};
        if t.None? || lastSends[m] < t.value {
          t := Some(lastSends[m]);
        }
      }
      assert t.None? ==> lastSends == map[];
    }

    /** Serves the non-empty queue that has waited longest for it. */
    method PollQueue() returns (r: Option<MidRid>)
      modifies `needsTimeoutBeforeNextPoll
      ensures r == Choice(queueStates, lastSends) && IsChoice(queueStates, lastSends, r)
      ensures needsTimeoutBeforeNextPoll == (old(needsTimeoutBeforeNextPoll) || r.Some?)
    {
      ChoiceIs(queueStates, lastSends);
      var k := FindFirstMin(SendKeys(queueStates, lastSends));
      r := if k.None? then None else Some(queueStates[k.value].midrid);
      if r.Some? {
        needsTimeoutBeforeNextPoll := true;
      }
    }

    method RegisterSend(now: Time, from: MidRid)
      modifies `lastSends
      ensures lastSends == old(lastSends)[from := now]
    {
      lastSends := lastSends[from := now];
    }

    /**
     A timeout with fresh snapshots, a poll, and the send it leads to: one round of the runs
     that the fairness result is about.
     */
    method Serve(queues: seq<QueueState>, at: Time) returns (r: Option<MidRid>)
      modifies this
      ensures r == Choice(queues, old(lastSends))
      ensures lastSends == AfterRound(old(lastSends), Round(queues, at))
    {
      HandleTimeout(queues);
      r := PollQueue();
      if r.Some? {
        RegisterSend(at, r.value);
      }
    }
  }
}
