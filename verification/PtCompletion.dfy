/**
 What an update does to the entries, and when it completes.

 A locked entry is never touched again. Where the local side controls the PTs an
 update cannot fail as long as the config is small enough for the preferred ranges;
 where the remote demands its PTs it completes exactly when the demanded PTs clash
 neither with each other nor with a locked one.
 */
module PtCompletion {
  import opened Prelude
  import opened PayloadTypes
  import opened CodecNegotiation
  import opened PtUniqueness

  // ---- Locked entries ----

  predicate KeepsLock(p: PayloadParams, q: PayloadParams) {
    p.locked ==> q.locked && q.pt == p.pt && q.resend == p.resend
  }

  ghost predicate KeepsLocks(ps: seq<PayloadParams>, qs: seq<PayloadParams>) {
    |qs| == |ps| && forall i :: 0 <= i < |ps| ==> KeepsLock(ps[i], qs[i]) && qs[i].fb == ps[i].fb
  }

  lemma {:induction false} LockMatchingKeepsLocks(m: Matcher, ps: seq<PayloadParams>, remote: seq<PayloadParams>,
                                                  t: Table, ctl: bool, n: nat)
    requires n <= |ps| && LockMatching(m, ps, remote, t, ctl, n).Done?
    ensures KeepsLocks(ps, LockMatching(m, ps, remote, t, ctl, n).value.0)
  {
    if n > 0 {
      LockMatchingKeepsLocks(m, ps, remote, t, ctl, n - 1);
    }
  }

  lemma {:induction false} ReassignKeepsLocks(ps: seq<PayloadParams>, t: Table, n: nat)
    requires n <= |ps| && Reassign(ps, t, n).Done?
    ensures KeepsLocks(ps, Reassign(ps, t, n).value.0)
  {
    if n > 0 {
      ReassignKeepsLocks(ps, t, n - 1);
    }
  }

  lemma {:induction false} ReassignKeepsRest(ps: seq<PayloadParams>, t: Table, n: nat)
    requires n <= |ps| && Reassign(ps, t, n).Done?
    ensures forall i :: 0 <= i < |ps| ==>
              Reassign(ps, t, n).value.0[i].locked == ps[i].locked && Reassign(ps, t, n).value.0[i].spec == ps[i].spec
  {
    if n > 0 {
      ReassignKeepsRest(ps, t, n - 1);
    }
  }

  /**
   Over any completed run of updates the PTs stay distinct, and an entry that was
   locked keeps its PT and RTX PT and stays locked.
   */
  lemma {:induction false} RunKeepsLocksAndDistinct(m: Matcher, ps: seq<PayloadParams>, calls: seq<Call>)
    requires RunUpdates(m, ps, calls).Done?
    ensures KeepsLocks(ps, RunUpdates(m, ps, calls).value)
    ensures Distinct(ps) ==> Distinct(RunUpdates(m, ps, calls).value)
  {
    if calls != [] {
      var n := |calls| - 1;
      RunKeepsLocksAndDistinct(m, ps, calls[..n]);
      var qs := RunUpdates(m, ps, calls[..n]).value;
      var c := calls[n];
      var ctl := !c.dir.SdpIsReceiving();
      var t := ClaimLocked(qs, |qs|).value;
      LockMatchingKeepsLocks(m, qs, c.remote, t, ctl, |qs|);
      var (rs, t1) := LockMatching(m, qs, c.remote, t, ctl, |qs|).value;
      ReassignKeepsLocks(rs, t1, |rs|);
      if Distinct(qs) {
        UpdateKeepsDistinct(m, qs, c.remote, c.dir);
      }
    }
  }

  // ---- Room in the preferred ranges ----

  lemma {:induction false} CoveredBySlots(ps: seq<PayloadParams>, slots: set<int>, pts: set<Pt>)
    requires forall x :: x in pts ==> HeldBySettled(ps, slots, x)
    ensures |pts| <= |slots|
    decreases |pts|
  {
    if pts != {} {
      var x :| x in pts;
      assert HeldBySettled(ps, slots, x);
      var k :| k in slots && 0 <= k < 2 * |ps| && SlotPt(ps, k) == Some(x);
      forall y | y in pts - {x} ensures HeldBySettled(ps, slots - {k}, y) {
        assert HeldBySettled(ps, slots, y);
        var j :| j in slots && 0 <= j < 2 * |ps| && SlotPt(ps, j) == Some(y);
        assert j in slots - {k};
      }
      CoveredBySlots(ps, slots - {k}, pts - {x});
    }
  }

  /** The config leaves room: with at most 21 entries it always does. */
  ghost predicate HasRoom(ps: seq<PayloadParams>, unlocked: set<Pt>) {
    2 * |ps| + |unlocked| <= PREFERRED_COUNT
  }

  lemma {:induction false} SmallConfigHasRoom(ps: seq<PayloadParams>)
    requires |ps| <= 21
    ensures HasRoom(ps, UnlockedPts(ps))
  {
    var slots := Below(2 * |ps|);
    forall x | x in UnlockedPts(ps) ensures HeldBySettled(ps, slots, x) {
      if i :| 0 <= i < |ps| && !ps[i].locked && ps[i].pt == x {
        assert SlotPt(ps, 2 * i) == Some(x);
      } else {
        var i :| 0 <= i < |ps| && !ps[i].locked && ps[i].resend == Some(x);
        assert SlotPt(ps, 2 * i + 1) == Some(x);
      }
    }
    CoveredBySlots(ps, slots, UnlockedPts(ps));
  }

  /** While some slot is unsettled the search finds a free PT. */
  lemma {:induction false} SearchSucceeds(ps: seq<PayloadParams>, settled: set<int>, t: Table, k: int)
    requires Inv(ps, settled, t) && HasRoom(ps, t.unlocked)
    requires 0 <= k < 2 * |ps| && k !in settled
    ensures FindUnclaimed(t).Some?
  {
    var all := Below(2 * |ps|);
    var slots := settled * all;
    forall x | x in t.claimed ensures HeldBySettled(ps, slots, x) {
      assert HeldBySettled(ps, settled, x);
      var j :| j in settled && 0 <= j < 2 * |ps| && SlotPt(ps, j) == Some(x);
      assert j in slots;
    }
    CoveredBySlots(ps, slots, t.claimed);
    SubsetSize(slots + {k}, all);
    EnoughFree(t);
  }

  ghost predicate InRange(ps: seq<PayloadParams>) {
    forall k :: 0 <= k < 2 * |ps| && SlotPt(ps, k).Some? ==> SlotPt(ps, k).value < PT_LIMIT
  }

  predicate EntryInRange(p: PayloadParams) {
    p.pt < PT_LIMIT && (p.resend.Some? ==> p.resend.value < PT_LIMIT)
  }

  lemma InRangeEntries(ps: seq<PayloadParams>)
    ensures InRange(ps) <==> forall i :: 0 <= i < |ps| ==> EntryInRange(ps[i])
  {
    if InRange(ps) {
      forall i | 0 <= i < |ps| ensures EntryInRange(ps[i]) {
        assert SlotPt(ps, 2 * i) == Some(ps[i].pt) && SlotPt(ps, 2 * i + 1) == ps[i].resend;
      }
    } else {
      var k :| 0 <= k < 2 * |ps| && SlotPt(ps, k).Some? && SlotPt(ps, k).value >= PT_LIMIT;
      assert !EntryInRange(ps[k / 2]);
    }
  }

  // ---- The last pass cannot fail ----

  lemma {:induction false} ReassignCompletes(ps: seq<PayloadParams>, t: Table, n: nat)
    requires n <= |ps| && Inv(ps, LockedSlots(ps), t)
    requires InRange(ps) && HasRoom(ps, t.unlocked)
    ensures Reassign(ps, t, n).Done?
  {
    if n > 0 {
      ReassignCompletes(ps, t, n - 1);
      var i := n - 1;
      ReassignInv(ps, t, i);
      InRangeEntries(ps);
      var (qs, t1) := Reassign(ps, t, i).value;
      assert qs[i] == qs[i..][0] == ps[i];
      if !qs[i].locked {
        ReassignEntryCompletes(qs, SettledBelow(qs, i), t1, i);
      }
    }
  }

  lemma {:induction false} ReassignSlotCompletes(qs: seq<PayloadParams>, settled: set<int>, t: Table, k: int, pt: Pt)
    requires Inv(qs, settled, t) && HasRoom(qs, t.unlocked) && 0 <= k < 2 * |qs| && k !in settled && pt < PT_LIMIT
    ensures ReassignPt(t, pt).Done?
  {
    SearchSucceeds(qs, settled, t, k);
  }

  lemma {:induction false} ReassignEntryCompletes(qs: seq<PayloadParams>, settled: set<int>, t: Table, i: int)
    requires 0 <= i < |qs| && !qs[i].locked && EntryInRange(qs[i])
    requires Inv(qs, settled, t) && HasRoom(qs, t.unlocked)
    requires 2 * i !in settled && 2 * i + 1 !in settled
    ensures ReassignEntry(qs[i], t).Done?
  {
    var p := qs[i];
    assert SlotPt(qs, 2 * i) == Some(p.pt);
    ReassignSlotCompletes(qs, settled, t, 2 * i, p.pt);
    ReassignSlotInv(qs, settled, t, 2 * i);
    var (pt, t1) := ReassignPt(t, p.pt).value;
    if p.resend.Some? {
      ReassignSlotCompletes(Put(qs, 2 * i, Some(pt)), settled + {2 * i}, t1, 2 * i + 1, p.resend.value);
    }
  }

  // ---- The locking pass cannot fail when the local side controls ----

  lemma {:induction false} LockMatchingCompletes(m: Matcher, ps: seq<PayloadParams>, remote: seq<PayloadParams>,
                                                 t: Table, n: nat)
    requires n <= |ps|
    requires Inv(ps, LockedSlots(ps), t) && SettledClaimed(ps, LockedSlots(ps), t)
    requires HasRoom(ps, t.unlocked) && InRange(ps) && InRange(remote)
    ensures LockMatching(m, ps, remote, t, true, n).Done?
    ensures InRange(LockMatching(m, ps, remote, t, true, n).value.0)
  {
    if n > 0 {
      LockMatchingCompletes(m, ps, remote, t, n - 1);
      var i := n - 1;
      LockMatchingInv(m, ps, remote, t, true, i);
      var (qs, t1) := LockMatching(m, ps, remote, t, true, i).value;
      SubsetSize(t1.unlocked, t.unlocked);
      InRangeEntries(qs);
      InRangeEntries(remote);
      UpdateParamCompletes(m, qs, remote, t1, i);
      InRangeEntries(LockMatching(m, ps, remote, t, true, n).value.0);
    }
  }

  lemma LockPtCompletes(t: Table, demanded: Pt, own: Option<Pt>)
    requires demanded < PT_LIMIT && (own.Some? ==> own.value < PT_LIMIT)
    requires FindUnclaimed(t).Some?
    ensures LockPt(t, demanded, own, true).Done?
  {
  }

  lemma {:induction false} LockSlotCompletes(qs: seq<PayloadParams>, settled: set<int>, t: Table, k: int,
                                             demanded: Pt, own: Option<Pt>)
    requires Inv(qs, settled, t) && HasRoom(qs, t.unlocked) && 0 <= k < 2 * |qs| && k !in settled
    requires demanded < PT_LIMIT && (own.Some? ==> own.value < PT_LIMIT)
    ensures LockPt(t, demanded, own, true).Done? && LockPt(t, demanded, own, true).value.0 < PT_LIMIT
  {
    SearchSucceeds(qs, settled, t, k);
    LockPtCompletes(t, demanded, own);
    LockPtFresh(t, demanded, own, true);
  }

  lemma {:induction false} UpdateParamCompletes(m: Matcher, qs: seq<PayloadParams>, remote: seq<PayloadParams>,
                                                t: Table, i: int)
    requires 0 <= i < |qs| && EntryInRange(qs[i])
    requires forall j :: 0 <= j < |remote| ==> EntryInRange(remote[j])
    requires Inv(qs, LockedSlots(qs), t) && SettledClaimed(qs, LockedSlots(qs), t)
    requires HasRoom(qs, t.unlocked)
    ensures UpdateParam(m, qs[i], remote, t, true).Done?
    ensures EntryInRange(UpdateParam(m, qs[i], remote, t, true).value.0)
  {
    var best := BestMatch(m, qs[i].spec, remote);
    if best.Some? && !qs[i].locked {
      var first := best.value;
      var p := qs[i].(spec := m.mirror(qs[i].spec, first.spec));
      var settled := LockedSlots(qs);
      assert SlotPt(qs, 2 * i) == Some(p.pt) && SlotPt(qs, 2 * i + 1) == p.resend;
      LockSlotCompletes(qs, settled, t, 2 * i, first.pt, Some(p.pt));
      LockSlotInv(qs, settled, t, 2 * i, first.pt, true);
      var (pt, t1) := LockPt(t, first.pt, Some(p.pt), true).value;
      if first.resend.Some? {
        SubsetSize(t1.unlocked, t.unlocked);
        LockSlotCompletes(Put(qs, 2 * i, Some(pt)), settled + {2 * i}, t1, 2 * i + 1, first.resend.value, p.resend);
      }
    }
  }

  lemma DistinctIsClean(ps: seq<PayloadParams>)
    requires Distinct(ps) && InRange(ps)
    ensures ClaimLocked(ps, |ps|).Done?
  {
    ClaimLockedResult(ps, |ps|);
  }

  /**
   Where the local side controls the PTs, no update of a config with room fails:
   neither "Exhausted all PT ranges" nor a double claim is ever reached.
   */
  lemma {:induction false} ControllingNeverPanics(m: Matcher, ps: seq<PayloadParams>, remote: seq<PayloadParams>,
                                                  dir: Direction)
    requires Distinct(ps) && InRange(ps) && InRange(remote)
    requires |ps| <= 21 || HasRoom(ps, UnlockedPts(ps))
    requires !dir.SdpIsReceiving()
    ensures UpdateParams(m, ps, remote, dir).Done?
  {
    if |ps| <= 21 {
      SmallConfigHasRoom(ps);
    }
    DistinctIsClean(ps);
    var t := ClaimLocked(ps, |ps|).value;
    AfterPass1(ps, t);
    LockMatchingCompletes(m, ps, remote, t, |ps|);
    LockMatchingInv(m, ps, remote, t, true, |ps|);
    var (qs, t1) := LockMatching(m, ps, remote, t, true, |ps|).value;
    SubsetSize(t1.unlocked, t.unlocked);
    ReassignCompletes(qs, t1, |qs|);
  }

  // ---- The locking pass when the remote demands its PTs ----

  /** The entry as the remote wants it: locked to the PTs of its best match, if it has one. */
  function Adopted(m: Matcher, p: PayloadParams, remote: seq<PayloadParams>): PayloadParams {
    match BestMatch(m, p.spec, remote)
    case None => p
    case Some(first) =>
      var q := p.(spec := m.mirror(p.spec, first.spec));
      if p.locked then q else q.(pt := first.pt, resend := first.resend, locked := true)
  }

  // The first n entries adopted, the others as they were.
  function AdoptedUpTo(m: Matcher, ps: seq<PayloadParams>, remote: seq<PayloadParams>, n: nat): (qs: seq<PayloadParams>)
    requires n <= |ps|
    ensures |qs| == |ps|
    ensures forall i :: 0 <= i < |ps| ==> qs[i] == if i < n then Adopted(m, ps[i], remote) else ps[i]
  {
    if n == 0 then ps else AdoptedUpTo(m, ps, remote, n - 1)[n - 1 := Adopted(m, ps[n - 1], remote)]
  }

  function AdoptAll(m: Matcher, ps: seq<PayloadParams>, remote: seq<PayloadParams>): seq<PayloadParams> {
    AdoptedUpTo(m, ps, remote, |ps|)
  }

  /** The locked PTs of a config fit the claim table and are pairwise distinct. */
  ghost predicate Clean(ps: seq<PayloadParams>) {
    && (forall k :: k in LockedSlots(ps) && SlotPt(ps, k).Some? ==> SlotPt(ps, k).value < PT_LIMIT)
    && (forall j, k :: j in LockedSlots(ps) && k in LockedSlots(ps) && j < k && SlotPt(ps, j).Some? ==>
          SlotPt(ps, j) != SlotPt(ps, k))
  }

  // Replacing one entry, when its slots were not locked or do not change.
  lemma {:induction false} CleanStep(qs: seq<PayloadParams>, i: int, q: PayloadParams, claimed: set<Pt>)
    requires 0 <= i < |qs| && ClaimsExactly(qs, LockedSlots(qs), claimed)
    requires Clean(qs) && !qs[i].locked && q.locked
    ensures Clean(qs[i := q]) <==>
              && q.pt < PT_LIMIT && q.pt !in claimed
              && (q.resend.Some? ==> q.resend.value < PT_LIMIT && q.resend.value !in claimed + {q.pt})
    ensures Clean(qs[i := q]) ==>
              ClaimsExactly(qs[i := q], LockedSlots(qs[i := q]),
                            claimed + {q.pt} + (if q.resend.Some? then {q.resend.value} else {}))
  {
    var rs := qs[i := q];
    var old', new' := LockedSlots(qs), LockedSlots(rs);
    assert SlotPt(rs, 2 * i) == Some(q.pt) && SlotPt(rs, 2 * i + 1) == q.resend;
    assert new' == old' + {2 * i, 2 * i + 1};
    forall k | k in old' ensures SlotPt(rs, k) == SlotPt(qs, k) {
      assert k / 2 != i;
    }
    forall k | k in old' && SlotPt(qs, k).Some? ensures SlotPt(qs, k).value in claimed {
      assert HeldBySettled(qs, old', SlotPt(qs, k).value);
    }
    forall x: Pt | x in claimed ensures HeldBySettled(rs, new', x) {
      assert HeldBySettled(qs, old', x);
      var k :| k in old' && 0 <= k < 2 * |qs| && SlotPt(qs, k) == Some(x);
      assert k in new' && SlotPt(rs, k) == Some(x);
    }
    forall x: Pt | HeldBySettled(rs, new', x)
      ensures x in claimed || x == q.pt || Some(x) == q.resend
    {
      var k :| k in new' && 0 <= k < 2 * |qs| && SlotPt(rs, k) == Some(x);
      assert k in old' ==> SlotPt(qs, k) == Some(x);
    }
    assert HeldBySettled(rs, new', q.pt);
    if q.resend.Some? {
      assert HeldBySettled(rs, new', q.resend.value);
    }
    if q.pt in claimed {
      var k :| k in new' && k in old' && SlotPt(rs, k) == Some(q.pt);
      assert k < 2 * i || 2 * i < k;
    }
    if q.resend.Some? && q.resend.value in claimed {
      var k :| k in new' && k in old' && SlotPt(rs, k) == q.resend;
      assert k < 2 * i + 1 || 2 * i + 1 < k;
    }
  }

  lemma {:induction false} CleanBack(qs: seq<PayloadParams>, i: int, q: PayloadParams)
    requires 0 <= i < |qs| && KeepsLock(qs[i], q) && Clean(qs[i := q])
    ensures Clean(qs)
  {
    var rs := qs[i := q];
    forall k | k in LockedSlots(qs) ensures k in LockedSlots(rs) && SlotPt(rs, k) == SlotPt(qs, k) {
      assert k / 2 == i || rs[k / 2] == qs[k / 2];
    }
  }

  lemma {:induction false} SameLocksSameClaims(qs: seq<PayloadParams>, i: int, q: PayloadParams, claimed: set<Pt>)
    requires 0 <= i < |qs| && ClaimsExactly(qs, LockedSlots(qs), claimed)
    requires q.pt == qs[i].pt && q.resend == qs[i].resend && q.locked == qs[i].locked
    ensures ClaimsExactly(qs[i := q], LockedSlots(qs[i := q]), claimed)
    ensures Clean(qs) ==> Clean(qs[i := q])
  {
    var rs := qs[i := q];
    assert LockedSlots(rs) == LockedSlots(qs);
    assert forall k :: 0 <= k < 2 * |qs| ==> SlotPt(rs, k) == SlotPt(qs, k);
    forall x: Pt ensures HeldBySettled(rs, LockedSlots(rs), x) <==> HeldBySettled(qs, LockedSlots(qs), x) {}
  }

  /**
   When the remote demands its PTs, the locking pass completes exactly when adopting all
   demands leaves the locked PTs clean; the outcome is then the adopted config.
   */
  lemma {:induction false} DemandedLocking(m: Matcher, ps: seq<PayloadParams>, remote: seq<PayloadParams>, t: Table,
                                           n: nat)
    requires n <= |ps| && Clean(ps) && ClaimsExactly(ps, LockedSlots(ps), t.claimed)
    ensures var r := LockMatching(m, ps, remote, t, false, n);
            var qs := AdoptedUpTo(m, ps, remote, n);
            && (r.Done? <==> Clean(qs))
            && (r.Done? ==> r.value.0 == qs && r.value.1.unlocked == t.unlocked &&
                            ClaimsExactly(qs, LockedSlots(qs), r.value.1.claimed))
  {
    if n > 0 {
      var i := n - 1;
      DemandedLocking(m, ps, remote, t, i);
      var qs := AdoptedUpTo(m, ps, remote, i);
      var q := Adopted(m, ps[i], remote);
      assert AdoptedUpTo(m, ps, remote, n) == qs[i := q];
      if !Clean(qs) {
        if Clean(qs[i := q]) {
          CleanBack(qs, i, q);
        }
      } else {
        var t1 := LockMatching(m, ps, remote, t, false, i).value.1;
        if BestMatch(m, ps[i].spec, remote).None? || ps[i].locked {
          SameLocksSameClaims(qs, i, q, t1.claimed);
        } else {
          CleanStep(qs, i, q, t1.claimed);
        }
      }
    }
  }

  // ---- What the last pass changes ----

  /** Until entry n the last pass only moves a slot whose PT a locked slot holds. */
  ghost predicate MovesOnlyClaimed(ps: seq<PayloadParams>, qs: seq<PayloadParams>, claimed: set<Pt>, n: int)
    requires |qs| == |ps|
  {
    forall k :: 0 <= k < 2 * |ps| && k < 2 * n && !ps[k / 2].locked ==>
      (SlotPt(qs, k) != SlotPt(ps, k) <==> SlotPt(ps, k).Some? && SlotPt(ps, k).value in claimed)
  }

  lemma ReassignPtMoves(t0: Table, t: Table, pt: Pt)
    requires t.claimed * t.unlocked <= t0.claimed && t0.claimed <= t.claimed
    requires pt in t.unlocked && ReassignPt(t, pt).Done?
    ensures var (x, t') := ReassignPt(t, pt).value;
            && (x != pt <==> pt in t0.claimed)
            && t'.unlocked == t.unlocked
            && t'.claimed * t'.unlocked <= t0.claimed && t0.claimed <= t'.claimed
  {
  }

  lemma {:induction false} ReassignMoves(ps: seq<PayloadParams>, t: Table, n: nat)
    requires n <= |ps| && Inv(ps, LockedSlots(ps), t)
    requires Reassign(ps, t, n).Done?
    ensures var (qs, t') := Reassign(ps, t, n).value;
            && MovesOnlyClaimed(ps, qs, t.claimed, n)
            && t'.unlocked == t.unlocked
            && t'.claimed * t'.unlocked <= t.claimed && t.claimed <= t'.claimed
  {
    if n > 0 {
      var i := n - 1;
      ReassignMoves(ps, t, i);
      var (qs, t1) := Reassign(ps, t, i).value;
      assert qs[i] == qs[i..][0] == ps[i];
      var rs := Reassign(ps, t, n).value.0;
      if !ps[i].locked {
        assert SlotPt(ps, 2 * i) == Some(ps[i].pt) && SlotPt(ps, 2 * i + 1) == ps[i].resend;
        assert Placed(ps, LockedSlots(ps), t, 2 * i) && Placed(ps, LockedSlots(ps), t, 2 * i + 1);
        ReassignPtMoves(t, t1, ps[i].pt);
        var t2 := ReassignPt(t1, ps[i].pt).value.1;
        if ps[i].resend.Some? {
          ReassignPtMoves(t, t2, ps[i].resend.value);
        }
        assert SlotPt(rs, 2 * i) == Some(rs[i].pt) && SlotPt(rs, 2 * i + 1) == rs[i].resend;
      }
      forall k | 0 <= k < 2 * |ps| && k < 2 * n && !ps[k / 2].locked
        ensures SlotPt(rs, k) != SlotPt(ps, k) <==> SlotPt(ps, k).Some? && SlotPt(ps, k).value in t.claimed
      {
        if k < 2 * i {
          assert SlotPt(rs, k) == SlotPt(qs, k);
        } else {
          assert k == 2 * i || k == 2 * i + 1;
        }
      }
    }
  }

  ghost predicate LockedPt(ps: seq<PayloadParams>, x: Pt) {
    HeldBySettled(ps, LockedSlots(ps), x)
  }

  /**
   Where the remote demands its PTs, the update completes exactly when the adopted
   config is clean. Then every entry with a match is locked to the demanded PTs, and
   an unmatched one changes a PT just when a locked entry owns it.
   */
  lemma {:induction false} DemandedUpdate(m: Matcher, ps: seq<PayloadParams>, remote: seq<PayloadParams>,
                                          dir: Direction)
    requires Distinct(ps) && InRange(ps)
    requires |ps| <= 21 || HasRoom(ps, UnlockedPts(ps))
    requires dir.SdpIsReceiving()
    ensures var qs := AdoptAll(m, ps, remote);
            var r := UpdateParams(m, ps, remote, dir);
            && (r.Done? <==> Clean(qs))
            && (r.Done? ==> KeepsLocks(qs, r.value))
            && (r.Done? ==> forall i :: 0 <= i < |ps| ==>
                  r.value[i].locked == qs[i].locked && r.value[i].spec == qs[i].spec)
            && (r.Done? ==> forall k :: 0 <= k < 2 * |ps| && !qs[k / 2].locked ==>
                  (SlotPt(r.value, k) != SlotPt(ps, k) <==>
                     SlotPt(ps, k).Some? && LockedPt(qs, SlotPt(ps, k).value)))
  {
    if |ps| <= 21 {
      SmallConfigHasRoom(ps);
    }
    DistinctIsClean(ps);
    var t := ClaimLocked(ps, |ps|).value;
    AfterPass1(ps, t);
    ClaimLockedResult(ps, |ps|);
    assert LockedBelow(ps, |ps|) == LockedSlots(ps);
    DemandedLocking(m, ps, remote, t, |ps|);
    var qs := AdoptAll(m, ps, remote);
    if Clean(qs) {
      var t1 := LockMatching(m, ps, remote, t, false, |ps|).value.1;
      LockMatchingInv(m, ps, remote, t, false, |ps|);
      forall k | 0 <= k < 2 * |qs|
        ensures SlotPt(qs, k).Some? ==> SlotPt(qs, k).value < PT_LIMIT
        ensures !qs[k / 2].locked ==> SlotPt(qs, k) == SlotPt(ps, k)
      {
        assert qs[k / 2] == Adopted(m, ps[k / 2], remote);
        if k in LockedSlots(qs) {
        } else {
          assert SlotPt(qs, k) == SlotPt(ps, k);
        }
      }
      ReassignCompletes(qs, t1, |qs|);
      ReassignKeepsLocks(qs, t1, |qs|);
      ReassignKeepsRest(qs, t1, |qs|);
      ReassignMoves(qs, t1, |qs|);
    }
  }

  /** Two unlocked entries with the same best match demand the same PT, so the update fails. */
  lemma {:induction false} SharedMatchPanics(m: Matcher, ps: seq<PayloadParams>, remote: seq<PayloadParams>,
                                             dir: Direction, i: int, j: int)
    requires dir.SdpIsReceiving()
    requires 0 <= i < j < |ps| && !ps[i].locked && !ps[j].locked
    requires BestMatch(m, ps[i].spec, remote).Some?
    requires BestMatch(m, ps[i].spec, remote) == BestMatch(m, ps[j].spec, remote)
    ensures UpdateParams(m, ps, remote, dir).Panic?
  {
    if ClaimLocked(ps, |ps|).Done? {
      var t := ClaimLocked(ps, |ps|).value;
      ClaimLockedResult(ps, |ps|);
      assert LockedBelow(ps, |ps|) == LockedSlots(ps);
      DemandedLocking(m, ps, remote, t, |ps|);
      AdoptedTwice(m, ps, remote, i, j);
    }
  }

  lemma {:induction false} AdoptedTwice(m: Matcher, ps: seq<PayloadParams>, remote: seq<PayloadParams>, i: int, j: int)
    requires 0 <= i < j < |ps| && !ps[i].locked && !ps[j].locked
    requires BestMatch(m, ps[i].spec, remote).Some?
    requires BestMatch(m, ps[i].spec, remote) == BestMatch(m, ps[j].spec, remote)
    ensures !Clean(AdoptAll(m, ps, remote))
  {
    var qs := AdoptAll(m, ps, remote);
    assert SlotPt(qs, 2 * i) == SlotPt(qs, 2 * j);
    assert 2 * i in LockedSlots(qs) && 2 * j in LockedSlots(qs);
  }

  /** A concrete failing input: two local entries that both match the one remote entry. */
  lemma DemandClashExample(s: CodecSpec, fb: Feedback)
    ensures var m := Matcher((a, b) => Some(100), (a, b) => a);
            var ps := [PayloadParams(96, None, s, fb, false), PayloadParams(98, None, s, fb, false)];
            UpdateParams(m, ps, [PayloadParams(100, None, s, fb, false)], SendRecv).Panic?
  {
    var m := Matcher((a, b) => Some(100), (a, b) => a);
    var ps := [PayloadParams(96, None, s, fb, false), PayloadParams(98, None, s, fb, false)];
    var remote := [PayloadParams(100, None, s, fb, false)];
    SharedMatchPanics(m, ps, remote, SendRecv, 0, 1);
  }
}
