/**
 Which PT an entry ends up with when it cannot have the one it would get first: the first
 free one in the preferred order, in the locking pass as well as in the repair.
 */
module PtChoices {
  import opened Prelude
  import opened PayloadTypes
  import opened CodecNegotiation
  import opened PtUniqueness
  import opened PtCompletion

  // ---- The repair pass ----

  // A slot before k holds x.
  ghost predicate HeldBefore(qs: seq<PayloadParams>, k: int, x: Pt) {
    exists j :: 0 <= j < k && j < 2 * |qs| && SlotPt(qs, j) == Some(x)
  }

  /** Slot k moved to the first preferred PT that was neither claimed, nor unlocked, nor given to an earlier slot. */
  ghost predicate MovedToFirst(qs: seq<PayloadParams>, k: int, t: Table)
    requires 0 <= k < 2 * |qs| && SlotPt(qs, k).Some?
  {
    var x := SlotPt(qs, k).value;
    && Preferred(x)
    && forall y: Pt :: Preferred(y) && Rank(y) < Rank(x) ==> y in t.claimed || y in t.unlocked || HeldBefore(qs, k, y)
  }

  // Slot k is as it was, or moved to the first free PT.
  ghost predicate SlotChoice(ps: seq<PayloadParams>, qs: seq<PayloadParams>, k: int, t: Table)
    requires 0 <= k < 2 * |ps| && |qs| == |ps|
  {
    SlotPt(qs, k) == SlotPt(ps, k) || (SlotPt(qs, k).Some? && MovedToFirst(qs, k, t))
  }

  // What has been claimed since the pass began is held by an earlier slot.
  ghost predicate ClaimedBefore(qs: seq<PayloadParams>, k: int, t: Table, t': Table) {
    && t'.unlocked == t.unlocked
    && forall x: Pt :: x in t'.claimed ==> x in t.claimed || HeldBefore(qs, k, x)
  }

  lemma ReassignPtFirst(t: Table, pt: Pt)
    requires ReassignPt(t, pt).Done?
    ensures var (x, t') := ReassignPt(t, pt).value;
            && (if pt in t.claimed then IsFirstFree(t, Some(x)) && t'.claimed == t.claimed + {x}
                else x == pt && t' == t)
            && t'.unlocked == t.unlocked
  {
  }

  lemma HeldStays(qs: seq<PayloadParams>, rs: seq<PayloadParams>, k: int, k': int, x: Pt)
    requires |qs| == |rs| && k <= k' && HeldBefore(qs, k, x)
    requires forall j :: 0 <= j < k && j < 2 * |qs| ==> SlotPt(rs, j) == SlotPt(qs, j)
    ensures HeldBefore(rs, k', x)
  {
    var j :| 0 <= j < k && j < 2 * |qs| && SlotPt(qs, j) == Some(x);
    assert SlotPt(rs, j) == Some(x);
  }

  // One slot of the pass: qs has the slots before k as they stay, rs also slot k.
  lemma {:induction false} SlotFirst(qs: seq<PayloadParams>, rs: seq<PayloadParams>, k: int, t: Table, t1: Table)
    requires |qs| == |rs| && 0 <= k < 2 * |qs| && ClaimedBefore(qs, k, t, t1)
    requires forall j :: 0 <= j < k ==> SlotPt(rs, j) == SlotPt(qs, j)
    requires SlotPt(qs, k).Some? && ReassignPt(t1, SlotPt(qs, k).value).Done?
    requires SlotPt(rs, k) == Some(ReassignPt(t1, SlotPt(qs, k).value).value.0)
    ensures SlotChoice(qs, rs, k, t)
    ensures ClaimedBefore(rs, k + 1, t, ReassignPt(t1, SlotPt(qs, k).value).value.1)
  {
    var pt := SlotPt(qs, k).value;
    var (x, t2) := ReassignPt(t1, pt).value;
    ReassignPtFirst(t1, pt);
    forall y: Pt | y in t1.claimed && y !in t.claimed ensures HeldBefore(rs, k, y) && HeldBefore(rs, k + 1, y) {
      HeldStays(qs, rs, k, k, y);
      HeldStays(qs, rs, k, k + 1, y);
    }
    if pt in t1.claimed {
      assert HeldBefore(rs, k + 1, x);
      forall y: Pt | Preferred(y) && Rank(y) < Rank(x)
        ensures y in t.claimed || y in t.unlocked || HeldBefore(rs, k, y)
      {
        assert !t1.Free(y);
      }
    }
  }

  // A slot without PT changes nothing.
  lemma SkipFirst(qs: seq<PayloadParams>, rs: seq<PayloadParams>, k: int, t: Table, t1: Table)
    requires |qs| == |rs| && ClaimedBefore(qs, k, t, t1) && 0 <= k <= 2 * |qs|
    requires forall j :: 0 <= j < k ==> SlotPt(rs, j) == SlotPt(qs, j)
    ensures forall k' :: k <= k' ==> ClaimedBefore(rs, k', t, t1)
  {
    forall k', x: Pt | k <= k' && x in t1.claimed && x !in t.claimed ensures HeldBefore(rs, k', x) {
      HeldStays(qs, rs, k, k', x);
    }
  }

  lemma {:induction false} EntryFirst(qs: seq<PayloadParams>, i: int, t: Table, t1: Table)
    requires 0 <= i < |qs| && !qs[i].locked && ClaimedBefore(qs, 2 * i, t, t1) && ReassignEntry(qs[i], t1).Done?
    ensures var r := ReassignEntry(qs[i], t1).value;
            var rs := qs[i := r.0];
            && ClaimedBefore(rs, 2 * i + 2, t, r.1)
            && SlotChoice(qs, rs, 2 * i, t) && SlotChoice(qs, rs, 2 * i + 1, t)
  {
    var p, r := qs[i], ReassignEntry(qs[i], t1).value;
    var rs := qs[i := r.0];
    EntrySlots(qs, i);
    EntrySlots(rs, i);
    var (pt, t2) := ReassignPt(t1, p.pt).value;
    var half := qs[i := p.(pt := pt)];
    EntrySlots(half, i);
    SlotFirst(qs, half, 2 * i, t, t1);
    MainStays(half, rs, i, t);
    if p.resend.None? {
      assert rs == half;
      SkipFirst(half, rs, 2 * i + 1, t, t2);
    } else {
      SlotFirst(half, rs, 2 * i + 1, t, t2);
    }
  }

  // Changing the RTX slot leaves the choice of the main slot as it is.
  lemma MainStays(half: seq<PayloadParams>, rs: seq<PayloadParams>, i: int, t: Table)
    requires |half| == |rs| && 0 <= i < |half|
    requires forall j :: 0 <= j < 2 * |half| && j != 2 * i + 1 ==> SlotPt(rs, j) == SlotPt(half, j)
    ensures SlotPt(half, 2 * i).Some? && MovedToFirst(half, 2 * i, t) ==> MovedToFirst(rs, 2 * i, t)
  {
    LaterStays(half, rs, 2 * i, t);
  }

  // A choice does not depend on later slots.
  lemma LaterStays(qs: seq<PayloadParams>, rs: seq<PayloadParams>, k: int, t: Table)
    requires |qs| == |rs| && 0 <= k < 2 * |qs|
    requires forall j :: 0 <= j <= k ==> SlotPt(rs, j) == SlotPt(qs, j)
    ensures SlotPt(qs, k).Some? && MovedToFirst(qs, k, t) ==> MovedToFirst(rs, k, t)
  {
    forall y: Pt | HeldBefore(qs, k, y) ensures HeldBefore(rs, k, y) {
      HeldStays(qs, rs, k, k, y);
    }
  }

  ghost predicate ChoicesUpTo(ps: seq<PayloadParams>, qs: seq<PayloadParams>, n: int, t: Table)
    requires |qs| == |ps|
  {
    forall k :: 0 <= k < 2 * |ps| && k < 2 * n ==> SlotChoice(ps, qs, k, t)
  }

  /** The repair moves a slot only to the first preferred PT that is still free. */
  lemma {:induction false} ReassignFirst(ps: seq<PayloadParams>, t: Table, n: nat)
    requires n <= |ps| && Reassign(ps, t, n).Done?
    ensures var r := Reassign(ps, t, n).value; ClaimedBefore(r.0, 2 * n, t, r.1) && ChoicesUpTo(ps, r.0, n, t)
  {
    if n > 0 {
      var i := n - 1;
      ReassignFirst(ps, t, i);
      var r := Reassign(ps, t, i).value;
      assert r.0[i] == r.0[i..][0] == ps[i];
      if ps[i].locked {
        assert r.0[i := r.0[i]] == r.0;
        SkipFirst(r.0, r.0, 2 * i, t, r.1);
      } else {
        EntryFirst(r.0, i, t, r.1);
        ChoicesStay(ps, r.0, i, ReassignEntry(r.0[i], r.1).value.0, t);
      }
    }
  }

  lemma {:induction false} ChoicesStay(ps: seq<PayloadParams>, qs: seq<PayloadParams>, i: int, q: PayloadParams,
                                       t: Table)
    requires |qs| == |ps| && 0 <= i < |qs| && ps[i] == qs[i] && ChoicesUpTo(ps, qs, i, t)
    requires SlotChoice(qs, qs[i := q], 2 * i, t) && SlotChoice(qs, qs[i := q], 2 * i + 1, t)
    ensures ChoicesUpTo(ps, qs[i := q], i + 1, t)
  {
    var rs := qs[i := q];
    EntrySlots(ps, i);
    EntrySlots(qs, i);
    forall k | 0 <= k < 2 * |ps| && k < 2 * (i + 1) ensures SlotChoice(ps, rs, k, t) {
      if k < 2 * i {
        assert SlotChoice(ps, qs, k, t);
        LaterStays(qs, rs, k, t);
      }
    }
  }

  /**
   Slot k of an updated config has the PT it had, or the first preferred one that no locked
   entry holds, no unlocked entry had, and no earlier slot took.
   */
  ghost predicate KeptOrFirst(ps: seq<PayloadParams>, rs: seq<PayloadParams>, k: int)
    requires 0 <= k < 2 * |ps| && |rs| == |ps|
  {
    SlotPt(rs, k) == SlotPt(ps, k) ||
    (&& SlotPt(rs, k).Some? && Preferred(SlotPt(rs, k).value)
     && forall y: Pt :: Preferred(y) && Rank(y) < Rank(SlotPt(rs, k).value) ==>
          LockedPt(rs, y) || y in UnlockedPts(ps) || HeldBefore(rs, k, y))
  }

  ghost predicate UnlockedKeptOrFirst(ps: seq<PayloadParams>, rs: seq<PayloadParams>) {
    |rs| == |ps| && forall k :: 0 <= k < 2 * |ps| && !rs[k / 2].locked ==> KeptOrFirst(ps, rs, k)
  }

  /** A completed update moves the PT of an unlocked entry only to the first one still free. */
  lemma {:induction false} MovedPtsAreFirst(m: Matcher, ps: seq<PayloadParams>, remote: seq<PayloadParams>,
                                            dir: Direction)
    requires Distinct(ps) && UpdateParams(m, ps, remote, dir).Done?
    ensures UnlockedKeptOrFirst(ps, UpdateParams(m, ps, remote, dir).value)
  {
    var ctl := !dir.SdpIsReceiving();
    var t := ClaimLocked(ps, |ps|).value;
    AfterPass1(ps, t);
    LockMatchingInv(m, ps, remote, t, ctl, |ps|);
    var (qs, t1) := LockMatching(m, ps, remote, t, ctl, |ps|).value;
    ReassignFirst(qs, t1, |qs|);
    ReassignKeepsLocks(qs, t1, |qs|);
    ReassignKeepsRest(qs, t1, |qs|);
    UnlockedUntouched(m, ps, remote, t, ctl, |ps|);
    var rs := Reassign(qs, t1, |qs|).value.0;
    forall y: Pt | y in t1.claimed ensures LockedPt(rs, y) {
      ClaimedIsLocked(qs, rs, t1, y);
    }
    forall k | 0 <= k < 2 * |ps| && !rs[k / 2].locked ensures KeptOrFirst(ps, rs, k) {
      assert SlotChoice(qs, rs, k, t1);
      assert SlotPt(qs, k) == SlotPt(ps, k);
    }
  }

  lemma {:induction false} ClaimedIsLocked(qs: seq<PayloadParams>, rs: seq<PayloadParams>, t: Table, y: Pt)
    requires Inv(qs, LockedSlots(qs), t) && KeepsLocks(qs, rs) && y in t.claimed
    ensures LockedPt(rs, y)
  {
    assert HeldBySettled(qs, LockedSlots(qs), y);
    var j :| j in LockedSlots(qs) && 0 <= j < 2 * |qs| && SlotPt(qs, j) == Some(y);
    assert KeepsLock(qs[j / 2], rs[j / 2]);
    assert j in LockedSlots(rs) && SlotPt(rs, j) == Some(y);
  }

  // What the locking pass does not lock, it leaves alone.
  lemma {:induction false} UnlockedUntouched(m: Matcher, ps: seq<PayloadParams>, remote: seq<PayloadParams>, t: Table,
                                             ctl: bool, n: nat)
    requires n <= |ps| && LockMatching(m, ps, remote, t, ctl, n).Done?
    ensures var qs := LockMatching(m, ps, remote, t, ctl, n).value.0;
            forall i :: 0 <= i < |ps| && !qs[i].locked ==> qs[i] == ps[i]
  {
    if n > 0 {
      UnlockedUntouched(m, ps, remote, t, ctl, n - 1);
      var qs := LockMatching(m, ps, remote, t, ctl, n - 1).value.0;
      assert qs[n - 1] == qs[n - 1..][0] == ps[n - 1];
    }
  }

  // ---- Codecs ----

  /** Every entry, locked or not, mirrors the codec of its best match; without a match it keeps its codec. */
  lemma {:induction false} SpecsMirrored(m: Matcher, ps: seq<PayloadParams>, remote: seq<PayloadParams>, dir: Direction)
    requires UpdateParams(m, ps, remote, dir).Done?
    ensures var rs := UpdateParams(m, ps, remote, dir).value;
            forall i :: 0 <= i < |ps| ==>
              match BestMatch(m, ps[i].spec, remote)
              case None => rs[i].spec == ps[i].spec && rs[i].locked == ps[i].locked
              case Some(first) => rs[i].spec == m.mirror(ps[i].spec, first.spec) && rs[i].locked
  {
    var ctl := !dir.SdpIsReceiving();
    var t := ClaimLocked(ps, |ps|).value;
    LockingMirrors(m, ps, remote, t, ctl, |ps|);
    var r := LockMatching(m, ps, remote, t, ctl, |ps|).value;
    ReassignKeepsRest(r.0, r.1, |ps|);
  }

  ghost predicate Mirrors(m: Matcher, p: PayloadParams, q: PayloadParams, remote: seq<PayloadParams>) {
    match BestMatch(m, p.spec, remote)
    case None => q.spec == p.spec && q.locked == p.locked
    case Some(first) => q.spec == m.mirror(p.spec, first.spec) && q.locked
  }

  lemma {:induction false} LockingMirrors(m: Matcher, ps: seq<PayloadParams>, remote: seq<PayloadParams>, t: Table,
                                          ctl: bool, n: nat)
    requires n <= |ps| && LockMatching(m, ps, remote, t, ctl, n).Done?
    ensures var qs := LockMatching(m, ps, remote, t, ctl, n).value.0;
            forall i :: 0 <= i < n ==> Mirrors(m, ps[i], qs[i], remote)
  {
    if n > 0 {
      LockingMirrors(m, ps, remote, t, ctl, n - 1);
      var r := LockMatching(m, ps, remote, t, ctl, n - 1).value;
      assert r.0[n - 1] == r.0[n - 1..][0] == ps[n - 1];
      assert Mirrors(m, ps[n - 1], UpdateParam(m, ps[n - 1], remote, r.1, ctl).value.0, remote);
    }
  }

  // ---- The locking pass when the local side controls ----

  // A locked slot holds x that was locked before the update or comes before slot k.
  ghost predicate HeldEarlier(ps: seq<PayloadParams>, qs: seq<PayloadParams>, k: int, x: Pt)
    requires |qs| == |ps|
  {
    exists j :: j in LockedSlots(qs) && j != k && (j < k || ps[j / 2].locked) && SlotPt(qs, j) == Some(x)
  }

  /**
   What slot k of a matched entry gets: the suggested PT, unless an earlier or formerly locked
   slot holds it; then its own under the same proviso; else the first preferred one that is
   neither held so nor the PT of an entry that was unlocked.
   */
  ghost predicate Granted(ps: seq<PayloadParams>, qs: seq<PayloadParams>, k: int, suggested: Pt, own: Option<Pt>, x: Pt)
    requires |qs| == |ps|
  {
    x == suggested ||
    (&& HeldEarlier(ps, qs, k, suggested)
     && (own == Some(x) ||
         (&& (own.Some? ==> HeldEarlier(ps, qs, k, own.value))
          && Preferred(x)
          && forall y: Pt :: Preferred(y) && Rank(y) < Rank(x) ==> HeldEarlier(ps, qs, k, y) || y in UnlockedPts(ps))))
  }

  /** The suggestions of the best match as entry i gets them. */
  ghost predicate Honoured(ps: seq<PayloadParams>, first: PayloadParams, qs: seq<PayloadParams>, i: int)
    requires 0 <= i < |qs| == |ps|
  {
    && qs[i].locked
    && Granted(ps, qs, 2 * i, first.pt, Some(ps[i].pt), qs[i].pt)
    && (first.resend.None? <==> qs[i].resend.None?)
    && (first.resend.Some? ==> Granted(ps, qs, 2 * i + 1, first.resend.value, ps[i].resend, qs[i].resend.value))
  }

  lemma {:induction false} HeldEarlierStays(ps: seq<PayloadParams>, qs: seq<PayloadParams>, rs: seq<PayloadParams>,
                                            k: int, x: Pt)
    requires |qs| == |ps| && KeepsLocks(qs, rs) && HeldEarlier(ps, qs, k, x)
    ensures HeldEarlier(ps, rs, k, x)
  {
    var j :| j in LockedSlots(qs) && j != k && (j < k || ps[j / 2].locked) && SlotPt(qs, j) == Some(x);
    assert KeepsLock(qs[j / 2], rs[j / 2]);
    assert j in LockedSlots(rs) && SlotPt(rs, j) == Some(x);
  }

  lemma {:induction false} GrantedStays(ps: seq<PayloadParams>, qs: seq<PayloadParams>, rs: seq<PayloadParams>, k: int,
                                        suggested: Pt, own: Option<Pt>, x: Pt)
    requires |qs| == |ps| && KeepsLocks(qs, rs) && Granted(ps, qs, k, suggested, own, x)
    ensures Granted(ps, rs, k, suggested, own, x)
  {
    forall y: Pt | HeldEarlier(ps, qs, k, y) ensures HeldEarlier(ps, rs, k, y) {
      HeldEarlierStays(ps, qs, rs, k, y);
    }
  }

  lemma {:induction false} HonouredStays(ps: seq<PayloadParams>, first: PayloadParams, qs: seq<PayloadParams>,
                                         rs: seq<PayloadParams>, i: int)
    requires 0 <= i < |qs| == |ps| && KeepsLocks(qs, rs) && Honoured(ps, first, qs, i)
    ensures Honoured(ps, first, rs, i)
  {
    assert KeepsLock(qs[i], rs[i]);
    GrantedStays(ps, qs, rs, 2 * i, first.pt, Some(ps[i].pt), qs[i].pt);
    if first.resend.Some? {
      GrantedStays(ps, qs, rs, 2 * i + 1, first.resend.value, ps[i].resend, qs[i].resend.value);
    }
  }

  // What a claim table may hold when slot k is locked.
  ghost predicate TableBefore(ps: seq<PayloadParams>, qs: seq<PayloadParams>, k: int, t: Table)
    requires |qs| == |ps|
  {
    t.unlocked <= UnlockedPts(ps) && forall x: Pt :: x in t.claimed ==> HeldEarlier(ps, qs, k, x)
  }

  lemma LockPtGrants(ps: seq<PayloadParams>, qs: seq<PayloadParams>, k: int, t: Table, suggested: Pt, own: Option<Pt>)
    requires |qs| == |ps| && TableBefore(ps, qs, k, t) && LockPt(t, suggested, own, true).Done?
    ensures Granted(ps, qs, k, suggested, own, LockPt(t, suggested, own, true).value.0)
  {
    var x := LockPt(t, suggested, own, true).value.0;
    if x != suggested && own != Some(x) {
      assert IsFirstFree(t, Some(x));
      forall y: Pt | Preferred(y) && Rank(y) < Rank(x) ensures HeldEarlier(ps, qs, k, y) || y in UnlockedPts(ps) {
        assert !t.Free(y);
      }
    }
  }

  // A claimed PT is held by a slot locked earlier, also once entry i has been replaced.
  lemma {:induction false} ClaimedIsHeld(ps: seq<PayloadParams>, qs: seq<PayloadParams>, t: Table, i: int,
                                         q: PayloadParams, k: int, x: Pt)
    requires |qs| == |ps| && Inv(qs, LockedSlots(qs), t) && x in t.claimed
    requires 0 <= i < |qs| && !qs[i].locked && (k == 2 * i || k == 2 * i + 1)
    requires forall j :: i <= j < |qs| ==> qs[j] == ps[j]
    ensures HeldEarlier(ps, qs[i := q], k, x)
  {
    assert HeldBySettled(qs, LockedSlots(qs), x);
    var j :| j in LockedSlots(qs) && 0 <= j < 2 * |qs| && SlotPt(qs, j) == Some(x);
    assert j / 2 != i;
    assert j in LockedSlots(qs[i := q]) && SlotPt(qs[i := q], j) == Some(x);
  }

  lemma {:induction false} EntryHonoured(ps: seq<PayloadParams>, qs: seq<PayloadParams>, t: Table, i: int,
                                         p: PayloadParams, first: PayloadParams)
    requires |qs| == |ps| && Inv(qs, LockedSlots(qs), t) && t.unlocked <= UnlockedPts(ps)
    requires 0 <= i < |qs| && !qs[i].locked && forall j :: i <= j < |qs| ==> qs[j] == ps[j]
    requires p.pt == ps[i].pt && p.resend == ps[i].resend && LockEntry(p, first, t, true).Done?
    ensures Honoured(ps, first, qs[i := LockEntry(p, first, t, true).value.0], i)
  {
    var q := LockEntry(p, first, t, true).value.0;
    var rs := qs[i := q];
    forall x: Pt | x in t.claimed ensures HeldEarlier(ps, rs, 2 * i, x) && HeldEarlier(ps, rs, 2 * i + 1, x) {
      ClaimedIsHeld(ps, qs, t, i, q, 2 * i, x);
      ClaimedIsHeld(ps, qs, t, i, q, 2 * i + 1, x);
    }
    LockPtGrants(ps, rs, 2 * i, t, first.pt, Some(p.pt));
    LockPtFresh(t, first.pt, Some(p.pt), true);
    if first.resend.Some? {
      var t1 := LockPt(t, first.pt, Some(p.pt), true).value.1;
      EntrySlots(rs, i);
      assert 2 * i in LockedSlots(rs);
      assert HeldEarlier(ps, rs, 2 * i + 1, q.pt);
      LockPtGrants(ps, rs, 2 * i + 1, t1, first.resend.value, p.resend);
    }
  }

  lemma {:induction false} LockMatchingHonours(m: Matcher, ps: seq<PayloadParams>, remote: seq<PayloadParams>,
                                               t: Table, n: nat)
    requires n <= |ps| && t.unlocked <= UnlockedPts(ps)
    requires Inv(ps, LockedSlots(ps), t) && SettledClaimed(ps, LockedSlots(ps), t)
    requires LockMatching(m, ps, remote, t, true, n).Done?
    ensures var qs := LockMatching(m, ps, remote, t, true, n).value.0;
            forall i :: 0 <= i < n && !ps[i].locked ==>
              match BestMatch(m, ps[i].spec, remote)
              case None => qs[i] == ps[i]
              case Some(first) => Honoured(ps, first, qs, i)
  {
    if n > 0 {
      var i := n - 1;
      LockMatchingHonours(m, ps, remote, t, i);
      LockMatchingInv(m, ps, remote, t, true, i);
      var (qs, t1) := LockMatching(m, ps, remote, t, true, i).value;
      var rs := LockMatching(m, ps, remote, t, true, n).value.0;
      forall j | i <= j < |qs| ensures qs[j] == ps[j] {
        assert qs[i..][j - i] == ps[i..][j - i];
      }
      assert KeepsLocks(qs, rs);
      forall j | 0 <= j < i && !ps[j].locked && BestMatch(m, ps[j].spec, remote).Some?
        ensures Honoured(ps, BestMatch(m, ps[j].spec, remote).value, rs, j)
      {
        HonouredStays(ps, BestMatch(m, ps[j].spec, remote).value, qs, rs, j);
      }
      if !ps[i].locked && BestMatch(m, ps[i].spec, remote).Some? {
        var first := BestMatch(m, ps[i].spec, remote).value;
        EntryHonoured(ps, qs, t1, i, ps[i].(spec := m.mirror(ps[i].spec, first.spec)), first);
      }
    }
  }

  /**
   Where the local side controls the PTs, every unlocked entry with a match ends up
   locked with the suggestions honoured, and the others stay unlocked.
   */
  lemma {:induction false} ControllingUpdate(m: Matcher, ps: seq<PayloadParams>, remote: seq<PayloadParams>,
                                             dir: Direction)
    requires Distinct(ps) && !dir.SdpIsReceiving()
    requires UpdateParams(m, ps, remote, dir).Done?
    ensures var rs := UpdateParams(m, ps, remote, dir).value;
            forall i :: 0 <= i < |ps| && !ps[i].locked ==>
              match BestMatch(m, ps[i].spec, remote)
              case None => !rs[i].locked
              case Some(first) => Honoured(ps, first, rs, i)
  {
    var t := ClaimLocked(ps, |ps|).value;
    AfterPass1(ps, t);
    LockMatchingHonours(m, ps, remote, t, |ps|);
    var (qs, t1) := LockMatching(m, ps, remote, t, true, |ps|).value;
    ReassignKeepsLocks(qs, t1, |qs|);
    ReassignKeepsRest(qs, t1, |qs|);
    var rs := Reassign(qs, t1, |qs|).value.0;
    forall i | 0 <= i < |ps| && !ps[i].locked && BestMatch(m, ps[i].spec, remote).Some?
      ensures Honoured(ps, BestMatch(m, ps[i].spec, remote).value, rs, i)
    {
      HonouredStays(ps, BestMatch(m, ps[i].spec, remote).value, qs, rs, i);
    }
  }

  // ---- Both directions ----

  lemma {:induction false} LockingAdopts(m: Matcher, ps: seq<PayloadParams>, remote: seq<PayloadParams>, t: Table,
                                         n: nat)
    requires n <= |ps| && LockMatching(m, ps, remote, t, false, n).Done?
    ensures LockMatching(m, ps, remote, t, false, n).value.0 == AdoptedUpTo(m, ps, remote, n)
  {
    if n > 0 {
      LockingAdopts(m, ps, remote, t, n - 1);
    }
  }

  /** Entry i as the update for a line leaves it, if it was open and matches an entry of the line. */
  ghost predicate Agreed(ps: seq<PayloadParams>, first: PayloadParams, dir: Direction, rs: seq<PayloadParams>, i: int)
    requires 0 <= i < |rs| == |ps|
  {
    && rs[i].locked
    && if dir.SdpIsReceiving() then rs[i].pt == first.pt && rs[i].resend == first.resend
       else Honoured(ps, first, rs, i)
  }

  lemma {:induction false} AgreedStays(ps: seq<PayloadParams>, first: PayloadParams, dir: Direction,
                                       rs: seq<PayloadParams>, fs: seq<PayloadParams>, i: int)
    requires 0 <= i < |rs| == |ps| && KeepsLocks(rs, fs) && Agreed(ps, first, dir, rs, i)
    ensures Agreed(ps, first, dir, fs, i)
  {
    assert KeepsLock(rs[i], fs[i]);
    if !dir.SdpIsReceiving() {
      HonouredStays(ps, first, rs, fs, i);
    }
  }

  lemma {:induction false} UpdateAgrees(m: Matcher, ps: seq<PayloadParams>, remote: seq<PayloadParams>, dir: Direction,
                                        i: int)
    requires Distinct(ps) && UpdateParams(m, ps, remote, dir).Done?
    requires 0 <= i < |ps| && !ps[i].locked && BestMatch(m, ps[i].spec, remote).Some?
    ensures Agreed(ps, BestMatch(m, ps[i].spec, remote).value, dir, UpdateParams(m, ps, remote, dir).value, i)
  {
    if dir.SdpIsReceiving() {
      var t := ClaimLocked(ps, |ps|).value;
      var r := LockMatching(m, ps, remote, t, false, |ps|).value;
      LockingAdopts(m, ps, remote, t, |ps|);
      ReassignKeepsLocks(r.0, r.1, |ps|);
      assert r.0[i] == Adopted(m, ps[i], remote);
    } else {
      ControllingUpdate(m, ps, remote, dir);
    }
  }

  /**
   What a completed update has done: every entry mirrors the codec of its best match, locked entries
   keep their PTs, open ones that match are locked as agreed, and the rest keeps its PTs or moves
   to the first free ones.
   */
  ghost predicate Settled(m: Matcher, ps: seq<PayloadParams>, remote: seq<PayloadParams>, dir: Direction,
                          rs: seq<PayloadParams>)
  {
    && KeepsLocks(ps, rs) && Distinct(rs) && UnlockedKeptOrFirst(ps, rs)
    && forall i :: 0 <= i < |ps| ==>
         && Mirrors(m, ps[i], rs[i], remote)
         && (!ps[i].locked && BestMatch(m, ps[i].spec, remote).Some? ==>
               Agreed(ps, BestMatch(m, ps[i].spec, remote).value, dir, rs, i))
  }

  lemma {:induction false} UpdateSettles(m: Matcher, ps: seq<PayloadParams>, remote: seq<PayloadParams>, dir: Direction)
    requires Distinct(ps) && UpdateParams(m, ps, remote, dir).Done?
    ensures Settled(m, ps, remote, dir, UpdateParams(m, ps, remote, dir).value)
  {
    var rs, call := UpdateParams(m, ps, remote, dir).value, [Call(remote, dir)];
    assert RunUpdates(m, ps, call[..0]) == Done(ps);
    RunKeepsLocksAndDistinct(m, ps, call);
    MovedPtsAreFirst(m, ps, remote, dir);
    SpecsMirrored(m, ps, remote, dir);
    forall i | 0 <= i < |ps|
      ensures Mirrors(m, ps[i], rs[i], remote)
      ensures !ps[i].locked && BestMatch(m, ps[i].spec, remote).Some? ==>
                Agreed(ps, BestMatch(m, ps[i].spec, remote).value, dir, rs, i)
    {
      if !ps[i].locked && BestMatch(m, ps[i].spec, remote).Some? {
        UpdateAgrees(m, ps, remote, dir, i);
      }
    }
  }
}
