/**
 Uniqueness of payload types.

 The PTs of a config are numbered by slots: slot 2i is the main PT of entry i, slot
 2i + 1 its RTX PT. During an update a slot is settled once its final PT is known.
 Between the passes two slots may hold the same PT, but only a settled one and one
 that is still to be settled, and then that PT is claimed.
 */
module PtUniqueness {
  import opened Prelude
  import opened PayloadTypes
  import opened CodecNegotiation

  function SlotPt(ps: seq<PayloadParams>, k: int): Option<Pt>
    requires 0 <= k < 2 * |ps|
  {
    if k % 2 == 0 then Some(ps[k / 2].pt) else ps[k / 2].resend
  }

  function LockedSlots(ps: seq<PayloadParams>): (s: set<int>)
  {
    set k | 0 <= k < 2 * |ps| && ps[k / 2].locked
  }

  /** All main and RTX PTs of the config are pairwise distinct. */
  ghost predicate Distinct(ps: seq<PayloadParams>) {
    forall j, k :: 0 <= j < k < 2 * |ps| && SlotPt(ps, j).Some? ==> SlotPt(ps, j) != SlotPt(ps, k)
  }

  ghost predicate Inv(ps: seq<PayloadParams>, settled: set<int>, t: Table) {
    && (forall k :: 0 <= k < 2 * |ps| ==> Placed(ps, settled, t, k))
    && (forall j, k :: 0 <= j < k < 2 * |ps| ==> NoClash(ps, settled, t, j, k))
    && (forall x :: x in t.claimed ==> HeldBySettled(ps, settled, x))
  }

  // The PT of slot k counts as unlocked, or it is settled and claimed.
  ghost predicate Placed(ps: seq<PayloadParams>, settled: set<int>, t: Table, k: int)
    requires 0 <= k < 2 * |ps|
  {
    var x := SlotPt(ps, k);
    x.Some? ==> x.value in t.unlocked || (k in settled && x.value in t.claimed)
  }

  // Two slots hold the same PT only while one of them is settled and the PT is claimed.
  ghost predicate NoClash(ps: seq<PayloadParams>, settled: set<int>, t: Table, j: int, k: int)
    requires 0 <= j < k < 2 * |ps|
  {
    SlotPt(ps, j).Some? && SlotPt(ps, j) == SlotPt(ps, k) ==>
      (j in settled <==> k !in settled) && SlotPt(ps, j).value in t.claimed
  }

  ghost predicate HeldBySettled(ps: seq<PayloadParams>, settled: set<int>, x: Pt) {
    exists k :: k in settled && 0 <= k < 2 * |ps| && SlotPt(ps, k) == Some(x)
  }

  // In the locking pass every settled PT is claimed.
  ghost predicate SettledClaimed(ps: seq<PayloadParams>, settled: set<int>, t: Table) {
    forall k :: k in settled && 0 <= k < 2 * |ps| && SlotPt(ps, k).Some? ==> SlotPt(ps, k).value in t.claimed
  }

  function Put(ps: seq<PayloadParams>, k: int, v: Option<Pt>): (qs: seq<PayloadParams>)
    requires 0 <= k < 2 * |ps| && (k % 2 == 0 ==> v.Some?)
    ensures |qs| == |ps|
    ensures SlotPt(qs, k) == v
    ensures forall j :: 0 <= j < 2 * |ps| && j != k ==> SlotPt(qs, j) == SlotPt(ps, j)
  {
    if k % 2 == 0 then ps[k / 2 := ps[k / 2].(pt := v.value)] else ps[k / 2 := ps[k / 2].(resend := v)]
  }

  // Slot k may settle on x: nothing settled holds x, and only the PT of slot k stops counting as unlocked.
  ghost predicate MaySettle(ps: seq<PayloadParams>, settled: set<int>, t: Table, k: int, x: Pt, t': Table) {
    && Inv(ps, settled, t)
    && 0 <= k < 2 * |ps| && k !in settled
    && x !in t.claimed
    && (SettledClaimed(ps, settled, t) || x !in t.unlocked)
    && t'.claimed == t.claimed + {x}
    && (forall y :: y in t.unlocked && Some(y) != SlotPt(ps, k) ==> y in t'.unlocked)
    && t'.unlocked <= t.unlocked
  }

  lemma SettledPlaced(ps: seq<PayloadParams>, settled: set<int>, t: Table, k: int, x: Pt, t': Table, j: int)
    requires MaySettle(ps, settled, t, k, x, t') && 0 <= j < 2 * |ps|
    ensures Placed(Put(ps, k, Some(x)), settled + {k}, t', j)
  {
    assert Placed(ps, settled, t, j);
    if j < k {
      assert NoClash(ps, settled, t, j, k);
    } else if k < j {
      assert NoClash(ps, settled, t, k, j);
    }
  }

  lemma SettledNoClash(ps: seq<PayloadParams>, settled: set<int>, t: Table, k: int, x: Pt, t': Table, i: int, j: int)
    requires MaySettle(ps, settled, t, k, x, t') && 0 <= i < j < 2 * |ps|
    ensures NoClash(Put(ps, k, Some(x)), settled + {k}, t', i, j)
  {
    assert NoClash(ps, settled, t, i, j);
    assert Placed(ps, settled, t, i) && Placed(ps, settled, t, j);
  }

  /** Settling a slot on a PT that no settled slot holds, and claiming it. */
  lemma {:induction false} SettleClaiming(ps: seq<PayloadParams>, settled: set<int>, t: Table, k: int, x: Pt, t': Table)
    requires MaySettle(ps, settled, t, k, x, t')
    ensures Inv(Put(ps, k, Some(x)), settled + {k}, t')
    ensures SettledClaimed(ps, settled, t) ==> SettledClaimed(Put(ps, k, Some(x)), settled + {k}, t')
  {
    var qs, s' := Put(ps, k, Some(x)), settled + {k};
    forall j | 0 <= j < 2 * |qs| ensures Placed(qs, s', t', j) {
      SettledPlaced(ps, settled, t, k, x, t', j);
    }
    forall i, j | 0 <= i < j < 2 * |qs| ensures NoClash(qs, s', t', i, j) {
      SettledNoClash(ps, settled, t, k, x, t', i, j);
    }
    forall y | y in t'.claimed ensures HeldBySettled(qs, s', y) {
      if y == x {
        assert SlotPt(qs, k) == Some(y);
      } else {
        StillHeld(ps, settled, k, Some(x), y);
      }
    }
  }

  // What a settled slot holds is still held after another slot has been settled.
  lemma StillHeld(ps: seq<PayloadParams>, settled: set<int>, k: int, v: Option<Pt>, y: Pt)
    requires 0 <= k < 2 * |ps| && (k % 2 == 0 ==> v.Some?) && k !in settled && HeldBySettled(ps, settled, y)
    ensures HeldBySettled(Put(ps, k, v), settled + {k}, y)
  {
    var j :| j in settled && 0 <= j < 2 * |ps| && SlotPt(ps, j) == Some(y);
    assert SlotPt(Put(ps, k, v), j) == Some(y);
  }

  /** Settling a slot that keeps its unclaimed PT. */
  lemma {:induction false} SettleKeeping(ps: seq<PayloadParams>, settled: set<int>, t: Table, k: int)
    requires Inv(ps, settled, t)
    requires 0 <= k < 2 * |ps| && k !in settled
    requires SlotPt(ps, k).Some? && SlotPt(ps, k).value !in t.claimed
    ensures Inv(Put(ps, k, SlotPt(ps, k)), settled + {k}, t)
  {
    var v := SlotPt(ps, k);
    SettleUnclaimed(ps, settled, t, k, v);
  }

  /** Settling an RTX slot on no PT at all. */
  lemma {:induction false} SettleNone(ps: seq<PayloadParams>, settled: set<int>, t: Table, k: int)
    requires Inv(ps, settled, t)
    requires 0 <= k < 2 * |ps| && k !in settled && k % 2 == 1
    ensures Inv(Put(ps, k, None), settled + {k}, t)
    ensures SettledClaimed(ps, settled, t) ==> SettledClaimed(Put(ps, k, None), settled + {k}, t)
  {
    SettleUnclaimed(ps, settled, t, k, None);
  }

  // Settling a slot without a claim: on its own unclaimed PT, or on none.
  lemma {:induction false} SettleUnclaimed(ps: seq<PayloadParams>, settled: set<int>, t: Table, k: int, v: Option<Pt>)
    requires Inv(ps, settled, t)
    requires 0 <= k < 2 * |ps| && k !in settled && (k % 2 == 0 ==> v.Some?)
    requires v.Some? ==> v == SlotPt(ps, k) && v.value !in t.claimed
    ensures Inv(Put(ps, k, v), settled + {k}, t)
  {
    var qs, s' := Put(ps, k, v), settled + {k};
    forall j | 0 <= j < 2 * |qs| ensures Placed(qs, s', t, j) {
      assert Placed(ps, settled, t, j);
    }
    forall i, j | 0 <= i < j < 2 * |qs| ensures NoClash(qs, s', t, i, j) {
      assert NoClash(ps, settled, t, i, j);
    }
    forall y | y in t.claimed ensures HeldBySettled(qs, s', y) {
      StillHeld(ps, settled, k, v, y);
    }
  }

  /** When every slot is settled no PT is held twice. */
  lemma AllSettledDistinct(ps: seq<PayloadParams>, settled: set<int>, t: Table)
    requires Inv(ps, settled, t)
    requires forall k :: 0 <= k < 2 * |ps| ==> k in settled
    ensures Distinct(ps)
  {
    forall j, k | 0 <= j < k < 2 * |ps| && SlotPt(ps, j).Some? ensures SlotPt(ps, j) != SlotPt(ps, k) {
      assert NoClash(ps, settled, t, j, k);
      assert j in settled && k in settled;
    }
  }

  // ---- Pass 1: claiming the locked PTs ----

  function LockedBelow(ps: seq<PayloadParams>, n: int): (s: set<int>)
  {
    set k | 0 <= k < 2 * |ps| && k < 2 * n && ps[k / 2].locked
  }

  /** The locked PTs among the first n entries fit the claim table and are pairwise distinct. */
  ghost predicate LockedClean(ps: seq<PayloadParams>, n: int) {
    && (forall k :: k in LockedBelow(ps, n) && SlotPt(ps, k).Some? ==> SlotPt(ps, k).value < PT_LIMIT)
    && (forall j, k :: j in LockedBelow(ps, n) && k in LockedBelow(ps, n) && j < k && SlotPt(ps, j).Some? ==>
          SlotPt(ps, j) != SlotPt(ps, k))
  }

  ghost predicate ClaimsExactly(ps: seq<PayloadParams>, slots: set<int>, claimed: set<Pt>) {
    forall x: Pt :: x in claimed <==> HeldBySettled(ps, slots, x)
  }

  // Claiming one more slot of a set of slots.
  lemma ClaimSlot(ps: seq<PayloadParams>, slots: set<int>, t: Table, k: int)
    requires ClaimsExactly(ps, slots, t.claimed)
    requires 0 <= k < 2 * |ps| && SlotPt(ps, k).Some? && SlotPt(ps, k).value !in t.claimed
    ensures ClaimsExactly(ps, slots + {k}, t.claimed + {SlotPt(ps, k).value})
  {
    var v := SlotPt(ps, k).value;
    forall x: Pt ensures x in t.claimed + {v} <==> HeldBySettled(ps, slots + {k}, x) {
      if x == v {
        assert k in slots + {k};
      } else if HeldBySettled(ps, slots, x) {
        var j :| j in slots && 0 <= j < 2 * |ps| && SlotPt(ps, j) == Some(x);
        assert j in slots + {k};
      }
    }
  }

  // A slot without PT adds nothing.
  lemma SkipSlot(ps: seq<PayloadParams>, slots: set<int>, claimed: set<Pt>, k: int)
    requires ClaimsExactly(ps, slots, claimed)
    requires 0 <= k < 2 * |ps| && SlotPt(ps, k).None?
    ensures ClaimsExactly(ps, slots + {k}, claimed)
  {
    forall x: Pt ensures HeldBySettled(ps, slots, x) <==> HeldBySettled(ps, slots + {k}, x) {
      if HeldBySettled(ps, slots, x) {
        var j :| j in slots && 0 <= j < 2 * |ps| && SlotPt(ps, j) == Some(x);
        assert j in slots + {k};
      }
      if HeldBySettled(ps, slots + {k}, x) {
        var j :| j in slots + {k} && 0 <= j < 2 * |ps| && SlotPt(ps, j) == Some(x);
        assert j in slots;
      }
    }
  }

  // One locked entry of the first pass.
  lemma {:induction false} ClaimEntryResult(ps: seq<PayloadParams>, i: nat, t: Table)
    requires i < |ps| && ps[i].locked && LockedClean(ps, i) && ClaimsExactly(ps, LockedBelow(ps, i), t.claimed)
    ensures var r := ClaimEntry(t, ps[i]);
            && (r.Done? <==> LockedClean(ps, i + 1))
            && (r.Done? ==>
                  r.value.unlocked == t.unlocked && ClaimsExactly(ps, LockedBelow(ps, i + 1), r.value.claimed))
  {
    var p, s0 := ps[i], LockedBelow(ps, i);
    assert LockedBelow(ps, i + 1) == s0 + {2 * i} + {2 * i + 1};
    assert SlotPt(ps, 2 * i) == Some(p.pt) && SlotPt(ps, 2 * i + 1) == p.resend;
    if p.pt >= PT_LIMIT || p.pt in t.claimed {
      ClaimClash(ps, s0, t.claimed, i + 1, 2 * i);
    } else {
      ClaimSlot(ps, s0, t, 2 * i);
      var t1 := t.(claimed := t.claimed + {p.pt});
      if p.resend.None? {
        SkipSlot(ps, s0 + {2 * i}, t1.claimed, 2 * i + 1);
        CleanExtend(ps, i + 1, t);
      } else if p.resend.value >= PT_LIMIT || p.resend.value in t1.claimed {
        ClaimClash(ps, s0 + {2 * i}, t1.claimed, i + 1, 2 * i + 1);
      } else {
        ClaimSlot(ps, s0 + {2 * i}, t1, 2 * i + 1);
        CleanExtend(ps, i + 1, t);
      }
    }
  }

  /** The first pass completes exactly when the locked PTs are clean, and then claims just those. */
  lemma {:induction false} ClaimLockedResult(ps: seq<PayloadParams>, n: nat)
    requires n <= |ps|
    ensures ClaimLocked(ps, n).Done? <==> LockedClean(ps, n)
    ensures ClaimLocked(ps, n).Done? ==>
              ClaimLocked(ps, n).value.unlocked == UnlockedPts(ps) &&
              ClaimsExactly(ps, LockedBelow(ps, n), ClaimLocked(ps, n).value.claimed)
  {
    if n == 0 {
      assert LockedBelow(ps, n) == {};
    } else {
      ClaimLockedResult(ps, n - 1);
      if ClaimLocked(ps, n - 1).Panic? {
        LockedCleanMono(ps, n);
      } else if ps[n - 1].locked {
        ClaimEntryResult(ps, n - 1, ClaimLocked(ps, n - 1).value);
      } else {
        assert LockedBelow(ps, n) == LockedBelow(ps, n - 1);
      }
    }
  }

  lemma LockedCleanMono(ps: seq<PayloadParams>, n: int)
    requires 0 < n <= |ps|
    ensures LockedClean(ps, n) ==> LockedClean(ps, n - 1)
  {
    assert forall k :: k in LockedBelow(ps, n - 1) ==> k in LockedBelow(ps, n);
  }

  // A claim that fails shows a PT out of range or held by two locked slots.
  lemma ClaimClash(ps: seq<PayloadParams>, slots: set<int>, claimed: set<Pt>, n: int, k: int)
    requires ClaimsExactly(ps, slots, claimed)
    requires forall j :: j in slots ==> j < k && j in LockedBelow(ps, n)
    requires k in LockedBelow(ps, n) && SlotPt(ps, k).Some?
    requires SlotPt(ps, k).value >= PT_LIMIT || SlotPt(ps, k).value in claimed
    ensures !LockedClean(ps, n)
  {
    if SlotPt(ps, k).value in claimed {
      assert HeldBySettled(ps, slots, SlotPt(ps, k).value);
    }
  }

  lemma CleanExtend(ps: seq<PayloadParams>, n: int, t: Table)
    requires 0 < n <= |ps| && LockedClean(ps, n - 1) && ps[n - 1].locked
    requires ClaimsExactly(ps, LockedBelow(ps, n - 1), t.claimed)
    requires ps[n - 1].pt < PT_LIMIT && ps[n - 1].pt !in t.claimed
    requires ps[n - 1].resend.Some? ==>
               ps[n - 1].resend.value < PT_LIMIT && ps[n - 1].resend.value !in t.claimed + {ps[n - 1].pt}
    ensures LockedClean(ps, n)
  {
    var i := n - 1;
    assert SlotPt(ps, 2 * i) == Some(ps[i].pt) && SlotPt(ps, 2 * i + 1) == ps[i].resend;
    forall k | k in LockedBelow(ps, n) && k !in LockedBelow(ps, n - 1) ensures k == 2 * i || k == 2 * i + 1 {}
    forall j | j in LockedBelow(ps, n - 1) && SlotPt(ps, j).Some?
      ensures SlotPt(ps, j).value in t.claimed
    {
      assert HeldBySettled(ps, LockedBelow(ps, n - 1), SlotPt(ps, j).value);
    }
  }

  lemma AfterPass1(ps: seq<PayloadParams>, t: Table)
    requires Distinct(ps) && ClaimLocked(ps, |ps|) == Done(t)
    ensures Inv(ps, LockedSlots(ps), t) && SettledClaimed(ps, LockedSlots(ps), t)
    ensures t.unlocked == UnlockedPts(ps)
  {
    ClaimLockedResult(ps, |ps|);
    assert LockedBelow(ps, |ps|) == LockedSlots(ps);
    forall k | 0 <= k < 2 * |ps| && SlotPt(ps, k).Some?
      ensures k in LockedSlots(ps) ==> SlotPt(ps, k).value in t.claimed
      ensures k !in LockedSlots(ps) ==> SlotPt(ps, k).value in t.unlocked
    {
      if k in LockedSlots(ps) {
        assert HeldBySettled(ps, LockedSlots(ps), SlotPt(ps, k).value);
      } else {
        assert !ps[k / 2].locked;
      }
    }
  }

  // ---- Pass 2: locking the matched entries ----

  lemma SameSlots(ps: seq<PayloadParams>, qs: seq<PayloadParams>, settled: set<int>, t: Table)
    requires |ps| == |qs| && Inv(ps, settled, t)
    requires forall k :: 0 <= k < 2 * |ps| ==> SlotPt(ps, k) == SlotPt(qs, k)
    ensures Inv(qs, settled, t)
    ensures SettledClaimed(ps, settled, t) ==> SettledClaimed(qs, settled, t)
  {
    forall k | 0 <= k < 2 * |qs| ensures Placed(qs, settled, t, k) {
      assert Placed(ps, settled, t, k);
    }
    forall j, k | 0 <= j < k < 2 * |qs| ensures NoClash(qs, settled, t, j, k) {
      assert NoClash(ps, settled, t, j, k);
    }
    forall y | y in t.claimed ensures HeldBySettled(qs, settled, y) {
      assert HeldBySettled(ps, settled, y);
      var j :| j in settled && 0 <= j < 2 * |ps| && SlotPt(ps, j) == Some(y);
      assert SlotPt(qs, j) == Some(y);
    }
  }

  // Writing both slots of an entry is writing the entry, as far as PTs are concerned.
  lemma PutEntry(ps: seq<PayloadParams>, i: int, q: PayloadParams)
    requires 0 <= i < |ps|
    ensures var qs := Put(Put(ps, 2 * i, Some(q.pt)), 2 * i + 1, q.resend);
            forall k :: 0 <= k < 2 * |ps| ==> SlotPt(qs, k) == SlotPt(ps[i := q], k)
  {
    forall k | 0 <= k < 2 * |ps| && k != 2 * i && k != 2 * i + 1 ensures k / 2 != i {}
  }

  lemma LockPtFresh(t: Table, demanded: Pt, own: Option<Pt>, ctl: bool)
    requires LockPt(t, demanded, own, ctl).Done?
    ensures var (x, t') := LockPt(t, demanded, own, ctl).value;
            && x < PT_LIMIT && x !in t.claimed
            && t'.claimed == t.claimed + {x}
            && t'.unlocked <= t.unlocked
            && (forall y :: y in t.unlocked && Some(y) != own ==> y in t'.unlocked)
  {
  }

  // Locking one slot, whose own PT is the fallback.
  lemma {:induction false} LockSlotInv(ps: seq<PayloadParams>, settled: set<int>, t: Table, k: int, demanded: Pt,
                                       ctl: bool)
    requires Inv(ps, settled, t) && SettledClaimed(ps, settled, t) && 0 <= k < 2 * |ps| && k !in settled
    requires LockPt(t, demanded, SlotPt(ps, k), ctl).Done?
    ensures var (x, t') := LockPt(t, demanded, SlotPt(ps, k), ctl).value;
            && Inv(Put(ps, k, Some(x)), settled + {k}, t') && SettledClaimed(Put(ps, k, Some(x)), settled + {k}, t')
            && t'.unlocked <= t.unlocked
  {
    LockPtFresh(t, demanded, SlotPt(ps, k), ctl);
    var (x, t') := LockPt(t, demanded, SlotPt(ps, k), ctl).value;
    SettleClaiming(ps, settled, t, k, x, t');
  }

  function PutBoth(ps: seq<PayloadParams>, i: int, pt: Pt, resend: Option<Pt>): seq<PayloadParams>
    requires 0 <= i < |ps|
  {
    Put(Put(ps, 2 * i, Some(pt)), 2 * i + 1, resend)
  }

  // From the two slots of an entry to the entry.
  lemma {:induction false} EntryFromSlots(ps: seq<PayloadParams>, settled: set<int>, t: Table, i: int, q: PayloadParams)
    requires 0 <= i < |ps| && Inv(PutBoth(ps, i, q.pt, q.resend), settled + {2 * i} + {2 * i + 1}, t)
    ensures Inv(ps[i := q], settled + {2 * i, 2 * i + 1}, t)
    ensures SettledClaimed(PutBoth(ps, i, q.pt, q.resend), settled + {2 * i} + {2 * i + 1}, t) ==>
              SettledClaimed(ps[i := q], settled + {2 * i, 2 * i + 1}, t)
  {
    assert settled + {2 * i} + {2 * i + 1} == settled + {2 * i, 2 * i + 1};
    PutEntry(ps, i, q);
    SameSlots(PutBoth(ps, i, q.pt, q.resend), ps[i := q], settled + {2 * i, 2 * i + 1}, t);
  }

  // The two slots of an entry.
  lemma EntrySlots(ps: seq<PayloadParams>, i: int)
    requires 0 <= i < |ps|
    ensures SlotPt(ps, 2 * i) == Some(ps[i].pt) && SlotPt(ps, 2 * i + 1) == ps[i].resend && (2 * i + 1) % 2 == 1
  {
  }

  // The second slot of an entry, once the first one is settled.
  lemma {:induction false} LockSecondSlot(ps: seq<PayloadParams>, settled: set<int>, t: Table, k: int,
                                          first: PayloadParams, p: PayloadParams, ctl: bool)
    requires Inv(ps, settled, t) && SettledClaimed(ps, settled, t) && 0 <= k < 2 * |ps| && k !in settled && k % 2 == 1
    requires SlotPt(ps, k) == p.resend
    requires first.resend.Some? ==> LockPt(t, first.resend.value, p.resend, ctl).Done?
    ensures var (r, t') := if first.resend.None? then (None, t) else
                             var (x, t2) := LockPt(t, first.resend.value, p.resend, ctl).value; (Some(x), t2);
            && Inv(Put(ps, k, r), settled + {k}, t') && SettledClaimed(Put(ps, k, r), settled + {k}, t')
            && t'.unlocked <= t.unlocked
  {
    if first.resend.None? {
      SettleNone(ps, settled, t, k);
    } else {
      LockSlotInv(ps, settled, t, k, first.resend.value, ctl);
    }
  }

  lemma {:induction false} LockEntryInv(ps: seq<PayloadParams>, settled: set<int>, t: Table, i: int,
                                        p: PayloadParams, first: PayloadParams, ctl: bool)
    requires 0 <= i < |ps| && p.pt == ps[i].pt && p.resend == ps[i].resend
    requires Inv(ps, settled, t) && SettledClaimed(ps, settled, t)
    requires 2 * i !in settled && 2 * i + 1 !in settled
    requires LockEntry(p, first, t, ctl).Done?
    ensures var (q, t') := LockEntry(p, first, t, ctl).value;
            && Inv(ps[i := q], settled + {2 * i, 2 * i + 1}, t')
            && SettledClaimed(ps[i := q], settled + {2 * i, 2 * i + 1}, t')
            && t'.unlocked <= t.unlocked
  {
    var (q, t') := LockEntry(p, first, t, ctl).value;
    EntrySlots(ps, i);
    LockSlotInv(ps, settled, t, 2 * i, first.pt, ctl);
    var (pt, t1) := LockPt(t, first.pt, Some(p.pt), ctl).value;
    LockSecondSlot(Put(ps, 2 * i, Some(pt)), settled + {2 * i}, t1, 2 * i + 1, first, p, ctl);
    EntryFromSlots(ps, settled, t', i, q);
  }

  lemma {:induction false} LockMatchingInv(m: Matcher, ps: seq<PayloadParams>, remote: seq<PayloadParams>,
                                           t: Table, ctl: bool, n: nat)
    requires n <= |ps|
    requires Inv(ps, LockedSlots(ps), t) && SettledClaimed(ps, LockedSlots(ps), t)
    requires LockMatching(m, ps, remote, t, ctl, n).Done?
    ensures var (qs, t') := LockMatching(m, ps, remote, t, ctl, n).value;
            && Inv(qs, LockedSlots(qs), t') && SettledClaimed(qs, LockedSlots(qs), t')
            && t'.unlocked <= t.unlocked
  {
    if n > 0 {
      LockMatchingInv(m, ps, remote, t, ctl, n - 1);
      var i := n - 1;
      var (qs, t1) := LockMatching(m, ps, remote, t, ctl, i).value;
      var (q, t2) := UpdateParam(m, qs[i], remote, t1, ctl).value;
      UpdateParamInv(m, qs, remote, t1, ctl, i);
    }
  }

  lemma {:induction false} UpdateParamInv(m: Matcher, qs: seq<PayloadParams>, remote: seq<PayloadParams>,
                                          t: Table, ctl: bool, i: int)
    requires 0 <= i < |qs|
    requires Inv(qs, LockedSlots(qs), t) && SettledClaimed(qs, LockedSlots(qs), t)
    requires UpdateParam(m, qs[i], remote, t, ctl).Done?
    ensures var (q, t') := UpdateParam(m, qs[i], remote, t, ctl).value;
            var rs := qs[i := q];
            && Inv(rs, LockedSlots(rs), t') && SettledClaimed(rs, LockedSlots(rs), t')
            && t'.unlocked <= t.unlocked
  {
    var (q, t') := UpdateParam(m, qs[i], remote, t, ctl).value;
    var rs := qs[i := q];
    if BestMatch(m, qs[i].spec, remote).None? || qs[i].locked {
      assert LockedSlots(rs) == LockedSlots(qs);
      SameSlots(qs, rs, LockedSlots(qs), t);
    } else {
      var first := BestMatch(m, qs[i].spec, remote).value;
      var p := qs[i].(spec := m.mirror(qs[i].spec, first.spec));
      LockEntryInv(qs, LockedSlots(qs), t, i, p, first, ctl);
      assert q.locked;
      assert LockedSlots(rs) == LockedSlots(qs) + {2 * i, 2 * i + 1};
    }
  }

  // ---- Pass 3: reassigning the unlocked entries ----

  // Slots settled once the first n entries have been through the last pass.
  function SettledBelow(ps: seq<PayloadParams>, n: int): (s: set<int>)
  {
    set k | 0 <= k < 2 * |ps| && (k < 2 * n || ps[k / 2].locked)
  }

  lemma {:induction false} ReassignSlotInv(ps: seq<PayloadParams>, settled: set<int>, t: Table, k: int)
    requires Inv(ps, settled, t) && 0 <= k < 2 * |ps| && k !in settled
    requires SlotPt(ps, k).Some? && ReassignPt(t, SlotPt(ps, k).value).Done?
    ensures var (x, t') := ReassignPt(t, SlotPt(ps, k).value).value;
            && Inv(Put(ps, k, Some(x)), settled + {k}, t')
            && t'.unlocked == t.unlocked
  {
    var (x, t') := ReassignPt(t, SlotPt(ps, k).value).value;
    if SlotPt(ps, k).value in t.claimed {
      SettleClaiming(ps, settled, t, k, x, t');
      assert t'.unlocked == t.unlocked;
    } else {
      SettleKeeping(ps, settled, t, k);
    }
  }

  // The second slot of an entry, which may have no PT.
  lemma {:induction false} ReassignSecondSlot(ps: seq<PayloadParams>, settled: set<int>, t: Table, k: int)
    requires Inv(ps, settled, t) && 0 <= k < 2 * |ps| && k !in settled && k % 2 == 1
    requires SlotPt(ps, k).Some? ==> ReassignPt(t, SlotPt(ps, k).value).Done?
    ensures var (r, t') := if SlotPt(ps, k).None? then (None, t) else
                             var (x, t2) := ReassignPt(t, SlotPt(ps, k).value).value; (Some(x), t2);
            Inv(Put(ps, k, r), settled + {k}, t') && t'.unlocked == t.unlocked
  {
    if SlotPt(ps, k).None? {
      SettleNone(ps, settled, t, k);
    } else {
      ReassignSlotInv(ps, settled, t, k);
    }
  }

  lemma {:induction false} ReassignEntryInv(ps: seq<PayloadParams>, settled: set<int>, t: Table, i: int)
    requires 0 <= i < |ps| && !ps[i].locked
    requires Inv(ps, settled, t) && 2 * i !in settled && 2 * i + 1 !in settled
    requires ReassignEntry(ps[i], t).Done?
    ensures var (q, t') := ReassignEntry(ps[i], t).value;
            && Inv(ps[i := q], settled + {2 * i, 2 * i + 1}, t')
            && t'.unlocked == t.unlocked
  {
    var p := ps[i];
    var (q, t') := ReassignEntry(p, t).value;
    EntrySlots(ps, i);
    ReassignSlotInv(ps, settled, t, 2 * i);
    var (pt, t1) := ReassignPt(t, p.pt).value;
    ReassignSecondSlot(Put(ps, 2 * i, Some(pt)), settled + {2 * i}, t1, 2 * i + 1);
    EntryFromSlots(ps, settled, t', i, q);
  }

  lemma {:induction false} ReassignStep(qs: seq<PayloadParams>, t: Table, i: int)
    requires 0 <= i < |qs| && Inv(qs, SettledBelow(qs, i), t) && ReassignEntry(qs[i], t).Done?
    ensures var r := ReassignEntry(qs[i], t).value;
            Inv(qs[i := r.0], SettledBelow(qs[i := r.0], i + 1), r.1) && r.1.unlocked == t.unlocked
  {
    var r := ReassignEntry(qs[i], t).value;
    var rs := qs[i := r.0];
    if qs[i].locked {
      assert rs == qs;
      assert SettledBelow(qs, i + 1) == SettledBelow(qs, i);
    } else {
      ReassignEntryInv(qs, SettledBelow(qs, i), t, i);
      SettledGrows(qs, i, r.0);
    }
  }

  lemma SettledGrows(qs: seq<PayloadParams>, i: int, q: PayloadParams)
    requires 0 <= i < |qs|
    ensures SettledBelow(qs[i := q], i + 1) == SettledBelow(qs, i) + {2 * i, 2 * i + 1}
  {
    forall k | 0 <= k < 2 * |qs| && k != 2 * i && k != 2 * i + 1 ensures k / 2 != i {}
  }

  lemma {:induction false} ReassignInv(ps: seq<PayloadParams>, t: Table, n: nat)
    requires n <= |ps| && Inv(ps, LockedSlots(ps), t)
    requires Reassign(ps, t, n).Done?
    ensures var r := Reassign(ps, t, n).value; Inv(r.0, SettledBelow(r.0, n), r.1) && r.1.unlocked == t.unlocked
  {
    if n == 0 {
      assert SettledBelow(ps, 0) == LockedSlots(ps);
    } else {
      ReassignInv(ps, t, n - 1);
      var r := Reassign(ps, t, n - 1).value;
      ReassignStep(r.0, r.1, n - 1);
    }
  }

  /**
   Uniqueness: whatever the remote sends and whichever side controls the PTs, a
   completed update of a config with distinct PTs yields distinct PTs.
   */
  lemma {:induction false} UpdateKeepsDistinct(m: Matcher, ps: seq<PayloadParams>, remote: seq<PayloadParams>,
                                               dir: Direction)
    requires Distinct(ps)
    requires UpdateParams(m, ps, remote, dir).Done?
    ensures Distinct(UpdateParams(m, ps, remote, dir).value)
  {
    var ctl := !dir.SdpIsReceiving();
    var t := ClaimLocked(ps, |ps|).value;
    AfterPass1(ps, t);
    LockMatchingInv(m, ps, remote, t, ctl, |ps|);
    var (qs, t1) := LockMatching(m, ps, remote, t, ctl, |ps|).value;
    ReassignInv(qs, t1, |qs|);
    var (rs, t2) := Reassign(qs, t1, |qs|).value;
    AllSettledDistinct(rs, SettledBelow(rs, |rs|), t2);
  }
}
