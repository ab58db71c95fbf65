/**
 The table of claimed payload types (PTs) and the search for a free one.

 `claimed` is the 128-entry table of PTs already given out during one negotiation;
 `unlocked` holds the PTs of entries that the remote has not confirmed, which the
 search must avoid.
 */
module PayloadTypes {
  import opened Prelude

  // A PT is a u8; only values below 128 index the claim table.
  type Pt = n: int | 0 <= n < 256
  const PT_LIMIT := 128

  /** Inclusive ranges of dynamically assignable PTs, most preferred first. */
  const PREFERRED_RANGES: seq<(int, int)> := [(96, 127), (80, 95), (77, 78), (35, 71)]

  predicate Preferred(pt: int) {
    35 <= pt <= 71 || 77 <= pt <= 78 || 80 <= pt <= 127
  }

  // The number of values in the preferred ranges.
  const PREFERRED_COUNT := 87

  datatype Table = Table(claimed: set<Pt>, unlocked: set<Pt>) {
    ghost predicate Valid() {
      forall pt :: pt in claimed ==> pt < PT_LIMIT
    }

    ghost predicate Free(pt: int) {
      && 0 <= pt < PT_LIMIT
      && pt !in claimed
      && pt !in unlocked
    }
  }

  // Rank in the search order: range by range, ascending inside a range.
  ghost function Rank(pt: int): int
    requires Preferred(pt)
  {
    if 96 <= pt then pt - 96
    else if 80 <= pt then 32 + (pt - 80)
    else if 77 <= pt then 48 + (pt - 77)
    else 50 + (pt - 35)
  }

  // Rank of the first PT of the k-th preferred range.
  ghost function RangeRank(k: int): int {
    if k <= 0 then 0 else if k == 1 then 32 else if k == 2 then 48 else if k == 3 then 50 else PREFERRED_COUNT
  }

  /** The free PT of least rank, if the preferred ranges hold any free PT at all. */
  ghost predicate IsFirstFree(t: Table, r: Option<Pt>) {
    match r
    case None => forall pt :: Preferred(pt) ==> !t.Free(pt)
    case Some(x) =>
      && Preferred(x) && t.Free(x)
      && forall pt :: Preferred(pt) && t.Free(pt) ==> Rank(x) <= Rank(pt)
  }

  function FindInRange(t: Table, lo: int, hi: int): (r: Option<Pt>)
    requires 0 <= lo <= hi + 1 <= PT_LIMIT
    ensures r.None? ==> forall pt :: lo <= pt <= hi ==> !t.Free(pt)
    ensures r.Some? ==> lo <= r.value <= hi && t.Free(r.value)
    ensures r.Some? ==> forall pt :: lo <= pt < r.value ==> !t.Free(pt)
    decreases hi + 1 - lo
  {
    if hi < lo then None
    else if lo !in t.claimed && lo !in t.unlocked then Some(lo)
    else FindInRange(t, lo + 1, hi)
  }

  function FindUnclaimed(t: Table): (r: Option<Pt>)
    ensures IsFirstFree(t, r)
  {
    var a := FindInRange(t, 96, 127);
    if a.Some? then a else
    var b := FindInRange(t, 80, 95);
    if b.Some? then b else
    var c := FindInRange(t, 77, 78);
    if c.Some? then c else
    FindInRange(t, 35, 71)
  }

  lemma {:induction false} IntervalSize(s: set<int>, lo: int, hi: int)
    requires lo <= hi
    requires forall x :: x in s <==> lo <= x < hi
    ensures |s| == hi - lo
    decreases hi - lo
  {
    if lo == hi {
      assert forall x :: x !in s;
    } else {
      IntervalSize(s - {hi - 1}, lo, hi - 1);
    }
  }

  lemma {:induction false} PreferredCount(s: set<int>)
    requires forall x :: x in s <==> Preferred(x)
    ensures |s| == PREFERRED_COUNT
  {
    var a := set x | x in s && 35 <= x < 72;
    var b := set x | x in s && 77 <= x < 79;
    var c := set x | x in s && 80 <= x < 128;
    IntervalSize(a, 35, 72);
    IntervalSize(b, 77, 79);
    IntervalSize(c, 80, 128);
    assert s == a + b + c;
  }

  /**
   The pigeonhole argument: fewer than 87 blocked PTs leave a free one.
   */
  lemma {:induction false} EnoughFree(t: Table)
    requires |t.claimed| + |t.unlocked| < PREFERRED_COUNT
    ensures FindUnclaimed(t).Some?
  {
    if FindUnclaimed(t).None? {
      var s := set x: int | 35 <= x < 128 && Preferred(x);
      PreferredCount(s);
      var blocked: set<int> := t.claimed + t.unlocked;
      forall x | x in s ensures x in blocked {
        assert Preferred(x) && !t.Free(x);
      }
      SubsetSize(s, blocked);
      assert false;
    }
  }

  // ---- The claim table as the 128-entry array the code keeps ----

  ghost function ClaimedSet(a: array<bool>): (s: set<Pt>)
    reads a
    requires a.Length == PT_LIMIT
  {
    set i: Pt | 0 <= i < PT_LIMIT && a[i]
  }

  /** Claims `pt`, or reports the panic of an out-of-range or repeated claim. */
  method AssertClaimOnce(a: array<bool>, pt: Pt) returns (ok: bool)
    requires a.Length == PT_LIMIT
    modifies a
    ensures ok <==> pt < PT_LIMIT && pt !in old(ClaimedSet(a))
    ensures ok ==> ClaimedSet(a) == old(ClaimedSet(a)) + {pt}
    ensures !ok ==> a[..] == old(a[..])
  {
    if pt >= PT_LIMIT || a[pt] {
      return false;
    }
    a[pt] := true;
    ok := true;
  }

  /** Scans the preferred ranges in order for a PT that is neither claimed nor unlocked. */
  method SearchUnclaimed(a: array<bool>, unlocked: set<Pt>) returns (r: Option<Pt>)
    requires a.Length == PT_LIMIT
    ensures IsFirstFree(Table(ClaimedSet(a), unlocked), r)
  {
    ghost var t := Table(ClaimedSet(a), unlocked);
    for k := 0 to |PREFERRED_RANGES|
      invariant forall pt :: Preferred(pt) && Rank(pt) < RangeRank(k) ==> !t.Free(pt)
    {
      var i := PREFERRED_RANGES[k].0;
      while i <= PREFERRED_RANGES[k].1
        invariant PREFERRED_RANGES[k].0 <= i <= PREFERRED_RANGES[k].1 + 1
        invariant forall pt :: PREFERRED_RANGES[k].0 <= pt < i ==> !t.Free(pt)
      {
        if !a[i] && i !in unlocked {
          return Some(i);
        }
        i := i + 1;
      }
    }
    r := None;
  }

  /** The search is deterministic: at most one answer is the first free PT. */
  lemma FirstFreeUnique(t: Table, r: Option<Pt>, r': Option<Pt>)
    requires IsFirstFree(t, r) && IsFirstFree(t, r')
    ensures r == r'
  {
    if r.Some? && r'.Some? {
      assert Rank(r.value) == Rank(r'.value);
    }
  }
}
