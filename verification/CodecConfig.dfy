/** The codec configuration as the object whose entries `update_params` changes in place. */
module CodecConfiguration {
  import opened Prelude
  import opened PayloadTypes
  import N = CodecNegotiation
  import U = PtUniqueness
  import C = PtCompletion
  import H = PtChoices

  // A pass that has failed for the first entries has failed for all of them.
  lemma {:induction false} ClaimLockedStuck(ps: seq<N.PayloadParams>, n: nat)
    requires n <= |ps| && N.ClaimLocked(ps, n).Panic?
    ensures N.ClaimLocked(ps, |ps|).Panic?
    decreases |ps| - n
  {
    if n < |ps| {
      ClaimLockedStuck(ps, n + 1);
    }
  }

  lemma {:induction false} LockMatchingStuck(m: N.Matcher, ps: seq<N.PayloadParams>, remote: seq<N.PayloadParams>,
                                             t: Table, ctl: bool, n: nat)
    requires n <= |ps| && N.LockMatching(m, ps, remote, t, ctl, n).Panic?
    ensures N.LockMatching(m, ps, remote, t, ctl, |ps|).Panic?
    decreases |ps| - n
  {
    if n < |ps| {
      LockMatchingStuck(m, ps, remote, t, ctl, n + 1);
    }
  }

  lemma LockMatchingNext(m: N.Matcher, ps: seq<N.PayloadParams>, remote: seq<N.PayloadParams>, t: Table, ctl: bool,
                         n: nat, qs: seq<N.PayloadParams>, t1: Table)
    requires n < |ps| && N.LockMatching(m, ps, remote, t, ctl, n) == Done((qs, t1))
    ensures |qs| == |ps|
    ensures N.LockMatching(m, ps, remote, t, ctl, n + 1) ==
              match N.UpdateParam(m, qs[n], remote, t1, ctl)
              case Panic => Panic
              case Done(r) => Done((qs[n := r.0], r.1))
  {
  }

  lemma {:induction false} ReassignStuck(ps: seq<N.PayloadParams>, t: Table, n: nat)
    requires n <= |ps| && N.Reassign(ps, t, n).Panic?
    ensures N.Reassign(ps, t, |ps|).Panic?
    decreases |ps| - n
  {
    if n < |ps| {
      ReassignStuck(ps, t, n + 1);
    }
  }

  /** The remote entry with the highest score, found by one scan that keeps the later of equals. */
  method FindBestMatch(m: N.Matcher, spec: N.CodecSpec, remote: seq<N.PayloadParams>)
    returns (r: Option<N.PayloadParams>)
    ensures r == N.BestMatch(m, spec, remote)
    ensures N.IsBestMatch(m, spec, remote, r)
  {
    var best: Option<nat> := None;
    for n := 0 to |remote|
      invariant best == N.BestIndex(m, spec, remote, n)
    {
      var s := m.score(spec, remote[n].spec);
      if s.Some? && (best.None? || m.score(spec, remote[best.value].spec).value <= s.value) {
        best := Some(n);
      }
    }
    r := if best.None? then None else Some(remote[best.value]);
    N.BestMatchIs(m, spec, remote);
  }

  /** Locks one PT: the demanded one, or if that is taken and we may choose, another. */
  method LockPt(a: array<bool>, unlocked: set<Pt>, demanded: Pt, own: Option<Pt>, localControls: bool)
    returns (ok: bool, pt: Pt, unlocked': set<Pt>)
    requires a.Length == PT_LIMIT
    modifies a
    ensures ok <==> N.LockPt(old(Table(ClaimedSet(a), unlocked)), demanded, own, localControls).Done?
    ensures ok ==> N.LockPt(old(Table(ClaimedSet(a), unlocked)), demanded, own, localControls).value
                     == (pt, Table(ClaimedSet(a), unlocked'))
  {
    ghost var t := Table(ClaimedSet(a), unlocked);
    ok, pt, unlocked' := false, demanded, unlocked;
    if localControls {
      if demanded >= PT_LIMIT {
        return;
      }
      if a[demanded] {
        var choice: Option<Pt> := None;
        if own.Some? {
          if own.value >= PT_LIMIT {
            return;
          }
          if !a[own.value] {
            choice := own;
          }
        }
        if choice.None? {
          choice := SearchUnclaimed(a, unlocked);
          FirstFreeUnique(t, choice, FindUnclaimed(t));
        }
        if choice.None? {
          return;
        }
        pt := choice.value;
        unlocked' := unlocked - {pt};
      }
    }
    ok := AssertClaimOnce(a, pt);
  }

  method UpdateParam(m: N.Matcher, p: N.PayloadParams, remote: seq<N.PayloadParams>, a: array<bool>,
                     localControls: bool, unlocked: set<Pt>)
    returns (ok: bool, q: N.PayloadParams, unlocked': set<Pt>)
    requires a.Length == PT_LIMIT
    modifies a
    ensures ok <==> N.UpdateParam(m, p, remote, old(Table(ClaimedSet(a), unlocked)), localControls).Done?
    ensures ok ==> N.UpdateParam(m, p, remote, old(Table(ClaimedSet(a), unlocked)), localControls).value
                     == (q, Table(ClaimedSet(a), unlocked'))
  {
    q, unlocked' := p, unlocked;
    var best := FindBestMatch(m, p.spec, remote);
    if best.None? {
      return true, q, unlocked';
    }
    var first := best.value;
    q := q.(spec := m.mirror(p.spec, first.spec));
    if p.locked {
      return true, q, unlocked';
    }
    var pt: Pt;
    ok, pt, unlocked' := LockPt(a, unlocked', first.pt, Some(q.pt), localControls);
    if !ok {
      return;
    }
    q := q.(pt := pt);
    if first.resend.Some? {
      var rtx: Pt;
      ok, rtx, unlocked' := LockPt(a, unlocked', first.resend.value, q.resend, localControls);
      if !ok {
        return;
      }
      q := q.(resend := Some(rtx));
    } else {
      q := q.(resend := None);
    }
    q := q.(locked := true);
  }

  /** Keeps an unconfirmed PT, or replaces it by the first free one if it has been claimed. */
  method ReassignPt(a: array<bool>, unlocked: set<Pt>, pt: Pt) returns (ok: bool, pt': Pt, unlocked': set<Pt>)
    requires a.Length == PT_LIMIT
    modifies a
    ensures ok <==> N.ReassignPt(old(Table(ClaimedSet(a), unlocked)), pt).Done?
    ensures ok ==> N.ReassignPt(old(Table(ClaimedSet(a), unlocked)), pt).value == (pt', Table(ClaimedSet(a), unlocked'))
    ensures ok && pt !in old(ClaimedSet(a)) ==> pt' == pt
    ensures ok && pt in old(ClaimedSet(a)) ==> IsFirstFree(old(Table(ClaimedSet(a), unlocked)), Some(pt'))
  {
    ghost var t := Table(ClaimedSet(a), unlocked);
    ok, pt', unlocked' := false, pt, unlocked;
    if pt >= PT_LIMIT {
      return;
    }
    if a[pt] {
      var free := SearchUnclaimed(a, unlocked);
      FirstFreeUnique(t, free, FindUnclaimed(t));
      if free.None? {
        return;
      }
      pt' := free.value;
      ok := AssertClaimOnce(a, pt');
      unlocked' := unlocked - {pt'};
    } else {
      ok := true;
    }
  }

  /** Moves the PTs of one unconfirmed entry out of the way of claimed ones, to the first that are free. */
  method ReassignOne(a: array<bool>, unlocked: set<Pt>, p: N.PayloadParams)
    returns (ok: bool, q: N.PayloadParams, unlocked': set<Pt>)
    requires a.Length == PT_LIMIT && !p.locked
    modifies a
    ensures var r := N.ReassignEntry(p, old(Table(ClaimedSet(a), unlocked)));
            (ok <==> r.Done?) && (ok ==> r.value == (q, Table(ClaimedSet(a), unlocked')))
    ensures ok ==> if p.pt in old(ClaimedSet(a)) then IsFirstFree(old(Table(ClaimedSet(a), unlocked)), Some(q.pt))
                   else q.pt == p.pt
  {
    q := p;
    var pt: Pt;
    ok, pt, unlocked' := ReassignPt(a, unlocked, p.pt);
    if !ok {
      return;
    }
    q := q.(pt := pt);
    if q.resend.Some? {
      var rtx: Pt;
      ok, rtx, unlocked' := ReassignPt(a, unlocked', q.resend.value);
      q := q.(resend := Some(rtx));
    }
  }

  class CodecConfig {
    var params: seq<N.PayloadParams>

    constructor (params: seq<N.PayloadParams>)
      ensures this.params == params
    {
      this.params := params;
    }

    // The passes of an update, in order.

    method ClaimLockedPass(claimed: array<bool>, unlocked: set<Pt>) returns (ok: bool)
      requires claimed.Length == PT_LIMIT && ClaimedSet(claimed) == {} && unlocked == N.UnlockedPts(params)
      modifies claimed
      ensures ok <==> N.ClaimLocked(params, |params|).Done?
      ensures ok ==> N.ClaimLocked(params, |params|).value == Table(ClaimedSet(claimed), unlocked)
    {
      for n := 0 to |params|
        invariant N.ClaimLocked(params, n) == Done(Table(ClaimedSet(claimed), unlocked))
      {
        if params[n].locked {
          ok := AssertClaimOnce(claimed, params[n].pt);
          if ok && params[n].resend.Some? {
            ok := AssertClaimOnce(claimed, params[n].resend.value);
          }
          if !ok {
            ClaimLockedStuck(params, n + 1);
            return;
          }
        }
      }
      ok := true;
    }

    method LockPass(m: N.Matcher, remote: seq<N.PayloadParams>, claimed: array<bool>, localControls: bool,
                    unlocked: set<Pt>)
      returns (ok: bool, unlocked': set<Pt>)
      requires claimed.Length == PT_LIMIT
      modifies this, claimed
      ensures var r := N.LockMatching(m, old(params), remote, old(Table(ClaimedSet(claimed), unlocked)),
                         localControls, |old(params)|);
              (ok <==> r.Done?) && (ok ==> r.value == (params, Table(ClaimedSet(claimed), unlocked')))
    {
      ghost var ps, t := params, Table(ClaimedSet(claimed), unlocked);
      unlocked' := unlocked;
      for n := 0 to |params|
        invariant |params| == |ps| && forall i :: n <= i < |ps| ==> params[i] == ps[i]
        invariant N.LockMatching(m, ps, remote, t, localControls, n)
                    == Done((params, Table(ClaimedSet(claimed), unlocked')))
      {
        var q: N.PayloadParams;
        ghost var r := N.UpdateParam(m, params[n], remote, Table(ClaimedSet(claimed), unlocked'), localControls);
        LockMatchingNext(m, ps, remote, t, localControls, n, params, Table(ClaimedSet(claimed), unlocked'));
        ok, q, unlocked' := UpdateParam(m, params[n], remote, claimed, localControls, unlocked');
        assert ok ==> r == Done((q, Table(ClaimedSet(claimed), unlocked')));
        if !ok {
          LockMatchingStuck(m, ps, remote, t, localControls, n + 1);
          return;
        }
        params := params[n := q];
      }
      ok := true;
    }

    method ReassignPass(claimed: array<bool>, unlocked: set<Pt>) returns (ok: bool)
      requires claimed.Length == PT_LIMIT
      modifies this, claimed
      ensures var r := N.Reassign(old(params), old(Table(ClaimedSet(claimed), unlocked)), |old(params)|);
              (ok <==> r.Done?) && (ok ==> r.value.0 == params)
    {
      ghost var ps, t := params, Table(ClaimedSet(claimed), unlocked);
      var unlocked' := unlocked;
      for n := 0 to |params|
        invariant |params| == |ps| && forall i :: n <= i < |ps| ==> params[i] == ps[i]
        invariant N.Reassign(ps, t, n) == Done((params, Table(ClaimedSet(claimed), unlocked')))
      {
        if params[n].locked {
          assert params == params[n := params[n]];
          continue;
        }
        var p: N.PayloadParams;
        ok, p, unlocked' := ReassignOne(claimed, unlocked', params[n]);
        if !ok {
          ReassignStuck(ps, t, n + 1);
          return;
        }
        params := params[n := p];
      }
      ok := true;
    }

    /**
     Matches the local entries against what the remote sent; `ok` is false where the
     code panics. Completed updates keep PTs distinct and locked entries as they are.
     */
    method UpdateParams(m: N.Matcher, remote: seq<N.PayloadParams>, dir: N.Direction) returns (ok: bool)
      modifies this
      ensures ok <==> N.UpdateParams(m, old(params), remote, dir).Done?
      ensures ok ==> params == N.UpdateParams(m, old(params), remote, dir).value
      ensures ok ==> C.KeepsLocks(old(params), params)
      ensures ok && U.Distinct(old(params)) ==> U.Distinct(params) && H.Settled(m, old(params), remote, dir, params)
    {
      ghost var ps := params;
      var claimed := new bool[128](_ => false);
      var unlocked := N.UnlockedPts(params);
      ok := ClaimLockedPass(claimed, unlocked);
      if !ok {
        return;
      }
      ok, unlocked := LockPass(m, remote, claimed, !dir.SdpIsReceiving(), unlocked);
      if !ok {
        return;
      }
      ok := ReassignPass(claimed, unlocked);
      if ok {
        var call := [N.Call(remote, dir)];
        assert N.RunUpdates(m, ps, call[..0]) == Done(ps);
        C.RunKeepsLocksAndDistinct(m, ps, call);
        if U.Distinct(ps) {
          H.UpdateSettles(m, ps, remote, dir);
        }
      }
    }
  }
}
