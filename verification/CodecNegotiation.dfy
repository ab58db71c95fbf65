/**
 Payload type negotiation: what `update_params` computes, as functions on values.

 An update makes three passes over the configured entries: claim the PTs of the
 locked entries, lock every unlocked entry that some remote entry matches, and
 reassign the PTs of the remaining unlocked entries that meanwhile got claimed.
 The middle pass may leave an unlocked entry holding a PT that a locked entry now
 owns as well; the last pass repairs that.
 */
module CodecNegotiation {
  import opened Prelude
  import opened PayloadTypes

  // Codec, clock rate, channels and format parameters. Negotiation only ever passes
  // a spec to the two functions of a Matcher.
  type CodecSpec(==, !new)

  datatype Feedback = Feedback(transportCc: bool, nack: bool, pli: bool, fir: bool, remb: bool)

  datatype PayloadParams = PayloadParams(
    pt: Pt, resend: Option<Pt>, spec: CodecSpec, fb: Feedback, locked: bool)

  datatype Direction = SendOnly | RecvOnly | SendRecv | Inactive {
    predicate SdpIsReceiving() {
      !SendOnly?
    }
    function Invert(): Direction {
      match this
      case SendOnly => RecvOnly
      case RecvOnly => SendOnly
      case _ => this
    }
  }

  /**
   How codecs are compared: `score` says how well two specs match (None: not at all),
   `mirror` is the local spec after adopting the format parameters of the matched
   remote spec. Every result below holds for every Matcher.
   */
  datatype Matcher = Matcher(
    score: (CodecSpec, CodecSpec) -> Option<nat>,
    mirror: (CodecSpec, CodecSpec) -> CodecSpec)

  // Index i is the best match among the first n remote entries, the last one among equals.
  ghost predicate IsLastBest(m: Matcher, spec: CodecSpec, remote: seq<PayloadParams>, n: int, i: int) {
    && 0 <= i < n <= |remote|
    && m.score(spec, remote[i].spec).Some?
    && (forall j :: 0 <= j < n && m.score(spec, remote[j].spec).Some? ==>
          m.score(spec, remote[j].spec).value <= m.score(spec, remote[i].spec).value)
    && (forall j :: i < j < n ==> m.score(spec, remote[j].spec) != m.score(spec, remote[i].spec))
  }

  /** Index of the best scoring entry among the first n remote entries, the last one among equals. */
  function BestIndex(m: Matcher, spec: CodecSpec, remote: seq<PayloadParams>, n: nat): (r: Option<nat>)
    requires n <= |remote|
    ensures r.None? <==> forall i :: 0 <= i < n ==> m.score(spec, remote[i].spec).None?
    ensures r.Some? ==> IsLastBest(m, spec, remote, n, r.value)
  {
    if n == 0 then None else
      var rest := BestIndex(m, spec, remote, n - 1);
      var s := m.score(spec, remote[n - 1].spec);
      if s.None? || (rest.Some? && m.score(spec, remote[rest.value].spec).value > s.value) then rest
      else Some(n - 1)
  }

  function BestMatch(m: Matcher, spec: CodecSpec, remote: seq<PayloadParams>): Option<PayloadParams> {
    var i := BestIndex(m, spec, remote, |remote|);
    if i.None? then None else Some(remote[i.value])
  }

  /** The last of the entries with the greatest score, or none if no entry scores. */
  ghost predicate IsBestMatch(m: Matcher, spec: CodecSpec, remote: seq<PayloadParams>, r: Option<PayloadParams>) {
    if r.None? then forall i :: 0 <= i < |remote| ==> m.score(spec, remote[i].spec).None?
    else exists i :: IsLastBest(m, spec, remote, |remote|, i) && r.value == remote[i]
  }

  lemma BestMatchIs(m: Matcher, spec: CodecSpec, remote: seq<PayloadParams>)
    ensures IsBestMatch(m, spec, remote, BestMatch(m, spec, remote))
  {
    var i := BestIndex(m, spec, remote, |remote|);
    if i.Some? {
      assert IsLastBest(m, spec, remote, |remote|, i.value);
    }
  }

  // ---- One entry ----

  function IsClaimed(t: Table, pt: Pt): Step<bool> {
    if pt < PT_LIMIT then Done(pt in t.claimed) else Panic
  }

  function Claim(t: Table, pt: Pt): Step<Table> {
    if pt < PT_LIMIT && pt !in t.claimed then Done(t.(claimed := t.claimed + {pt})) else Panic
  }

  // Another PT for one whose demanded PT is taken: its own if still free, else any free one.
  function Remap(t: Table, own: Option<Pt>): Step<(Pt, Table)> {
    var ownTaken :- if own.None? then Done(true) else IsClaimed(t, own.value);
    var choice := if !ownTaken then own else FindUnclaimed(t);
    match choice
    case None => Panic
    case Some(x) => Done((x, t.(unlocked := t.unlocked - {x})))
  }

  function LockPt(t: Table, demanded: Pt, own: Option<Pt>, localControls: bool): Step<(Pt, Table)> {
    var taken :- if localControls then IsClaimed(t, demanded) else Done(false);
    var (x, t1) :- if taken then Remap(t, own) else Done((demanded, t));
    var t2 :- Claim(t1, x);
    Done((x, t2))
  }

  function LockEntry(p: PayloadParams, first: PayloadParams, t: Table, localControls: bool)
    : Step<(PayloadParams, Table)>
  {
    var (pt, t1) :- LockPt(t, first.pt, Some(p.pt), localControls);
    if first.resend.None? then
      Done((p.(pt := pt, resend := None, locked := true), t1))
    else
      var (rtx, t2) :- LockPt(t1, first.resend.value, p.resend, localControls);
      Done((p.(pt := pt, resend := Some(rtx), locked := true), t2))
  }

  function UpdateParam(m: Matcher, p: PayloadParams, remote: seq<PayloadParams>, t: Table, localControls: bool)
    : Step<(PayloadParams, Table)>
  {
    match BestMatch(m, p.spec, remote)
    case None => Done((p, t))
    case Some(first) =>
      var q := p.(spec := m.mirror(p.spec, first.spec));
      if p.locked then Done((q, t)) else LockEntry(q, first, t, localControls)
  }

  // ---- The three passes, each as the state after its first n entries ----

  function ClaimLocked(ps: seq<PayloadParams>, n: nat): Step<Table>
    requires n <= |ps|
  {
    if n == 0 then Done(Table({}, UnlockedPts(ps))) else
      var t :- ClaimLocked(ps, n - 1);
      var p := ps[n - 1];
      if p.locked then ClaimEntry(t, p) else Done(t)
  }

  function ClaimEntry(t: Table, p: PayloadParams): Step<Table> {
    var t1 :- Claim(t, p.pt);
    if p.resend.None? then Done(t1) else Claim(t1, p.resend.value)
  }

  function UnlockedPts(ps: seq<PayloadParams>): set<Pt> {
    (set i | 0 <= i < |ps| && !ps[i].locked :: ps[i].pt) +
    (set i | 0 <= i < |ps| && !ps[i].locked && ps[i].resend.Some? :: ps[i].resend.value)
  }

  function LockMatching(m: Matcher, ps: seq<PayloadParams>, remote: seq<PayloadParams>, t: Table,
                        localControls: bool, n: nat): (r: Step<(seq<PayloadParams>, Table)>)
    requires n <= |ps|
    ensures r.Done? ==> |r.value.0| == |ps| && r.value.0[n..] == ps[n..]
  {
    if n == 0 then Done((ps, t)) else
      var (qs, t1) :- LockMatching(m, ps, remote, t, localControls, n - 1);
      assert qs[n - 1..][1..] == qs[n..];
      var (q, t2) :- UpdateParam(m, qs[n - 1], remote, t1, localControls);
      Done((qs[n - 1 := q], t2))
  }

  // A PT for an unconfirmed entry: the same one, unless it has been claimed.
  function ReassignPt(t: Table, pt: Pt): Step<(Pt, Table)> {
    var taken :- IsClaimed(t, pt);
    if !taken then Done((pt, t)) else
      match FindUnclaimed(t)
      case None => Panic
      case Some(x) =>
        var t1 :- Claim(t, x);
        Done((x, t1.(unlocked := t1.unlocked - {x})))
  }

  function ReassignEntry(p: PayloadParams, t: Table): Step<(PayloadParams, Table)> {
    if p.locked then Done((p, t)) else
      var (pt, t1) :- ReassignPt(t, p.pt);
      if p.resend.None? then Done((p.(pt := pt), t1)) else
        var (rtx, t2) :- ReassignPt(t1, p.resend.value);
        Done((p.(pt := pt, resend := Some(rtx)), t2))
  }

  function Reassign(ps: seq<PayloadParams>, t: Table, n: nat): (r: Step<(seq<PayloadParams>, Table)>)
    requires n <= |ps|
    ensures r.Done? ==> |r.value.0| == |ps| && r.value.0[n..] == ps[n..]
  {
    if n == 0 then Done((ps, t)) else
      var (qs, t1) :- Reassign(ps, t, n - 1);
      assert qs[n - 1..][1..] == qs[n..];
      var (q, t2) :- ReassignEntry(qs[n - 1], t1);
      Done((qs[n - 1 := q], t2))
  }

  function UpdateParams(m: Matcher, ps: seq<PayloadParams>, remote: seq<PayloadParams>, dir: Direction)
    : (r: Step<seq<PayloadParams>>)
    ensures r.Done? ==> |r.value| == |ps|
  {
    var t :- ClaimLocked(ps, |ps|);
    var (qs, t1) :- LockMatching(m, ps, remote, t, !dir.SdpIsReceiving(), |ps|);
    var (rs, _) :- Reassign(qs, t1, |qs|);
    Done(rs)
  }

  /** A run of updates, as the m-lines of successive offers and answers cause them. */
  datatype Call = Call(remote: seq<PayloadParams>, dir: Direction)

  function RunUpdates(m: Matcher, ps: seq<PayloadParams>, calls: seq<Call>): (r: Step<seq<PayloadParams>>)
    ensures r.Done? ==> |r.value| == |ps|
  {
    if calls == [] then Done(ps) else
      var n := |calls| - 1;
      var qs :- RunUpdates(m, ps, calls[..n]);
      UpdateParams(m, qs, calls[n].remote, calls[n].dir)
  }
}
