/**
 The medias of a session through negotiation: which SDPs fit a session, what a known media becomes,
 and what a new line makes of its media.
 */
module SdpMedias {
  import opened Prelude
  import opened PayloadTypes
  import opened CodecNegotiation
  import opened SdpSession
  import opened SdpSlots
  import opened SdpCodecs

  // ---- The payload types of a line ----

  predicate HasMatch(m: Matcher, config: seq<PayloadParams>, r: PayloadParams) {
    exists j :: 0 <= j < |config| && m.score(config[j].spec, r.spec).Some?
  }

  /** Local entry b matches the remote entry best; among equals it is the last. */
  ghost predicate BestLocal(m: Matcher, config: seq<PayloadParams>, r: PayloadParams, b: int) {
    && 0 <= b < |config| && m.score(config[b].spec, r.spec).Some?
    && forall j :: 0 <= j < |config| && m.score(config[j].spec, r.spec).Some? ==>
         var x, y := m.score(config[j].spec, r.spec).value, m.score(config[b].spec, r.spec).value;
         x <= y && (b < j ==> x < y)
  }

  /** The PT of a matching entry: the remote's where the remote receives, else that of the local entry. */
  ghost predicate AnswersWith(m: Matcher, config: seq<PayloadParams>, r: PayloadParams, dir: Direction, pt: Pt) {
    exists b :: BestLocal(m, config, r, b) && pt == if dir.SdpIsReceiving() then r.pt else config[b].pt
  }

  lemma {:induction false} MatchIs(m: Matcher, config: seq<PayloadParams>, r: PayloadParams, dir: Direction)
    ensures var pt := SdpMatchRemote(m, config, r, dir);
            (pt.Some? <==> HasMatch(m, config, r)) && (pt.Some? ==> AnswersWith(m, config, r, dir, pt.value))
  {
    var f := Matcher((a, b) => m.score(b, a), m.mirror);
    var i := BestIndex(f, r.spec, config, |config|);
    assert forall j :: 0 <= j < |config| ==> f.score(r.spec, config[j].spec) == m.score(config[j].spec, r.spec);
    if i.Some? {
      assert BestLocal(m, config, r, i.value);
    }
  }

  predicate MatchesAt(m: Matcher, config: seq<PayloadParams>, rs: seq<PayloadParams>, i: int) {
    0 <= i < |rs| && HasMatch(m, config, rs[i])
  }

  // Positions, in order, of the remote entries that match, among the first n.
  ghost predicate ArePositions(m: Matcher, config: seq<PayloadParams>, rs: seq<PayloadParams>, n: int, ks: seq<int>) {
    && (forall j :: 0 <= j < |ks| ==> ks[j] < n && MatchesAt(m, config, rs, ks[j]))
    && (forall i, j :: 0 <= i < j < |ks| ==> ks[i] < ks[j])
    && (forall i :: MatchesAt(m, config, rs, i) && i < n ==> exists j :: 0 <= j < |ks| && ks[j] == i)
  }

  ghost predicate AnswerAll(m: Matcher, config: seq<PayloadParams>, rs: seq<PayloadParams>, dir: Direction,
                            ks: seq<int>, pts: seq<Pt>)
  {
    && |pts| == |ks|
    && forall j :: 0 <= j < |ks| ==> 0 <= ks[j] < |rs| && AnswersWith(m, config, rs[ks[j]], dir, pts[j])
  }

  /** The PTs of a line: one for every remote entry that matches, in the order of the line. */
  ghost predicate AreMatched(m: Matcher, config: seq<PayloadParams>, rs: seq<PayloadParams>, dir: Direction,
                             pts: seq<Pt>)
  {
    exists ks :: ArePositions(m, config, rs, |rs|, ks) && AnswerAll(m, config, rs, dir, ks, pts)
  }

  lemma {:induction false} PositionsStay(m: Matcher, config: seq<PayloadParams>, rs: seq<PayloadParams>, n: int,
                                         ks: seq<int>)
    requires ArePositions(m, config, rs, n, ks) && !MatchesAt(m, config, rs, n)
    ensures ArePositions(m, config, rs, n + 1, ks)
  {
  }

  lemma {:induction false} PositionsGrow(m: Matcher, config: seq<PayloadParams>, rs: seq<PayloadParams>, n: int,
                                         ks: seq<int>)
    requires ArePositions(m, config, rs, n, ks) && MatchesAt(m, config, rs, n)
    ensures ArePositions(m, config, rs, n + 1, ks + [n])
  {
    var ks' := ks + [n];
    forall i | MatchesAt(m, config, rs, i) && i < n + 1 ensures exists j :: 0 <= j < |ks'| && ks'[j] == i {
      if i < n {
        var j :| 0 <= j < |ks| && ks[j] == i;
        assert ks'[j] == i;
      } else {
        assert ks'[|ks|] == i;
      }
    }
  }

  lemma {:induction false} MatchedAt(m: Matcher, config: seq<PayloadParams>, rs: seq<PayloadParams>, dir: Direction,
                                     n: nat)
    returns (ks: seq<int>)
    requires n <= |rs|
    ensures ArePositions(m, config, rs, n, ks) && AnswerAll(m, config, rs, dir, ks, MatchedPts(m, config, rs[..n], dir))
  {
    if n == 0 {
      ks := [];
    } else {
      ks := MatchedAt(m, config, rs, dir, n - 1);
      assert rs[..n][..n - 1] == rs[..n - 1];
      MatchIs(m, config, rs[n - 1], dir);
      if MatchesAt(m, config, rs, n - 1) {
        PositionsGrow(m, config, rs, n - 1, ks);
        ks := ks + [n - 1];
      } else {
        PositionsStay(m, config, rs, n - 1, ks);
      }
    }
  }

  lemma {:induction false} MatchedPtsAre(m: Matcher, config: seq<PayloadParams>, rs: seq<PayloadParams>, dir: Direction)
    ensures AreMatched(m, config, rs, dir, MatchedPts(m, config, rs, dir))
  {
    var ks := MatchedAt(m, config, rs, dir, |rs|);
    assert rs[..|rs|] == rs;
  }

  // ---- What a line makes of a media ----

  /**
   Media x is what the line makes of md. A rejected line stops it. Otherwise its direction answers
   that of the line, unless it is one of ours and inactive and the remote only wants to receive;
   and if it had no PTs yet, it gets those that match.
   */
  ghost predicate Follows(m: Matcher, md: Media, l: MediaLine, config: seq<PayloadParams>, bundle: Option<seq<Mid>>,
                          x: Media)
  {
    && x.mid == md.mid && x.index == md.index && x.kind == md.kind && x.cname == md.cname
    && x.remoteCreated == md.remoteCreated
    && if l.disabled && !InBundle(l.mid, bundle) then
         x.stopped && x.dir.Inactive? && x.remotePts == md.remotePts
       else
         && x.stopped == md.stopped
         && (if !md.remoteCreated && md.dir.Inactive? && l.dir.RecvOnly? then x.dir.Inactive?
             else Answers(x.dir, l.dir))
         && (if md.remotePts != [] then x.remotePts == md.remotePts
             else AreMatched(m, config, l.rtpParams, l.dir, x.remotePts))
  }

  // One side sends where the other receives.
  predicate Answers(ours: Direction, theirs: Direction) {
    && (ours.SendOnly? <==> theirs.RecvOnly?) && (ours.RecvOnly? <==> theirs.SendOnly?)
    && (ours.Inactive? <==> theirs.Inactive?)
  }

  lemma {:induction false} UpdateFollows(m: Matcher, md: Media, l: MediaLine, config: seq<PayloadParams>,
                                         bundle: Option<seq<Mid>>)
    ensures Follows(m, md, l, config, bundle, UpdateMedia(m, md, l, config, bundle))
  {
    MatchedPtsAre(m, config, l.rtpParams, l.dir);
  }

  /** The media a new line starts from: open, without cname and PTs, and the remote's if the line is offered. */
  ghost predicate StartsFrom(l: MediaLine, idx: nat, isOffer: bool, md: Media) {
    && md.mid == l.mid && md.index == idx && md.kind == l.typ && md.cname.None? && md.remoteCreated == isOffer
    && !md.stopped && md.remotePts == []
    && if l.disabled then md.dir.Inactive? else Answers(md.dir, l.dir)
  }

  lemma RemoteStarts(l: MediaLine, idx: nat, isOffer: bool)
    ensures StartsFrom(l, idx, isOffer, FromRemote(l, idx, isOffer))
  {
  }

  /** Media x is what a new line makes, with the config it has negotiated. */
  ghost predicate Opened(m: Matcher, l: MediaLine, idx: nat, isOffer: bool, config: seq<PayloadParams>,
                         bundle: Option<seq<Mid>>, x: Media)
  {
    exists md :: StartsFrom(l, idx, isOffer, md) && Follows(m, md, l, config, bundle, x)
  }

  // ---- First loop ----

  ghost predicate Placed(medias: seq<Media>) {
    forall i, j :: 0 <= i < j < |medias| ==> medias[i].mid != medias[j].mid && medias[i].index != medias[j].index
  }

  lemma {:induction false} WellFormedIsPlaced(s: Session)
    requires WellFormed(s)
    ensures Placed(s.medias)
  {
    SyncingStart(s);
    var lines := AsMediaLines(s);
    forall i, j | 0 <= i < j < |s.medias|
      ensures s.medias[i].mid != s.medias[j].mid && s.medias[i].index != s.medias[j].index
    {
      assert OnItsSlot(s, lines, s.medias[i]) && OnItsSlot(s, lines, s.medias[j]);
    }
  }

  /** One of the first n lines is a media line in the slot of md with another mid. */
  predicate GivenAway(sdp: Sdp, md: Media, n: nat) {
    md.index < n && md.index < |sdp.lines| && sdp.lines[md.index].typ.IsMedia() && sdp.lines[md.index].mid != md.mid
  }

  /** Line number i fits the session: a known line is in its slot, a new one where nothing is or may be replaced. */
  predicate LineFits(s: Session, sdp: Sdp, i: nat, isOffer: bool)
    requires i < |sdp.lines|
  {
    var l := sdp.lines[i];
    if l.typ.IsChannel() then s.app.None? || s.app.value.index == i
    else if l.typ.IsMedia() then
      || Seated(s.medias, l.mid, i)
      || (&& (forall md :: md in s.medias && md.mid == l.mid ==> GivenAway(sdp, md, i))
          && (forall md :: md in s.medias && md.index == i ==> isOffer && md.Disabled()))
    else true
  }

  /** What the first n lines make of a media: its own line updates it, another media line in its slot removes it. */
  function Became(m: Matcher, s: Session, sdp: Sdp, md: Media, n: nat): Option<Media> {
    if md.index >= n || md.index >= |sdp.lines| || !sdp.lines[md.index].typ.IsMedia() then Some(md)
    else if sdp.lines[md.index].mid != md.mid then None
    else Some(UpdateMedia(m, md, sdp.lines[md.index], s.config, sdp.bundle))
  }

  ghost predicate BecameOf(m: Matcher, s: Session, sdp: Sdp, n: nat, x: Media) {
    exists md :: md in s.medias && Became(m, s, sdp, md, n) == Some(x)
  }

  // The medias after n lines.
  ghost predicate AreBecome(m: Matcher, s: Session, sdp: Sdp, n: nat, medias: seq<Media>) {
    && Placed(medias)
    && (forall md :: md in s.medias && Became(m, s, sdp, md, n).Some? ==> Became(m, s, sdp, md, n).value in medias)
    && (forall x :: x in medias ==> BecameOf(m, s, sdp, n, x))
  }

  lemma PlacedSame(medias: seq<Media>, x: Media, y: Media)
    requires Placed(medias) && x in medias && y in medias && (x.mid == y.mid || x.index == y.index)
    ensures x == y
  {
    var i :| 0 <= i < |medias| && medias[i] == x;
    var j :| 0 <= j < |medias| && medias[j] == y;
  }

  // A media in a slot that is still to come is as it was.
  lemma {:induction false} StillThere(m: Matcher, s: Session, sdp: Sdp, n: nat, medias: seq<Media>, x: Media)
    requires AreBecome(m, s, sdp, n, medias) && x in medias && x.index >= n
    ensures x in s.medias
  {
    assert BecameOf(m, s, sdp, n, x);
  }

  lemma BecameStep(m: Matcher, s: Session, sdp: Sdp, md: Media, n: nat)
    requires n < |sdp.lines|
    ensures md.index != n ==> Became(m, s, sdp, md, n + 1) == Became(m, s, sdp, md, n)
    ensures md.index >= n ==> Became(m, s, sdp, md, n) == Some(md)
    ensures Became(m, s, sdp, md, n).Some? ==>
              Became(m, s, sdp, md, n).value.mid == md.mid && Became(m, s, sdp, md, n).value.index == md.index
    ensures Became(m, s, sdp, md, n).None? <==> GivenAway(sdp, md, n)
  {
  }

  // Line n touches no media but that of its own slot.
  lemma {:induction false} OthersBecome(m: Matcher, s: Session, sdp: Sdp, n: nat, before: seq<Media>, after: seq<Media>)
    requires n < |sdp.lines| && AreBecome(m, s, sdp, n, before) && Placed(after)
    requires forall x :: x in before && x.index != n ==> x in after
    requires forall x :: x in after && x.index != n ==> x in before
    requires forall md :: md in s.medias && md.index == n && Became(m, s, sdp, md, n + 1).Some? ==>
               Became(m, s, sdp, md, n + 1).value in after
    requires forall x :: x in after && x.index == n ==> BecameOf(m, s, sdp, n + 1, x)
    ensures AreBecome(m, s, sdp, n + 1, after)
  {
    forall md | md in s.medias && Became(m, s, sdp, md, n + 1).Some?
      ensures Became(m, s, sdp, md, n + 1).value in after
    {
      BecameStep(m, s, sdp, md, n);
    }
    forall x | x in after ensures BecameOf(m, s, sdp, n + 1, x) {
      if x.index != n {
        assert BecameOf(m, s, sdp, n, x);
        var md :| md in s.medias && Became(m, s, sdp, md, n) == Some(x);
        BecameStep(m, s, sdp, md, n);
        assert Became(m, s, sdp, md, n + 1) == Some(x);
      }
    }
  }

  // ---- A line that is neither media ----

  lemma {:induction false} OtherLine(m: Matcher, s: Session, sdp: Sdp, n: nat, medias: seq<Media>)
    requires n < |sdp.lines| && AreBecome(m, s, sdp, n, medias) && !sdp.lines[n].typ.IsMedia()
    ensures AreBecome(m, s, sdp, n + 1, medias)
  {
    forall md | md in s.medias && md.index == n ensures Became(m, s, sdp, md, n + 1) == Some(md) && md in medias {
      BecameStep(m, s, sdp, md, n);
    }
    forall x | x in medias && x.index == n ensures BecameOf(m, s, sdp, n + 1, x) {
      StillThere(m, s, sdp, n, medias, x);
    }
    OthersBecome(m, s, sdp, n, medias, medias);
  }

  // ---- A known media line ----

  lemma {:induction false} KnownIsFound(m: Matcher, s: Session, sdp: Sdp, n: nat, medias: seq<Media>)
    requires n < |sdp.lines| && AreBecome(m, s, sdp, n, medias) && Placed(s.medias)
    requires Seated(s.medias, sdp.lines[n].mid, n)
    ensures var k := FindMid(medias, sdp.lines[n].mid);
            k.Some? && medias[k.value] in s.medias && medias[k.value].index == n
  {
    var i :| 0 <= i < |s.medias| && s.medias[i].mid == sdp.lines[n].mid && s.medias[i].index == n;
    var md := s.medias[i];
    BecameStep(m, s, sdp, md, n);
    assert md in medias;
    var k := FindMid(medias, sdp.lines[n].mid).value;
    PlacedSame(medias, medias[k], md);
  }

  lemma PlacedUpdate(medias: seq<Media>, k: nat, x: Media)
    requires Placed(medias) && k < |medias| && x.mid == medias[k].mid && x.index == medias[k].index
    ensures Placed(medias[k := x])
    ensures forall y :: y in medias && y.index != x.index ==> y in medias[k := x]
    ensures forall y :: y in medias[k := x] && y.index != x.index ==> y in medias
    ensures forall y :: y in medias[k := x] && y.index == x.index ==> y == x
    ensures x in medias[k := x]
  {
    var after := medias[k := x];
    forall y | y in medias && y.index != x.index ensures y in after {
      var i :| 0 <= i < |medias| && medias[i] == y;
      assert after[i] == y;
    }
    forall y | y in after ensures (y.index != x.index ==> y in medias) && (y.index == x.index ==> y == x) {
      var i :| 0 <= i < |after| && after[i] == y;
      assert i != k ==> medias[i] == y && (i < k || k < i);
    }
    assert after[k] == x;
  }

  lemma {:induction false} KnownLine(m: Matcher, s: Session, sdp: Sdp, n: nat, medias: seq<Media>, k: nat)
    requires n < |sdp.lines| && AreBecome(m, s, sdp, n, medias) && Placed(s.medias) && sdp.lines[n].typ.IsMedia()
    requires k < |medias| && medias[k] in s.medias && medias[k].index == n && medias[k].mid == sdp.lines[n].mid
    ensures AreBecome(m, s, sdp, n + 1, medias[k := UpdateMedia(m, medias[k], sdp.lines[n], s.config, sdp.bundle)])
  {
    var md := medias[k];
    var x := UpdateMedia(m, md, sdp.lines[n], s.config, sdp.bundle);
    PlacedUpdate(medias, k, x);
    assert Became(m, s, sdp, md, n + 1) == Some(x);
    forall e | e in s.medias && e.index == n ensures e == md {
      PlacedSame(s.medias, e, md);
    }
    OthersBecome(m, s, sdp, n, medias, medias[k := x]);
  }

  // ---- A new media line ----

  // A media with the mid of a new line is only in the way if its slot has not been given away.
  lemma {:induction false} MidIsFree(m: Matcher, s: Session, sdp: Sdp, n: nat, medias: seq<Media>)
    requires n < |sdp.lines| && AreBecome(m, s, sdp, n, medias)
    ensures FindMid(medias, sdp.lines[n].mid).None? <==>
              forall md :: md in s.medias && md.mid == sdp.lines[n].mid ==> GivenAway(sdp, md, n)
  {
    var k := FindMid(medias, sdp.lines[n].mid);
    if k.None? {
      forall md | md in s.medias && md.mid == sdp.lines[n].mid ensures GivenAway(sdp, md, n) {
        BecameStep(m, s, sdp, md, n);
      }
    } else {
      assert BecameOf(m, s, sdp, n, medias[k.value]);
      var md :| md in s.medias && Became(m, s, sdp, md, n) == Some(medias[k.value]);
      BecameStep(m, s, sdp, md, n);
    }
  }

  lemma {:induction false} SlotIsFree(m: Matcher, s: Session, sdp: Sdp, n: nat, medias: seq<Media>, isOffer: bool)
    requires n < |sdp.lines| && AreBecome(m, s, sdp, n, medias) && Placed(s.medias)
    ensures var pos := FindIndex(medias, n);
            pos.None? || (isOffer && medias[pos.value].Disabled()) <==>
              forall md :: md in s.medias && md.index == n ==> isOffer && md.Disabled()
    ensures FindIndex(medias, n).Some? ==> medias[FindIndex(medias, n).value] in s.medias
  {
    var pos := FindIndex(medias, n);
    forall md | md in s.medias && md.index == n ensures md in medias && pos.Some? && medias[pos.value] == md {
      BecameStep(m, s, sdp, md, n);
      var i :| 0 <= i < |medias| && medias[i] == md;
      PlacedSame(medias, md, medias[pos.value]);
    }
    if pos.Some? {
      StillThere(m, s, sdp, n, medias, medias[pos.value]);
    }
  }

  lemma PlacedSwapRemove(medias: seq<Media>, pos: nat)
    requires Placed(medias) && pos < |medias|
    ensures var after := SwapRemove(medias, pos);
            Placed(after) && (forall x :: x in after <==> x in medias && x != medias[pos])
  {
    var after, n := SwapRemove(medias, pos), |medias| - 1;
    assert forall i :: 0 <= i < n ==> after[i] == if i == pos then medias[n] else medias[i];
    forall x | x in medias && x != medias[pos] ensures x in after {
      var i :| 0 <= i < |medias| && medias[i] == x;
      assert after[if i == n then pos else i] == x;
    }
    forall x | x in after ensures x in medias && x != medias[pos] {
      var i :| 0 <= i < n && after[i] == x;
      assert if i == pos then x == medias[n] && pos < n else x == medias[i];
    }
  }

  lemma {:induction false} NewLineReplaces(m: Matcher, s: Session, sdp: Sdp, n: nat, medias: seq<Media>, pos: nat)
    requires n < |sdp.lines| && AreBecome(m, s, sdp, n, medias) && Placed(s.medias) && sdp.lines[n].typ.IsMedia()
    requires !Seated(s.medias, sdp.lines[n].mid, n)
    requires pos < |medias| && medias[pos].index == n && medias[pos] in s.medias
    ensures AreBecome(m, s, sdp, n + 1, SwapRemove(medias, pos))
  {
    var gone := medias[pos];
    PlacedSwapRemove(medias, pos);
    forall md | md in s.medias && md.index == n ensures Became(m, s, sdp, md, n + 1).None? {
      PlacedSame(s.medias, md, gone);
    }
    forall x | x in medias && x.index == n ensures x == gone {
      PlacedSame(medias, x, gone);
    }
    OthersBecome(m, s, sdp, n, medias, SwapRemove(medias, pos));
  }

  lemma {:induction false} NewLineAppends(m: Matcher, s: Session, sdp: Sdp, n: nat, medias: seq<Media>)
    requires n < |sdp.lines| && AreBecome(m, s, sdp, n, medias) && FindIndex(medias, n).None?
    ensures AreBecome(m, s, sdp, n + 1, medias)
  {
    forall md | md in s.medias ensures md.index != n {
      BecameStep(m, s, sdp, md, n);
    }
    OthersBecome(m, s, sdp, n, medias, medias);
  }

  // ---- All lines ----

  // What is known while the first loop goes on.
  ghost predicate Underway(m: Matcher, s: Session, sdp: Sdp, n: nat, s1: Session) {
    Placed(s.medias) && AreBecome(m, s, sdp, n, s1.medias) && s1.app == s.app && s1.config == s.config
  }

  lemma {:induction false} KnownLineFits(m: Matcher, s: Session, sdp: Sdp, isOffer: bool, n: nat, s1: Session)
    requires n < |sdp.lines| && Underway(m, s, sdp, n, s1) && sdp.lines[n].typ.IsMedia()
    requires Seated(s.medias, sdp.lines[n].mid, n)
    ensures var r := SyncLine(m, s1, n, sdp.lines[n], sdp.bundle, isOffer);
            r.Accepted? && Underway(m, s, sdp, n + 1, r.value.0)
  {
    KnownIsFound(m, s, sdp, n, s1.medias);
    KnownLine(m, s, sdp, n, s1.medias, FindMid(s1.medias, sdp.lines[n].mid).value);
  }

  lemma {:induction false} NewLineFits(m: Matcher, s: Session, sdp: Sdp, isOffer: bool, n: nat, s1: Session)
    requires n < |sdp.lines| && Underway(m, s, sdp, n, s1) && sdp.lines[n].typ.IsMedia()
    requires !Seated(s.medias, sdp.lines[n].mid, n)
    ensures var r := SyncLine(m, s1, n, sdp.lines[n], sdp.bundle, isOffer);
            && (r.Accepted? <==> LineFits(s, sdp, n, isOffer))
            && (r.Accepted? ==> Underway(m, s, sdp, n + 1, r.value.0))
  {
    MidIsFree(m, s, sdp, n, s1.medias);
    SlotIsFree(m, s, sdp, n, s1.medias, isOffer);
    var k, pos := FindMid(s1.medias, sdp.lines[n].mid), FindIndex(s1.medias, n);
    if k.Some? {
      FoundElsewhere(m, s, sdp, n, s1.medias, k.value);
    } else if pos.None? {
      NewLineAppends(m, s, sdp, n, s1.medias);
    } else {
      NewLineReplaces(m, s, sdp, n, s1.medias, pos.value);
    }
  }

  // A media with the mid of a line that is not in its slot is in another one.
  lemma {:induction false} FoundElsewhere(m: Matcher, s: Session, sdp: Sdp, n: nat, medias: seq<Media>, k: nat)
    requires n < |sdp.lines| && AreBecome(m, s, sdp, n, medias) && !Seated(s.medias, sdp.lines[n].mid, n)
    requires k < |medias| && medias[k].mid == sdp.lines[n].mid
    ensures medias[k].index != n
  {
    if medias[k].index == n {
      StillThere(m, s, sdp, n, medias, medias[k]);
    }
  }

  lemma {:induction false} SyncLineFits(m: Matcher, s: Session, sdp: Sdp, isOffer: bool, n: nat, s1: Session)
    requires n < |sdp.lines| && Underway(m, s, sdp, n, s1)
    ensures var r := SyncLine(m, s1, n, sdp.lines[n], sdp.bundle, isOffer);
            && (r.Accepted? <==> LineFits(s, sdp, n, isOffer))
            && (r.Accepted? ==> Underway(m, s, sdp, n + 1, r.value.0))
  {
    var l := sdp.lines[n];
    if !l.typ.IsMedia() {
      OtherLine(m, s, sdp, n, s1.medias);
    } else if Seated(s.medias, l.mid, n) {
      KnownLineFits(m, s, sdp, isOffer, n, s1);
    } else {
      NewLineFits(m, s, sdp, isOffer, n, s1);
    }
  }

  lemma UnderwayAtStart(m: Matcher, s: Session, sdp: Sdp)
    requires Placed(s.medias)
    ensures Underway(m, s, sdp, 0, s)
  {
    forall md | md in s.medias ensures Became(m, s, sdp, md, 0) == Some(md) && BecameOf(m, s, sdp, 0, md) {
      BecameAtStart(m, s, sdp, md);
    }
  }

  lemma BecameAtStart(m: Matcher, s: Session, sdp: Sdp, md: Media)
    ensures Became(m, s, sdp, md, 0) == Some(md)
  {
  }

  ghost predicate LinesFit(s: Session, sdp: Sdp, isOffer: bool, n: nat)
    requires n <= |sdp.lines|
  {
    forall i :: 0 <= i < n ==> LineFits(s, sdp, i, isOffer)
  }

  // How the first loop stands after n lines.
  ghost predicate Fitting(m: Matcher, s: Session, sdp: Sdp, isOffer: bool, n: nat, r: Verdict<SyncState>)
    requires n <= |sdp.lines|
  {
    (r.Accepted? <==> LinesFit(s, sdp, isOffer, n)) && (r.Accepted? ==> Underway(m, s, sdp, n, r.value.0))
  }

  // One turn of the first loop, or none after a failure.
  function NextSynced(m: Matcher, r: Verdict<SyncState>, sdp: Sdp, isOffer: bool, n: nat): Verdict<SyncState>
    requires n < |sdp.lines|
  {
    var (s1, news) :- r;
    var (s2, isNew) :- SyncLine(m, s1, n, sdp.lines[n], sdp.bundle, isOffer);
    Accepted((s2, if isNew then news + [NewLine(n, sdp.lines[n])] else news))
  }

  lemma SyncMediasNext(m: Matcher, s: Session, sdp: Sdp, isOffer: bool, n: nat)
    requires n < |sdp.lines|
    ensures SyncMedias(m, s, sdp, isOffer, n + 1) == NextSynced(m, SyncMedias(m, s, sdp, isOffer, n), sdp, isOffer, n)
  {
  }

  lemma {:induction false} FittingStep(m: Matcher, s: Session, sdp: Sdp, isOffer: bool, n: nat, r: Verdict<SyncState>)
    requires n < |sdp.lines| && Fitting(m, s, sdp, isOffer, n, r)
    ensures Fitting(m, s, sdp, isOffer, n + 1, NextSynced(m, r, sdp, isOffer, n))
  {
    assert LinesFit(s, sdp, isOffer, n + 1) <==> LinesFit(s, sdp, isOffer, n) && LineFits(s, sdp, n, isOffer);
    if r.Accepted? {
      SyncLineFits(m, s, sdp, isOffer, n, r.value.0);
    }
  }

  /** The first loop goes through exactly if every line fits the session as it was. */
  lemma {:induction false} SyncFitsIff(m: Matcher, s: Session, sdp: Sdp, isOffer: bool, n: nat, r: Verdict<SyncState>)
    requires n <= |sdp.lines| && Placed(s.medias) && r == SyncMedias(m, s, sdp, isOffer, n)
    ensures Fitting(m, s, sdp, isOffer, n, r)
  {
    if n == 0 {
      UnderwayAtStart(m, s, sdp);
    } else {
      var r' := SyncMedias(m, s, sdp, isOffer, n - 1);
      SyncFitsIff(m, s, sdp, isOffer, n - 1, r');
      SyncMediasNext(m, s, sdp, isOffer, n - 1);
      FittingStep(m, s, sdp, isOffer, n - 1, r');
    }
  }

  /**
   When an SDP is accepted, for a well formed session: exactly if every line fits the session, at
   most one application line is new, and the payload type negotiation of the new lines completes.
   When it panics: exactly if every line fits and that negotiation panics.
   */
  lemma {:induction false} AcceptedIff(m: Matcher, s: Session, sdp: Sdp, isOffer: bool)
    requires WellFormed(s)
    ensures var r, run := TakeIn(m, s, sdp, isOffer), RunUpdates(m, s.config, CallsFor(s, sdp));
            && (r.Accepted? <==> LinesFit(s, sdp, isOffer, |sdp.lines|) && OneNewApp(s, sdp) && run.Done?)
            && (r.Panicked? <==> LinesFit(s, sdp, isOffer, |sdp.lines|) && run.Panic?)
  {
    WellFormedIsPlaced(s);
    TakeInVerdict(m, s, sdp, isOffer);
    SyncFitsIff(m, s, sdp, isOffer, |sdp.lines|, SyncMedias(m, s, sdp, isOffer, |sdp.lines|));
  }

  // ---- Second loop ----

  /** The media lines among the first n new lines. */
  function MediaLinesOf(news: seq<NewLine>, n: nat): seq<NewLine>
    requires n <= |news|
  {
    if n == 0 then [] else
      if news[n - 1].line.typ.IsMedia() then MediaLinesOf(news, n - 1) + [news[n - 1]] else MediaLinesOf(news, n - 1)
  }

  /** Each of them is what a call was made for. */
  lemma {:induction false} LinesOfCalls(news: seq<NewLine>, n: nat)
    requires n <= |news|
    ensures var ls, calls := MediaLinesOf(news, n), CallsOf(news, n);
            |ls| == |calls| && forall j :: 0 <= j < |ls| ==> calls[j] == Call(ls[j].line.rtpParams, ls[j].line.dir)
  {
    if n > 0 {
      LinesOfCalls(news, n - 1);
    }
  }

  // Media x comes from a new line, negotiated on top of the calls before it.
  ghost predicate OpenedBy(m: Matcher, config: seq<PayloadParams>, calls: seq<Call>, j: nat, nl: NewLine, isOffer: bool,
                           bundle: Option<seq<Mid>>, x: Media)
    requires j < |calls|
  {
    var run := RunUpdates(m, config, calls[..j + 1]);
    run.Done? && Opened(m, nl.line, nl.index, isOffer, run.value, bundle, x)
  }

  // The medias that the first n new lines have opened.
  ghost predicate AllOpened(m: Matcher, config: seq<PayloadParams>, news: seq<NewLine>, n: nat, isOffer: bool,
                            bundle: Option<seq<Mid>>, xs: seq<Media>)
    requires n <= |news|
  {
    var ls, calls := MediaLinesOf(news, n), CallsOf(news, n);
    && |xs| == |ls| == |calls|
    && forall j :: 0 <= j < |xs| ==> OpenedBy(m, config, calls, j, ls[j], isOffer, bundle, xs[j])
  }

  lemma {:induction false} OpenOne(m: Matcher, s: Session, s1: Session, news: seq<NewLine>, n: nat, isOffer: bool,
                                   bundle: Option<seq<Mid>>, xs: seq<Media>, x: Media, config: seq<PayloadParams>)
    requires n < |news| && AllOpened(m, s.config, news, n, isOffer, bundle, xs) && news[n].line.typ.IsMedia()
    requires RunUpdates(m, s.config, CallsOf(news, n)) == Done(s1.config)
    requires UpdateParams(m, s1.config, news[n].line.rtpParams, news[n].line.dir) == Done(config)
    requires Opened(m, news[n].line, news[n].index, isOffer, config, bundle, x)
    ensures AllOpened(m, s.config, news, n + 1, isOffer, bundle, xs + [x])
  {
    var calls, call := CallsOf(news, n), Call(news[n].line.rtpParams, news[n].line.dir);
    RunGrows(m, s.config, calls, call);
    assert CallsOf(news, n + 1) == calls + [call] && MediaLinesOf(news, n + 1) == MediaLinesOf(news, n) + [news[n]];
    forall j | 0 <= j < |xs + [x]|
      ensures OpenedBy(m, s.config, calls + [call], j, MediaLinesOf(news, n + 1)[j], isOffer, bundle, (xs + [x])[j])
    {
      if j < |xs| {
        assert (calls + [call])[..j + 1] == calls[..j + 1];
        assert OpenedBy(m, s.config, calls, j, MediaLinesOf(news, n)[j], isOffer, bundle, xs[j]);
      } else {
        assert (calls + [call])[..j + 1] == calls + [call];
      }
    }
  }

  // Where the second loop is after n lines, if it has not failed.
  ghost predicate Opening(m: Matcher, s: Session, news: seq<NewLine>, n: nat, isOffer: bool, bundle: Option<seq<Mid>>,
                          s1: Session)
    requires n <= |news|
  {
    && |s.medias| <= |s1.medias| && s1.medias[..|s.medias|] == s.medias
    && AllOpened(m, s.config, news, n, isOffer, bundle, s1.medias[|s.medias|..])
    && RunUpdates(m, s.config, CallsOf(news, n)) == Done(s1.config)
  }

  lemma {:induction false} AddOpens(m: Matcher, s: Session, nl: NewLine, isOffer: bool, bundle: Option<seq<Mid>>)
    returns (x: Media, config: seq<PayloadParams>)
    requires nl.line.typ.IsMedia() && AddLine(m, s, nl, bundle, isOffer).Accepted?
    ensures UpdateParams(m, s.config, nl.line.rtpParams, nl.line.dir) == Done(config)
    ensures AddLine(m, s, nl, bundle, isOffer).value == s.(config := config, medias := s.medias + [x])
    ensures Opened(m, nl.line, nl.index, isOffer, config, bundle, x)
  {
    config := UpdateParams(m, s.config, nl.line.rtpParams, nl.line.dir).value;
    var md := FromRemote(nl.line, nl.index, isOffer);
    x := UpdateMedia(m, md, nl.line, config, bundle);
    RemoteStarts(nl.line, nl.index, isOffer);
    UpdateFollows(m, md, nl.line, config, bundle);
  }

  lemma {:induction false} OpeningMedia(m: Matcher, s: Session, s1: Session, news: seq<NewLine>, n: nat, isOffer: bool,
                                        bundle: Option<seq<Mid>>, x: Media, config: seq<PayloadParams>)
    requires n < |news| && Opening(m, s, news, n, isOffer, bundle, s1) && news[n].line.typ.IsMedia()
    requires UpdateParams(m, s1.config, news[n].line.rtpParams, news[n].line.dir) == Done(config)
    requires Opened(m, news[n].line, news[n].index, isOffer, config, bundle, x)
    ensures Opening(m, s, news, n + 1, isOffer, bundle, s1.(config := config, medias := s1.medias + [x]))
  {
    OpenOne(m, s, s1, news, n, isOffer, bundle, s1.medias[|s.medias|..], x, config);
    RunNext(m, s.config, news, n, s1.config, config);
    PushBehind(s.medias, s1.medias, x);
  }

  lemma PushBehind(front: seq<Media>, medias: seq<Media>, x: Media)
    requires |front| <= |medias| && medias[..|front|] == front
    ensures (medias + [x])[..|front|] == front && (medias + [x])[|front|..] == medias[|front|..] + [x]
  {
  }

  lemma {:induction false} RunNext(m: Matcher, ps: seq<PayloadParams>, news: seq<NewLine>, n: nat,
                                   qs: seq<PayloadParams>, config: seq<PayloadParams>)
    requires n < |news| && news[n].line.typ.IsMedia() && RunUpdates(m, ps, CallsOf(news, n)) == Done(qs)
    requires UpdateParams(m, qs, news[n].line.rtpParams, news[n].line.dir) == Done(config)
    ensures RunUpdates(m, ps, CallsOf(news, n + 1)) == Done(config)
  {
    RunGrows(m, ps, CallsOf(news, n), Call(news[n].line.rtpParams, news[n].line.dir));
    MediaSteps(news, n + 1);
  }

  lemma OpeningOther(m: Matcher, s: Session, s1: Session, news: seq<NewLine>, n: nat, isOffer: bool,
                     bundle: Option<seq<Mid>>, s2: Session)
    requires n < |news| && Opening(m, s, news, n, isOffer, bundle, s1) && !news[n].line.typ.IsMedia()
    requires s2.medias == s1.medias && s2.config == s1.config
    ensures Opening(m, s, news, n + 1, isOffer, bundle, s2)
  {
    assert CallsOf(news, n + 1) == CallsOf(news, n) && MediaLinesOf(news, n + 1) == MediaLinesOf(news, n);
  }

  lemma {:induction false} OpeningStep(m: Matcher, s: Session, s1: Session, news: seq<NewLine>, n: nat, isOffer: bool,
                                       bundle: Option<seq<Mid>>, r: Verdict<Session>)
    requires n < |news| && Opening(m, s, news, n, isOffer, bundle, s1)
    requires r == AddLine(m, s1, news[n], bundle, isOffer) && r.Accepted?
    ensures Opening(m, s, news, n + 1, isOffer, bundle, r.value)
  {
    if news[n].line.typ.IsMedia() {
      var x, config := AddOpens(m, s1, news[n], isOffer, bundle);
      OpeningMedia(m, s, s1, news, n, isOffer, bundle, x, config);
    } else {
      OpeningOther(m, s, s1, news, n, isOffer, bundle, r.value);
    }
  }

  lemma OpeningStart(m: Matcher, s: Session, news: seq<NewLine>, isOffer: bool, bundle: Option<seq<Mid>>)
    ensures Opening(m, s, news, 0, isOffer, bundle, s)
  {
    assert s.medias[|s.medias|..] == [];
  }

  lemma OpeningNext(m: Matcher, s: Session, s1: Session, news: seq<NewLine>, n: nat, isOffer: bool,
                    bundle: Option<seq<Mid>>, s2: Session)
    requires 0 < n <= |news| && Opening(m, s, news, n - 1, isOffer, bundle, s1)
    requires AddLineOf(m, bundle, isOffer)(s1, news[n - 1]) == Accepted(s2)
    ensures Opening(m, s, news, n, isOffer, bundle, s2)
  {
    OpeningStep(m, s, s1, news, n - 1, isOffer, bundle, Accepted(s2));
  }

  lemma {:induction false} OpeningTrace(m: Matcher, s: Session, news: seq<NewLine>, isOffer: bool,
                                        bundle: Option<seq<Mid>>, states: seq<Session>, n: nat)
    requires IsTrace(AddLineOf(m, bundle, isOffer), s, news, states) && n < |states|
    ensures Opening(m, s, news, n, isOffer, bundle, states[n])
  {
    if n == 0 {
      OpeningStart(m, s, news, isOffer, bundle);
    } else {
      OpeningTrace(m, s, news, isOffer, bundle, states, n - 1);
      OpeningNext(m, s, states[n - 1], news, n, isOffer, bundle, states[n]);
    }
  }

  lemma {:induction false} OpeningAll(m: Matcher, s: Session, news: seq<NewLine>, isOffer: bool,
                                      bundle: Option<seq<Mid>>)
    requires AddNewLines(m, s, news, bundle, isOffer, |news|).Accepted?
    ensures Opening(m, s, news, |news|, isOffer, bundle, AddNewLines(m, s, news, bundle, isOffer, |news|).value)
  {
    AddNewLinesIsFold(m, s, news, bundle, isOffer, |news|);
    var states := FoldTrace(AddLineOf(m, bundle, isOffer), s, news, |news|);
    OpeningTrace(m, s, news, isOffer, bundle, states, |news|);
  }

  // ---- The medias after an SDP ----

  /** What an SDP leaves of a known media. */
  ghost predicate KeptAs(m: Matcher, s: Session, sdp: Sdp, md: Media, x: Media) {
    if md.index < |sdp.lines| && sdp.lines[md.index].typ.IsMedia() then
      sdp.lines[md.index].mid == md.mid && Follows(m, md, sdp.lines[md.index], s.config, sdp.bundle, x)
    else
      x == md
  }

  /** Every known media whose slot was not given away is kept as its line says, and there are no others. */
  ghost predicate KnownKept(m: Matcher, s: Session, sdp: Sdp, medias: seq<Media>) {
    && (forall md :: md in s.medias && !GivenAway(sdp, md, |sdp.lines|) ==>
          exists x :: x in medias && KeptAs(m, s, sdp, md, x))
    && (forall x :: x in medias ==> exists md :: md in s.medias && KeptAs(m, s, sdp, md, x))
  }

  lemma BecameKept(m: Matcher, s: Session, sdp: Sdp, md: Media)
    requires Became(m, s, sdp, md, |sdp.lines|).Some?
    ensures KeptAs(m, s, sdp, md, Became(m, s, sdp, md, |sdp.lines|).value)
  {
    if md.index < |sdp.lines| {
      UpdateFollows(m, md, sdp.lines[md.index], s.config, sdp.bundle);
    }
  }

  lemma {:induction false} KnownAreKept(m: Matcher, s: Session, sdp: Sdp, medias: seq<Media>)
    requires AreBecome(m, s, sdp, |sdp.lines|, medias)
    ensures KnownKept(m, s, sdp, medias)
  {
    forall md | md in s.medias && !GivenAway(sdp, md, |sdp.lines|)
      ensures exists x :: x in medias && KeptAs(m, s, sdp, md, x)
    {
      BecameKept(m, s, sdp, md);
    }
    forall x | x in medias ensures exists md :: md in s.medias && KeptAs(m, s, sdp, md, x) {
      assert BecameOf(m, s, sdp, |sdp.lines|, x);
      var md :| md in s.medias && Became(m, s, sdp, md, |sdp.lines|) == Some(x);
      BecameKept(m, s, sdp, md);
    }
  }

  /**
   The medias after an accepted SDP are the known ones, each as its line says, and behind them one
   for every new media line, in order, each as its line says with the config negotiated so far.
   */
  ghost predicate MediasAfter(m: Matcher, s: Session, sdp: Sdp, isOffer: bool, medias: seq<Media>) {
    var news := NewOnes(s, sdp, |sdp.lines|);
    exists k :: 0 <= k <= |medias| && KnownKept(m, s, sdp, medias[..k]) &&
                AllOpened(m, s.config, news, |news|, isOffer, sdp.bundle, medias[k..])
  }

  lemma {:induction false} AcceptedMedias(m: Matcher, s: Session, sdp: Sdp, isOffer: bool)
    requires WellFormed(s) && TakeIn(m, s, sdp, isOffer).Accepted?
    ensures MediasAfter(m, s, sdp, isOffer, TakeIn(m, s, sdp, isOffer).value.medias)
  {
    var sync := SyncMedias(m, s, sdp, isOffer, |sdp.lines|);
    var (s1, news) := sync.value;
    WellFormedIsPlaced(s);
    SyncFitsIff(m, s, sdp, isOffer, |sdp.lines|, sync);
    SyncedNews(m, s, sdp, isOffer);
    KnownAreKept(m, s, sdp, s1.medias);
    OpeningAll(m, s1, news, isOffer, sdp.bundle);
    var medias, k := TakeIn(m, s, sdp, isOffer).value.medias, |s1.medias|;
    assert medias[..k] == s1.medias && AllOpened(m, s.config, news, |news|, isOffer, sdp.bundle, medias[k..]);
  }
}
