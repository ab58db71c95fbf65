/**
 The m-lines of a session and what an SDP from the remote does to them.

 Every media and the data channel application occupy a slot, the index of their m-line.
 A remote SDP is taken in by two loops: `sync_medias` updates known lines, recycles
 stopped slots and collects new lines; `add_new_lines` then adds those.
 */
module SdpSession {
  import opened Prelude
  import opened PayloadTypes
  import opened CodecNegotiation

  type Mid = string

  datatype MediaType = Audio | Video | Application | Unknown {
    predicate IsMedia() { Audio? || Video? }
    predicate IsChannel() { Application? }
  }

  datatype MediaLine = MediaLine(
    mid: Mid, typ: MediaType, disabled: bool, dir: Direction, rtpParams: seq<PayloadParams>)

  datatype Sdp = Sdp(lines: seq<MediaLine>, bundle: Option<seq<Mid>>)

  datatype Media = Media(
    mid: Mid, index: nat, kind: MediaType, cname: Option<string>, dir: Direction,
    remoteCreated: bool, stopped: bool, remotePts: seq<Pt>)
  {
    predicate Disabled() {
      stopped || remotePts == []
    }
  }

  datatype App = App(mid: Mid, index: nat)

  datatype Session = Session(app: Option<App>, medias: seq<Media>, config: seq<PayloadParams>)

  /** Taking in an SDP either succeeds, reports an error, or panics in PT negotiation. */
  datatype Verdict<+T> = Accepted(value: T) | Rejected | Panicked {
    predicate IsFailure() { !Accepted? }
    function PropagateFailure<U>(): Verdict<U>
      requires IsFailure()
    {
      if Rejected? then Rejected else Panicked
    }
    function Extract(): T
      requires Accepted?
    {
      value
    }
  }

  // ---- One known line ----

  // The local entry that matches a remote one best; scores are taken from the local side.
  function MatchParams(m: Matcher, config: seq<PayloadParams>, r: PayloadParams): Option<PayloadParams> {
    BestMatch(Matcher((a, b) => m.score(b, a), m.mirror), r.spec, config)
  }

  function SdpMatchRemote(m: Matcher, config: seq<PayloadParams>, r: PayloadParams, dir: Direction): Option<Pt> {
    var ours := MatchParams(m, config, r);
    if ours.None? then None
    else if dir.SdpIsReceiving() then Some(r.pt)
    else Some(ours.value.pt)
  }

  function MatchedPts(m: Matcher, config: seq<PayloadParams>, rs: seq<PayloadParams>, dir: Direction): seq<Pt> {
    if rs == [] then [] else
      var rest := MatchedPts(m, config, rs[..|rs| - 1], dir);
      var pt := SdpMatchRemote(m, config, rs[|rs| - 1], dir);
      if pt.None? then rest else rest + [pt.value]
  }

  predicate InBundle(mid: Mid, bundle: Option<seq<Mid>>) {
    bundle.Some? && mid in bundle.value
  }

  // A zero port rejects the line, unless the line is bundled with another one.
  predicate IsRejected(l: MediaLine, bundle: Option<seq<Mid>>) {
    l.disabled && !InBundle(l.mid, bundle)
  }

  function UpdateMedia(m: Matcher, media: Media, l: MediaLine, config: seq<PayloadParams>, bundle: Option<seq<Mid>>)
    : (r: Media)
    ensures r.mid == media.mid && r.index == media.index
  {
    if IsRejected(l, bundle) then media.(stopped := true, dir := Inactive) else
      var newDir := l.dir.Invert();
      var disallowed := !media.remoteCreated && media.dir.Inactive? && newDir.SendOnly?;
      media.(dir := if disallowed then media.dir else newDir,
             remotePts := if media.remotePts != [] then media.remotePts else MatchedPts(m, config, l.rtpParams, l.dir))
  }

  lemma {:induction false} MatchedPtsEmpty(m: Matcher, config: seq<PayloadParams>, rs: seq<PayloadParams>,
                                           dir: Direction)
    ensures MatchedPts(m, config, rs, dir) == [] <==> forall i :: 0 <= i < |rs| ==> MatchParams(m, config, rs[i]).None?
  {
    if rs != [] {
      var n := |rs| - 1;
      MatchedPtsEmpty(m, config, rs[..n], dir);
      assert forall i :: 0 <= i < n ==> rs[..n][i] == rs[i];
    }
  }

  /**
   What a line makes of its media. Its slot can be recycled afterwards exactly when the line
   is rejected, the media was stopped before, or no payload type was ever matched. The local
   direction answers the remote one, except that a media of ours that is inactive is not
   turned on by a remote that only wants to receive.
   */
  lemma {:induction false} UpdateMediaOutcome(m: Matcher, media: Media, l: MediaLine, config: seq<PayloadParams>,
                                              bundle: Option<seq<Mid>>)
    ensures var r := UpdateMedia(m, media, l, config, bundle);
            && (r.Disabled() <==>
                  || IsRejected(l, bundle) || media.stopped
                  || (media.remotePts == [] &&
                      forall i :: 0 <= i < |l.rtpParams| ==> MatchParams(m, config, l.rtpParams[i]).None?))
            && (media.remotePts != [] ==> r.remotePts == media.remotePts)
            && (IsRejected(l, bundle) ==> r.dir.Inactive?)
            && (!IsRejected(l, bundle) && r.dir.Invert() != l.dir ==>
                  !media.remoteCreated && media.dir.Inactive? && r.dir.Inactive? && l.dir.RecvOnly?)
  {
    MatchedPtsEmpty(m, config, l.rtpParams, l.dir);
  }

  // ---- First loop ----

  function FindMid(medias: seq<Media>, mid: Mid): (r: Option<nat>)
    ensures r.None? ==> forall i :: 0 <= i < |medias| ==> medias[i].mid != mid
    ensures r.Some? ==> r.value < |medias| && medias[r.value].mid == mid
    ensures r.Some? ==> forall j :: 0 <= j < r.value ==> medias[j].mid != mid
  {
    if medias == [] then None
    else if medias[0].mid == mid then Some(0)
    else
      var r := FindMid(medias[1..], mid);
      if r.None? then
        assert forall i :: 0 < i < |medias| ==> medias[i] == medias[1..][i - 1];
        None
      else Some(r.value + 1)
  }

  function FindIndex(medias: seq<Media>, index: nat): (r: Option<nat>)
    ensures r.None? ==> forall i :: 0 <= i < |medias| ==> medias[i].index != index
    ensures r.Some? ==> r.value < |medias| && medias[r.value].index == index
    ensures r.Some? ==> forall j :: 0 <= j < r.value ==> medias[j].index != index
  {
    if medias == [] then None
    else if medias[0].index == index then Some(0)
    else
      var r := FindIndex(medias[1..], index);
      if r.None? then
        assert forall i :: 0 < i < |medias| ==> medias[i] == medias[1..][i - 1];
        None
      else Some(r.value + 1)
  }

  // Removes the element at pos by moving the last one there.
  function SwapRemove(medias: seq<Media>, pos: nat): (r: seq<Media>)
    requires pos < |medias|
  {
    medias[pos := medias[|medias| - 1]][..|medias| - 1]
  }

  // Takes in line number idx; the second component says whether it is a new line.
  function SyncLine(m: Matcher, s: Session, idx: nat, l: MediaLine, bundle: Option<seq<Mid>>, isOffer: bool)
    : Verdict<(Session, bool)>
  {
    match l.typ
    case Application =>
      if s.app.None? then Accepted((s, true))
      else if s.app.value.index != idx then Rejected
      else Accepted((s, false))
    case Unknown => Accepted((s, false))
    case _ =>
      var k := FindMid(s.medias, l.mid);
      if k.Some? then
        if s.medias[k.value].index != idx then Rejected
        else
          var media := UpdateMedia(m, s.medias[k.value], l, s.config, bundle);
          Accepted((s.(medias := s.medias[k.value := media]), false))
      else
        var pos := FindIndex(s.medias, idx);
        if pos.None? then Accepted((s, true))
        else if !isOffer || !s.medias[pos.value].Disabled() then Rejected
        else Accepted((s.(medias := SwapRemove(s.medias, pos.value)), true))
  }

  datatype NewLine = NewLine(index: nat, line: MediaLine)

  // The session and the new lines after the first n lines.
  function SyncMedias(m: Matcher, s: Session, sdp: Sdp, isOffer: bool, n: nat): Verdict<(Session, seq<NewLine>)>
    requires n <= |sdp.lines|
  {
    if n == 0 then Accepted((s, [])) else
      var (s1, news) :- SyncMedias(m, s, sdp, isOffer, n - 1);
      var (s2, isNew) :- SyncLine(m, s1, n - 1, sdp.lines[n - 1], sdp.bundle, isOffer);
      Accepted((s2, if isNew then news + [NewLine(n - 1, sdp.lines[n - 1])] else news))
  }

  // ---- Second loop ----

  function SetApp(s: Session, mid: Mid, index: nat): Verdict<Session> {
    match s.app
    case None => Accepted(s.(app := Some(App(mid, index))))
    case Some(a) => if a.mid != mid || a.index != index then Rejected else Accepted(s)
  }

  function FromRemote(l: MediaLine, index: nat, isOffer: bool): Media {
    Media(l.mid, index, l.typ, None, if l.disabled then Inactive else l.dir.Invert(), isOffer, false, [])
  }

  function AddLine(m: Matcher, s: Session, nl: NewLine, bundle: Option<seq<Mid>>, isOffer: bool): Verdict<Session> {
    if nl.line.typ.IsMedia() then
      match UpdateParams(m, s.config, nl.line.rtpParams, nl.line.dir)
      case Panic => Panicked
      case Done(config) =>
        var media := UpdateMedia(m, FromRemote(nl.line, nl.index, isOffer), nl.line, config, bundle);
        Accepted(s.(config := config, medias := s.medias + [media]))
    else if nl.line.typ.IsChannel() then
      SetApp(s, nl.line.mid, nl.index)
    else
      Rejected
  }

  function AddNewLines(m: Matcher, s: Session, news: seq<NewLine>, bundle: Option<seq<Mid>>, isOffer: bool, n: nat)
    : Verdict<Session>
    requires n <= |news|
  {
    if n == 0 then Accepted(s) else
      var s1 :- AddNewLines(m, s, news, bundle, isOffer, n - 1);
      AddLine(m, s1, news[n - 1], bundle, isOffer)
  }

  // ---- Loops that stop at the first failure ----

  function Fold<S, X>(f: (S, X) -> Verdict<S>, s: S, xs: seq<X>, n: nat): Verdict<S>
    requires n <= |xs|
  {
    if n == 0 then Accepted(s) else
      var s1 :- Fold(f, s, xs, n - 1);
      f(s1, xs[n - 1])
  }

  // The states such a loop goes through.
  ghost predicate IsTrace<S, X>(f: (S, X) -> Verdict<S>, s: S, xs: seq<X>, states: seq<S>) {
    && 1 <= |states| <= |xs| + 1 && states[0] == s
    && forall k :: 0 <= k < |states| - 1 ==> f(states[k], xs[k]) == Accepted(states[k + 1])
  }

  lemma {:induction false} FoldTrace<S, X>(f: (S, X) -> Verdict<S>, s: S, xs: seq<X>, n: nat) returns (states: seq<S>)
    requires n <= |xs| && Fold(f, s, xs, n).Accepted?
    ensures IsTrace(f, s, xs, states) && |states| == n + 1 && states[n] == Fold(f, s, xs, n).value
  {
    if n == 0 {
      states := [s];
    } else {
      var front := FoldTrace(f, s, xs, n - 1);
      states := front + [Fold(f, s, xs, n).value];
      forall k | 0 <= k < n ensures f(states[k], xs[k]) == Accepted(states[k + 1]) {
        if k < n - 1 {
          assert f(front[k], xs[k]) == Accepted(front[k + 1]);
        }
      }
    }
  }

  function AddLineOf(m: Matcher, bundle: Option<seq<Mid>>, isOffer: bool): (Session, NewLine) -> Verdict<Session> {
    (s, nl) => AddLine(m, s, nl, bundle, isOffer)
  }

  lemma {:induction false} AddNewLinesIsFold(m: Matcher, s: Session, news: seq<NewLine>, bundle: Option<seq<Mid>>,
                                             isOffer: bool, n: nat)
    requires n <= |news|
    ensures AddNewLines(m, s, news, bundle, isOffer, n) == Fold(AddLineOf(m, bundle, isOffer), s, news, n)
  {
    if n > 0 {
      AddNewLinesIsFold(m, s, news, bundle, isOffer, n - 1);
    }
  }

  /** What an SDP from the remote makes of the session. */
  function TakeIn(m: Matcher, s: Session, sdp: Sdp, isOffer: bool): Verdict<Session> {
    var (s1, news) :- SyncMedias(m, s, sdp, isOffer, |sdp.lines|);
    AddNewLines(m, s1, news, sdp.bundle, isOffer, |news|)
  }

  function ApplyOffer(m: Matcher, s: Session, offer: Sdp): Verdict<Session> {
    TakeIn(m, s, offer, true)
  }

  // ---- The lines of a session, in the order of an SDP ----

  datatype Entry = Entry(mid: Mid, index: nat)

  function Entries(s: Session): seq<Entry> {
    (if s.app.None? then [] else [Entry(s.app.value.mid, s.app.value.index)]) + MediaEntries(s.medias)
  }

  function MediaEntries(medias: seq<Media>): (es: seq<Entry>)
    ensures |es| == |medias|
    ensures forall i :: 0 <= i < |es| ==> es[i] == Entry(medias[i].mid, medias[i].index)
  {
    seq(|medias|, i requires 0 <= i < |medias| => Entry(medias[i].mid, medias[i].index))
  }

  // Stable insertion behind all entries with the same or a smaller index.
  function Insert(es: seq<Entry>, e: Entry): seq<Entry> {
    if es == [] || es[|es| - 1].index <= e.index then es + [e]
    else Insert(es[..|es| - 1], e) + [es[|es| - 1]]
  }

  function SortByIndex(es: seq<Entry>): seq<Entry> {
    if es == [] then [] else Insert(SortByIndex(es[..|es| - 1]), es[|es| - 1])
  }

  function AsMediaLines(s: Session): seq<Entry> {
    SortByIndex(Entries(s))
  }
}
