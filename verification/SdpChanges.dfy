/**
 Pending changes: the lines an offer adds, merging an earlier offer into a new one, and
 checking the answer against what was offered.
 */
module SdpChanges {
  import opened Prelude
  import opened CodecNegotiation
  import opened SdpSession
  import opened SdpSlots
  import Channels

  datatype IceCreds = IceCreds(ufrag: string, pass: string)

  datatype Change =
    | AddMedia(mid: Mid, kind: MediaType, cname: string, dir: Direction)
    | AddApp(mid: Mid)
    | AddChannel(id: Channels.ChannelId, config: Channels.ChannelConfig)
    | SetDirection(target: Mid, dir: Direction)
    | IceRestart(creds: IceCreds, keepLocalCandidates: bool)

  predicate AddsLine(c: Change) {
    c.AddMedia? || c.AddApp?
  }

  // ---- The lines an offer adds ----

  function CountNewMedias(changes: seq<Change>): nat {
    if changes == [] then 0
    else CountNewMedias(changes[..|changes| - 1]) + (if AddsLine(changes[|changes| - 1]) then 1 else 0)
  }

  /** The new lines of an offer: only changes that add a line take up an index. */
  function AsNewMedias(changes: seq<Change>, start: nat): (es: seq<Entry>)
    ensures |es| == CountNewMedias(changes)
    ensures forall i :: 0 <= i < |es| ==> es[i].index == start + i
  {
    if changes == [] then [] else
      var rest := AsNewMedias(changes[..|changes| - 1], start);
      var c := changes[|changes| - 1];
      if AddsLine(c) then rest + [Entry(c.mid, start + |rest|)] else rest
  }

  function OfferEntries(s: Session, changes: seq<Change>): seq<Entry> {
    AsMediaLines(s) + AsNewMedias(changes, |AsMediaLines(s)|)
  }

  /** Every line of an offer has the index of its position. */
  lemma OfferIsContiguous(s: Session, changes: seq<Change>)
    requires WellFormed(s)
    ensures Contiguous(OfferEntries(s, changes))
  {
  }

  lemma {:induction false} CountConcat(xs: seq<Change>, ys: seq<Change>)
    ensures CountNewMedias(xs + ys) == CountNewMedias(xs) + CountNewMedias(ys)
  {
    if ys == [] {
      assert xs + ys == xs;
    } else {
      assert (xs + ys)[..|xs + ys| - 1] == xs + ys[..|ys| - 1];
      CountConcat(xs, ys[..|ys| - 1]);
    }
  }

  lemma {:induction false} NewMediasConcat(xs: seq<Change>, ys: seq<Change>, start: nat)
    ensures AsNewMedias(xs + ys, start) == AsNewMedias(xs, start) + AsNewMedias(ys, start + CountNewMedias(xs))
  {
    if ys == [] {
      assert xs + ys == xs;
    } else {
      assert (xs + ys)[..|xs + ys| - 1] == xs + ys[..|ys| - 1];
      NewMediasConcat(xs, ys[..|ys| - 1], start);
    }
  }

  // ---- Merging ----

  /** The state a pending change is compared with. */
  datatype Rtc = Rtc(session: Session, channels: Channels.Handler, localCreds: IceCreds)

  function MediaOf(s: Session, mid: Mid): Option<Media> {
    var k := FindMid(s.medias, mid);
    if k.None? then None else Some(s.medias[k.value])
  }

  predicate IsRelevant(rtc: Rtc, c: Change) {
    match c
    case AddMedia(mid, _, _, _) => MediaOf(rtc.session, mid).None?
    case AddApp(_) => rtc.session.app.None?
    case AddChannel(id, _) => Channels.StreamOf(rtc.channels, id).None?
    case SetDirection(mid, dir) =>
      var media := MediaOf(rtc.session, mid);
      media.Some? && media.value.dir != dir
    case IceRestart(creds, _) => rtc.localCreds != creds
  }

  function RetainRelevant(rtc: Rtc, changes: seq<Change>): seq<Change> {
    if changes == [] then [] else
      var rest := RetainRelevant(rtc, changes[..|changes| - 1]);
      if IsRelevant(rtc, changes[|changes| - 1]) then rest + [changes[|changes| - 1]] else rest
  }

  function Merge(rtc: Rtc, pending: seq<Change>, own: seq<Change>): seq<Change> {
    RetainRelevant(rtc, pending) + own
  }

  lemma {:induction false} RetainConcat(rtc: Rtc, xs: seq<Change>, ys: seq<Change>)
    ensures RetainRelevant(rtc, xs + ys) == RetainRelevant(rtc, xs) + RetainRelevant(rtc, ys)
  {
    if ys == [] {
      assert xs + ys == xs;
    } else {
      assert (xs + ys)[..|xs + ys| - 1] == xs + ys[..|ys| - 1];
      RetainConcat(rtc, xs, ys[..|ys| - 1]);
    }
  }

  // The index the i-th change gets in an offer whose new lines start at `start`.
  function LineIndex(changes: seq<Change>, i: nat, start: nat): nat
    requires i < |changes| && AddsLine(changes[i])
  {
    start + CountNewMedias(changes[..i])
  }

  /** The index of a change is the index of the line made from it. */
  lemma {:induction false} LineIndexIs(changes: seq<Change>, i: nat, start: nat)
    requires i < |changes| && AddsLine(changes[i])
    ensures var k := LineIndex(changes, i, start) - start;
            k < CountNewMedias(changes) && AsNewMedias(changes, start)[k] == Entry(changes[i].mid, start + k)
  {
    var pre, post := changes[..i + 1], changes[i + 1..];
    assert changes == pre + post && pre[..i] == changes[..i];
    CountConcat(pre, post);
    NewMediasConcat(pre, post, start);
  }

  /**
   Merging keeps the index of a still relevant line exactly when as many lines of the
   pending offer before it have dropped out as the session has gained in between.
   */
  lemma {:induction false} MergedIndexIff(rtc: Rtc, pending: seq<Change>, own: seq<Change>, i: nat, start: nat,
                                          start': nat)
    requires i < |pending| && AddsLine(pending[i]) && IsRelevant(rtc, pending[i])
    ensures var merged, r := Merge(rtc, pending, own), |RetainRelevant(rtc, pending[..i])|;
            && r < |merged| && merged[r] == pending[i]
            && (LineIndex(merged, r, start') == LineIndex(pending, i, start) <==>
                  CountNewMedias(pending[..i]) - CountNewMedias(RetainRelevant(rtc, pending[..i])) == start' - start)
  {
    var pre, post := pending[..i], pending[i + 1..];
    assert pending == pre + [pending[i]] + post;
    RetainConcat(rtc, pre + [pending[i]], post);
    assert (pre + [pending[i]])[..i] == pre;
    var kept := RetainRelevant(rtc, pre);
    var merged := Merge(rtc, pending, own);
    assert merged == kept + [pending[i]] + RetainRelevant(rtc, post) + own;
    assert merged[..|kept|] == kept;
  }

  lemma {:induction false} RetainAllLines(rtc: Rtc, changes: seq<Change>, start: nat)
    requires forall c :: c in changes && AddsLine(c) ==> IsRelevant(rtc, c)
    ensures CountNewMedias(RetainRelevant(rtc, changes)) == CountNewMedias(changes)
    ensures AsNewMedias(RetainRelevant(rtc, changes), start) == AsNewMedias(changes, start)
  {
    if changes != [] {
      var n := |changes| - 1;
      RetainAllLines(rtc, changes[..n], start);
      assert changes[n] in changes;
      var kept := RetainRelevant(rtc, changes[..n]);
      assert (kept + [changes[n]])[..|kept|] == kept;
    }
  }

  /**
   If the session has not changed since the first offer, so that all its new lines are
   still relevant, the merged offer starts with the very lines of the first offer and
   continues contiguously.
   */
  lemma {:induction false} MergeKeepsPositions(rtc: Rtc, pending: seq<Change>, own: seq<Change>)
    requires WellFormed(rtc.session)
    requires forall c :: c in pending && AddsLine(c) ==> IsRelevant(rtc, c)
    ensures var first := OfferEntries(rtc.session, pending);
            var merged := OfferEntries(rtc.session, Merge(rtc, pending, own));
            first <= merged && Contiguous(merged)
  {
    var start := |AsMediaLines(rtc.session)|;
    RetainAllLines(rtc, pending, start);
    NewMediasConcat(RetainRelevant(rtc, pending), own, start);
    OfferIsContiguous(rtc.session, Merge(rtc, pending, own));
  }

  // ---- Checking the answer ----

  // The first change that adds a line with this mid.
  function OfferedAs(changes: seq<Change>, mid: Mid): (r: Option<Change>)
    ensures r.Some? ==> r.value in changes && AddsLine(r.value) && r.value.mid == mid
    ensures r.None? ==> forall c :: c in changes && AddsLine(c) ==> c.mid != mid
  {
    if changes == [] then None
    else if AddsLine(changes[0]) && changes[0].mid == mid then Some(changes[0])
    else OfferedAs(changes[1..], mid)
  }

  predicate LineMatches(changes: seq<Change>, l: MediaLine) {
    match OfferedAs(changes, l.mid)
    case None => false
    case Some(c) => if c.AddMedia? then l.typ.IsMedia() else l.typ.IsChannel()
  }

  predicate CorrectAnswer(changes: seq<Change>, news: seq<NewLine>) {
    && CountNewMedias(changes) == |news|
    && forall i :: 0 <= i < |news| ==> LineMatches(changes, news[i].line)
  }

  function LineMids(changes: seq<Change>): set<Mid> {
    set c | c in changes && AddsLine(c) :: c.mid
  }

  /** No two pending changes add a line with the same mid. */
  ghost predicate ChangeMidsDistinct(changes: seq<Change>) {
    forall i, j :: 0 <= i < j < |changes| && AddsLine(changes[i]) && AddsLine(changes[j]) ==>
      changes[i].mid != changes[j].mid
  }

  ghost predicate NewMidsDistinct(news: seq<NewLine>) {
    forall i, j :: 0 <= i < j < |news| ==> news[i].line.mid != news[j].line.mid
  }

  lemma {:induction false} LineMidsSize(changes: seq<Change>)
    ensures |LineMids(changes)| <= CountNewMedias(changes)
  {
    if changes == [] {
      assert LineMids(changes) == {};
    } else {
      var n := |changes| - 1;
      LineMidsSize(changes[..n]);
      var extra: set<Mid> := if AddsLine(changes[n]) then {changes[n].mid} else {};
      assert changes == changes[..n] + [changes[n]];
      assert LineMids(changes) == LineMids(changes[..n]) + extra;
    }
  }

  function NewMids(news: seq<NewLine>): set<Mid> {
    set i | 0 <= i < |news| :: news[i].line.mid
  }

  lemma {:induction false} NewMidsSize(news: seq<NewLine>)
    requires NewMidsDistinct(news)
    ensures |NewMids(news)| == |news|
  {
    if news == [] {
      assert NewMids(news) == {};
    } else {
      var n := |news| - 1;
      NewMidsSize(news[..n]);
      forall x ensures x in NewMids(news) <==> x in NewMids(news[..n]) || x == news[n].line.mid {
        if x in NewMids(news[..n]) {
          var i :| 0 <= i < n && news[..n][i].line.mid == x;
          assert news[i].line.mid == x;
        }
        if x in NewMids(news) {
          var i :| 0 <= i < |news| && news[i].line.mid == x;
          assert i < n ==> news[..n][i].line.mid == x;
        }
      }
      assert NewMids(news) == NewMids(news[..n]) + {news[n].line.mid};
    }
  }

  lemma SameSizeSubset<T>(a: set<T>, b: set<T>)
    requires a <= b && |b| <= |a|
    ensures a == b
  {
    assert b == a + (b - a);
  }

  /** With distinct mids a correct answer has a line for every pending line, of the right type. */
  lemma {:induction false} CorrectAnswerCovers(changes: seq<Change>, news: seq<NewLine>, c: Change)
    requires CorrectAnswer(changes, news) && NewMidsDistinct(news) && ChangeMidsDistinct(changes)
    requires c in changes && AddsLine(c)
    ensures exists i :: 0 <= i < |news| && news[i].line.mid == c.mid &&
                        (if c.AddMedia? then news[i].line.typ.IsMedia() else news[i].line.typ.IsChannel())
  {
    LineMidsSize(changes);
    NewMidsSize(news);
    assert NewMids(news) <= LineMids(changes) by {
      forall x | x in NewMids(news) ensures x in LineMids(changes) {
        var i :| 0 <= i < |news| && news[i].line.mid == x;
        assert LineMatches(changes, news[i].line);
      }
    }
    SameSizeSubset(NewMids(news), LineMids(changes));
    assert c.mid in LineMids(changes);
    var i :| 0 <= i < |news| && news[i].line.mid == c.mid;
    assert LineMatches(changes, news[i].line);
    var d := OfferedAs(changes, c.mid).value;
    var j :| 0 <= j < |changes| && changes[j] == c;
    var k :| 0 <= k < |changes| && changes[k] == d;
    assert j == k || j < k || k < j;
  }

  // ---- Applying an answer ----

  // Fills in what was pre-allocated for the offer; a missing media is a panic.
  function AddPendingChange(s: Session, c: Change): Step<Session> {
    if !c.AddMedia? then Done(s) else
      var k := FindMid(s.medias, c.mid);
      if k.None? then Panic
      else Done(s.(medias := s.medias[k.value := s.medias[k.value].(cname := Some(c.cname))]))
  }

  function AddPendingChanges(s: Session, changes: seq<Change>, n: nat): Step<Session>
    requires n <= |changes|
  {
    if n == 0 then Done(s) else
      var s1 :- AddPendingChanges(s, changes, n - 1);
      AddPendingChange(s1, changes[n - 1])
  }

  function ApplyAnswer(m: Matcher, s: Session, changes: seq<Change>, answer: Sdp): Verdict<Session> {
    var (s1, news) :- SyncMedias(m, s, answer, false, |answer.lines|);
    if !CorrectAnswer(changes, news) then Rejected else
      var s2 :- AddNewLines(m, s1, news, answer.bundle, false, |news|);
      match AddPendingChanges(s2, changes, |changes|)
      case Panic => Panicked
      case Done(s3) => Accepted(s3)
  }

  ghost predicate HasMid(medias: seq<Media>, mid: Mid) {
    exists i :: 0 <= i < |medias| && medias[i].mid == mid
  }

  lemma {:induction false} PendingSucceeds(s: Session, changes: seq<Change>, n: nat)
    requires n <= |changes|
    requires forall c :: c in changes && c.AddMedia? ==> HasMid(s.medias, c.mid)
    ensures AddPendingChanges(s, changes, n).Done?
    ensures forall mid :: HasMid(s.medias, mid) ==> HasMid(AddPendingChanges(s, changes, n).value.medias, mid)
    ensures Entries(AddPendingChanges(s, changes, n).value) == Entries(s)
  {
    if n > 0 {
      PendingSucceeds(s, changes, n - 1);
      var s1, c := AddPendingChanges(s, changes, n - 1).value, changes[n - 1];
      assert c in changes;
      if c.AddMedia? {
        assert HasMid(s1.medias, c.mid);
        var k := FindMid(s1.medias, c.mid).value;
        var s2 := AddPendingChange(s1, c).value;
        assert forall i :: 0 <= i < |s2.medias| ==> s2.medias[i].mid == s1.medias[i].mid;
        forall mid | HasMid(s1.medias, mid) ensures HasMid(s2.medias, mid) {
          var i :| 0 <= i < |s1.medias| && s1.medias[i].mid == mid;
          assert s2.medias[i].mid == mid;
        }
        SeatsOfUpdate(s1.medias, k, s2.medias[k]);
      }
    }
  }

  lemma {:induction false} AddedHaveMids(m: Matcher, s: Session, news: seq<NewLine>, bundle: Option<seq<Mid>>,
                                         isOffer: bool, n: nat)
    requires n <= |news| && AddNewLines(m, s, news, bundle, isOffer, n).Accepted?
    ensures var s' := AddNewLines(m, s, news, bundle, isOffer, n).value;
            forall i :: 0 <= i < n && news[i].line.typ.IsMedia() ==> HasMid(s'.medias, news[i].line.mid)
  {
    if n > 0 {
      AddedHaveMids(m, s, news, bundle, isOffer, n - 1);
      var s1 := AddNewLines(m, s, news, bundle, isOffer, n - 1).value;
      var s2 := AddNewLines(m, s, news, bundle, isOffer, n).value;
      assert s1.medias <= s2.medias;
      forall i | 0 <= i < n && news[i].line.typ.IsMedia() ensures HasMid(s2.medias, news[i].line.mid) {
        if i < n - 1 {
          assert HasMid(s1.medias, news[i].line.mid);
          var k :| 0 <= k < |s1.medias| && s1.medias[k].mid == news[i].line.mid;
          assert s2.medias[k] == s1.medias[k];
        } else {
          assert s2.medias[|s1.medias|].mid == news[i].line.mid;
        }
      }
    }
  }

  lemma {:induction false} NewsComeFromLines(m: Matcher, s: Session, sdp: Sdp, isOffer: bool, n: nat)
    requires n <= |sdp.lines| && SyncMedias(m, s, sdp, isOffer, n).Accepted?
    ensures var news := SyncMedias(m, s, sdp, isOffer, n).value.1;
            forall i :: 0 <= i < |news| ==> news[i].index < n && news[i].line == sdp.lines[news[i].index]
  {
    if n > 0 {
      NewsComeFromLines(m, s, sdp, isOffer, n - 1);
    }
  }

  /**
   With distinct mids on both sides, an answer that passes the check never meets a missing
   media when the pending changes are added: the only panic left is in PT negotiation.
   */
  lemma {:induction false} PendingMediaIsPresent(m: Matcher, s: Session, changes: seq<Change>, answer: Sdp)
    requires LineMidsDistinct(answer) && ChangeMidsDistinct(changes)
    requires SyncMedias(m, s, answer, false, |answer.lines|).Accepted?
    requires var (s1, news) := SyncMedias(m, s, answer, false, |answer.lines|).value;
             CorrectAnswer(changes, news) && AddNewLines(m, s1, news, answer.bundle, false, |news|).Accepted?
    ensures ApplyAnswer(m, s, changes, answer).Accepted?
  {
    var (s1, news) := SyncMedias(m, s, answer, false, |answer.lines|).value;
    NewsComeFromLines(m, s, answer, false, |answer.lines|);
    NewsIncrease(m, s, answer, false, |answer.lines|);
    assert NewMidsDistinct(news);
    AddedHaveMids(m, s1, news, answer.bundle, false, |news|);
    var s2 := AddNewLines(m, s1, news, answer.bundle, false, |news|).value;
    forall c | c in changes && c.AddMedia? ensures HasMid(s2.medias, c.mid) {
      CorrectAnswerCovers(changes, news, c);
    }
    PendingSucceeds(s2, changes, |changes|);
  }

  // ---- When exactly the pending changes can be added ----

  ghost predicate SameMids(xs: seq<Media>, ys: seq<Media>) {
    |xs| == |ys| && forall i :: 0 <= i < |xs| ==> xs[i].mid == ys[i].mid
  }

  lemma {:induction false} SameMidsHave(xs: seq<Media>, ys: seq<Media>, mid: Mid)
    requires SameMids(xs, ys)
    ensures HasMid(xs, mid) <==> HasMid(ys, mid)
  {
    if HasMid(xs, mid) {
      var i :| 0 <= i < |xs| && xs[i].mid == mid;
      assert ys[i].mid == mid;
    }
    if HasMid(ys, mid) {
      var i :| 0 <= i < |ys| && ys[i].mid == mid;
      assert xs[i].mid == mid;
    }
  }

  lemma {:induction false} PendingKeepsMids(s: Session, changes: seq<Change>, n: nat)
    requires n <= |changes| && AddPendingChanges(s, changes, n).Done?
    ensures SameMids(s.medias, AddPendingChanges(s, changes, n).value.medias)
  {
    if n > 0 {
      PendingKeepsMids(s, changes, n - 1);
    }
  }

  lemma {:induction false} PendingNeeds(s: Session, changes: seq<Change>, n: nat)
    requires n <= |changes| && AddPendingChanges(s, changes, n).Done?
    ensures forall i :: 0 <= i < n && changes[i].AddMedia? ==> HasMid(s.medias, changes[i].mid)
  {
    if n > 0 {
      PendingNeeds(s, changes, n - 1);
      var s1, c := AddPendingChanges(s, changes, n - 1).value, changes[n - 1];
      if c.AddMedia? {
        var k := FindMid(s1.medias, c.mid).value;
        assert s1.medias[k].mid == c.mid;
        PendingKeepsMids(s, changes, n - 1);
        SameMidsHave(s.medias, s1.medias, c.mid);
      }
    }
  }

  // A media line with this mid.
  ghost predicate HasMediaLine(lines: seq<MediaLine>, mid: Mid) {
    exists i :: 0 <= i < |lines| && lines[i].mid == mid && lines[i].typ.IsMedia()
  }

  // An answer never takes a media away.
  lemma {:induction false} AnswerKeepsMids(m: Matcher, s: Session, answer: Sdp, n: nat)
    requires n <= |answer.lines| && SyncMedias(m, s, answer, false, n).Accepted?
    ensures SameMids(s.medias, SyncMedias(m, s, answer, false, n).value.0.medias)
  {
    if n > 0 {
      AnswerKeepsMids(m, s, answer, n - 1);
      AnswerLineKeepsMids(m, SyncMedias(m, s, answer, false, n - 1).value.0, n - 1, answer.lines[n - 1], answer.bundle);
    }
  }

  // Each media line of an answer is known or new.
  lemma {:induction false} AnswerLineIsKnownOrNew(m: Matcher, s: Session, answer: Sdp, n: nat, i: nat)
    requires i < n <= |answer.lines| && SyncMedias(m, s, answer, false, n).Accepted? && answer.lines[i].typ.IsMedia()
    ensures || HasMid(s.medias, answer.lines[i].mid)
            || IsNewLine(SyncMedias(m, s, answer, false, n).value.1, answer.lines[i])
  {
    var (s1, news) := SyncMedias(m, s, answer, false, n - 1).value;
    var news' := SyncMedias(m, s, answer, false, n).value.1;
    if i < n - 1 {
      AnswerLineIsKnownOrNew(m, s, answer, n - 1, i);
      if IsNewLine(news, answer.lines[i]) {
        var j :| 0 <= j < |news| && news[j].line == answer.lines[i];
        assert news'[j] == news[j];
      }
    } else {
      AnswerKeepsMids(m, s, answer, i);
      AnswerLineKeepsMids(m, s1, i, answer.lines[i], answer.bundle);
      SameMidsHave(s.medias, s1.medias, answer.lines[i].mid);
      if SyncLine(m, s1, i, answer.lines[i], answer.bundle, false).value.1 {
        assert news'[|news|].line == answer.lines[i];
      }
    }
  }

  ghost predicate IsNewLine(news: seq<NewLine>, l: MediaLine) {
    exists j :: 0 <= j < |news| && news[j].line == l
  }

  lemma {:induction false} AnswerLineKeepsMids(m: Matcher, s: Session, idx: nat, l: MediaLine, bundle: Option<seq<Mid>>)
    requires SyncLine(m, s, idx, l, bundle, false).Accepted?
    ensures var (s', isNew) := SyncLine(m, s, idx, l, bundle, false).value;
            SameMids(s.medias, s'.medias) && (l.typ.IsMedia() && !isNew ==> HasMid(s.medias, l.mid))
  {
    var k := FindMid(s.medias, l.mid);
    if k.Some? {
      assert s.medias[k.value].mid == l.mid;
    }
  }

  lemma {:induction false} OnlyAddedMids(m: Matcher, s: Session, news: seq<NewLine>, bundle: Option<seq<Mid>>, n: nat,
                                         mid: Mid)
    requires n <= |news| && AddNewLines(m, s, news, bundle, false, n).Accepted?
    requires HasMid(AddNewLines(m, s, news, bundle, false, n).value.medias, mid)
    ensures || HasMid(s.medias, mid)
            || exists i :: 0 <= i < |news| && news[i].line.mid == mid && news[i].line.typ.IsMedia()
  {
    if n > 0 {
      var s1 := AddNewLines(m, s, news, bundle, false, n - 1).value;
      var s2 := AddNewLines(m, s, news, bundle, false, n).value;
      var i :| 0 <= i < |s2.medias| && s2.medias[i].mid == mid;
      if i < |s1.medias| {
        assert s1.medias[i].mid == mid;
        OnlyAddedMids(m, s, news, bundle, n - 1, mid);
      } else {
        assert news[n - 1].line.mid == mid && news[n - 1].line.typ.IsMedia();
      }
    }
  }

  /** Every pending media is in the session already or has a media line in the answer. */
  ghost predicate Covers(s: Session, changes: seq<Change>, answer: Sdp) {
    forall c :: c in changes && c.AddMedia? ==> HasMid(s.medias, c.mid) || HasMediaLine(answer.lines, c.mid)
  }

  lemma {:induction false} CoveredIsPresent(m: Matcher, s: Session, answer: Sdp, mid: Mid)
    requires TakeIn(m, s, answer, false).Accepted? && (HasMid(s.medias, mid) || HasMediaLine(answer.lines, mid))
    ensures HasMid(TakeIn(m, s, answer, false).value.medias, mid)
  {
    var (s1, news) := SyncMedias(m, s, answer, false, |answer.lines|).value;
    if HasMid(s.medias, mid) {
      AnswerKeepsMids(m, s, answer, |answer.lines|);
      SameMidsHave(s.medias, s1.medias, mid);
      KeptMids(m, s1, news, answer.bundle, |news|, mid);
    } else {
      var i :| 0 <= i < |answer.lines| && answer.lines[i].mid == mid && answer.lines[i].typ.IsMedia();
      AnswerLineIsKnownOrNew(m, s, answer, |answer.lines|, i);
      var j :| 0 <= j < |news| && news[j].line == answer.lines[i];
      AddedHaveMids(m, s1, news, answer.bundle, false, |news|);
    }
  }

  lemma {:induction false} PresentIsCovered(m: Matcher, s: Session, answer: Sdp, mid: Mid)
    requires TakeIn(m, s, answer, false).Accepted? && HasMid(TakeIn(m, s, answer, false).value.medias, mid)
    ensures HasMid(s.medias, mid) || HasMediaLine(answer.lines, mid)
  {
    var (s1, news) := SyncMedias(m, s, answer, false, |answer.lines|).value;
    AnswerKeepsMids(m, s, answer, |answer.lines|);
    SameMidsHave(s.medias, s1.medias, mid);
    OnlyAddedMids(m, s1, news, answer.bundle, |news|, mid);
    if !HasMid(s1.medias, mid) {
      NewsComeFromLines(m, s, answer, false, |answer.lines|);
      var j :| 0 <= j < |news| && news[j].line.mid == mid && news[j].line.typ.IsMedia();
      assert answer.lines[news[j].index] == news[j].line;
    }
  }

  lemma {:induction false} KeptMids(m: Matcher, s: Session, news: seq<NewLine>, bundle: Option<seq<Mid>>, n: nat,
                                    mid: Mid)
    requires n <= |news| && AddNewLines(m, s, news, bundle, false, n).Accepted? && HasMid(s.medias, mid)
    ensures HasMid(AddNewLines(m, s, news, bundle, false, n).value.medias, mid)
  {
    if n > 0 {
      KeptMids(m, s, news, bundle, n - 1, mid);
      var s1 := AddNewLines(m, s, news, bundle, false, n - 1).value;
      var s2 := AddNewLines(m, s, news, bundle, false, n).value;
      var i :| 0 <= i < |s1.medias| && s1.medias[i].mid == mid;
      assert s2.medias[i].mid == mid;
    }
  }

  /**
   An answer that passes the check and whose lines are taken in is accepted exactly when it
   covers the pending medias; otherwise adding the pending changes panics.
   */
  lemma {:induction false} PendingPanicsIff(m: Matcher, s: Session, changes: seq<Change>, answer: Sdp)
    requires TakeIn(m, s, answer, false).Accepted?
    requires CorrectAnswer(changes, SyncMedias(m, s, answer, false, |answer.lines|).value.1)
    ensures ApplyAnswer(m, s, changes, answer).Accepted? <==> Covers(s, changes, answer)
    ensures ApplyAnswer(m, s, changes, answer).Panicked? <==> !Covers(s, changes, answer)
  {
    var s2 := TakeIn(m, s, answer, false).value;
    if Covers(s, changes, answer) {
      forall c | c in changes && c.AddMedia? ensures HasMid(s2.medias, c.mid) {
        CoveredIsPresent(m, s, answer, c.mid);
      }
      PendingSucceeds(s2, changes, |changes|);
    }
    if AddPendingChanges(s2, changes, |changes|).Done? {
      PendingNeeds(s2, changes, |changes|);
      forall c | c in changes && c.AddMedia? ensures HasMid(s.medias, c.mid) || HasMediaLine(answer.lines, c.mid) {
        PresentIsCovered(m, s, answer, c.mid);
      }
    }
  }

  /** Distinct mids in the answer are needed: a repeated mid passes the check and then panics. */
  lemma RepeatedMidPanics(m: Matcher)
    ensures var s := Session(None, [], []);
            var changes := [AddMedia("a", Audio, "c", SendRecv), AddMedia("b", Audio, "c", SendRecv)];
            var line := MediaLine("a", Audio, false, SendRecv, []);
            ApplyAnswer(m, s, changes, Sdp([line, line], None)).Panicked?
  {
    var s := Session(None, [], []);
    var a, b := AddMedia("a", Audio, "c", SendRecv), AddMedia("b", Audio, "c", SendRecv);
    var changes := [a, b];
    var line := MediaLine("a", Audio, false, SendRecv, []);
    var answer := Sdp([line, line], None);
    var news := [NewLine(0, line), NewLine(1, line)];
    assert SyncMedias(m, s, answer, false, 2) == Accepted((s, news)) by {
      assert SyncMedias(m, s, answer, false, 0) == Accepted((s, []));
      assert SyncMedias(m, s, answer, false, 1) == Accepted((s, [] + [NewLine(0, line)]));
      assert [] + [NewLine(0, line)] == [NewLine(0, line)];
      assert [NewLine(0, line)] + [NewLine(1, line)] == news;
    }
    assert CorrectAnswer(changes, news) by {
      CountOne(a);
      CountOne(b);
      CountConcat([a], [b]);
      assert [a] + [b] == changes;
      assert OfferedAs(changes, "a") == Some(a);
    }
    RepeatedMidAdds(m, news, line);
    var s2 := AddNewLines(m, s, news, None, false, 2).value;
    RepeatedMidMisses(s2, changes);
  }

  lemma CountOne(c: Change)
    requires AddsLine(c)
    ensures CountNewMedias([c]) == 1
  {
    assert [c][..0] == [];
  }

  lemma RepeatedMidAdds(m: Matcher, news: seq<NewLine>, line: MediaLine)
    requires line == MediaLine("a", Audio, false, SendRecv, []) && news == [NewLine(0, line), NewLine(1, line)]
    ensures var r := AddNewLines(m, Session(None, [], []), news, None, false, 2);
            r.Accepted? && |r.value.medias| == 2 && r.value.medias[0].mid == "a" && r.value.medias[1].mid == "a"
  {
    var s := Session(None, [], []);
    assert AddNewLines(m, s, news, None, false, 0) == Accepted(s);
    AddBareLine(m, s, news[0], None, false);
    var s1 := AddLine(m, s, news[0], None, false).value;
    assert AddNewLines(m, s, news, None, false, 1) == Accepted(s1);
    AddBareLine(m, s1, news[1], None, false);
    var s2 := AddLine(m, s1, news[1], None, false).value;
    assert AddNewLines(m, s, news, None, false, 2) == Accepted(s2);
    assert s2.medias[0] == s2.medias[..1][0];
  }

  lemma RepeatedMidMisses(s: Session, changes: seq<Change>)
    requires |s.medias| == 2 && s.medias[0].mid == "a" && s.medias[1].mid == "a"
    requires changes == [AddMedia("a", Audio, "c", SendRecv), AddMedia("b", Audio, "c", SendRecv)]
    ensures AddPendingChanges(s, changes, 2).Panic?
  {
    assert AddPendingChanges(s, changes, 0) == Done(s);
    assert FindMid(s.medias, "a") == Some(0);
    var s1 := AddPendingChanges(s, changes, 1).value;
    assert s1.medias[0].mid == "a" && s1.medias[1].mid == "a";
    assert "a"[0] != "b"[0];
    assert FindMid(s1.medias, "b").None?;
  }

  lemma {:induction false} PendingKeepsEntries(s: Session, changes: seq<Change>, n: nat)
    requires n <= |changes| && AddPendingChanges(s, changes, n).Done?
    ensures Entries(AddPendingChanges(s, changes, n).value) == Entries(s)
  {
    if n > 0 {
      PendingKeepsEntries(s, changes, n - 1);
      var s1, c := AddPendingChanges(s, changes, n - 1).value, changes[n - 1];
      if c.AddMedia? {
        var k := FindMid(s1.medias, c.mid).value;
        SeatsOfUpdate(s1.medias, k, s1.medias[k].(cname := Some(c.cname)));
      }
    }
  }

  // An accepted answer was taken in like an offer, and the pending changes move no line.
  lemma {:induction false} AnswerEntries(m: Matcher, s: Session, changes: seq<Change>, answer: Sdp)
    requires ApplyAnswer(m, s, changes, answer).Accepted?
    ensures TakeIn(m, s, answer, false).Accepted?
    ensures AsMediaLines(ApplyAnswer(m, s, changes, answer).value) == AsMediaLines(TakeIn(m, s, answer, false).value)
  {
    PendingKeepsEntries(TakeIn(m, s, answer, false).value, changes, |changes|);
  }

  /** After an accepted answer the session has the lines of the answer exactly when it respects the slots. */
  lemma {:induction false} AnswerLines(m: Matcher, s: Session, changes: seq<Change>, answer: Sdp)
    requires WellFormed(s) && ApplyAnswer(m, s, changes, answer).Accepted?
    ensures AsMediaLines(ApplyAnswer(m, s, changes, answer).value) == LineEntries(answer) <==> RespectsSlots(s, answer)
  {
    AnswerEntries(m, s, changes, answer);
    AcceptedLinesIff(m, s, answer, false);
  }

  // ---- Runs of offers and answers ----

  /** One exchange: an offer of the remote, or the remote's answer to an offer made of pending changes. */
  datatype Exchange = RemoteOffer(sdp: Sdp) | RemoteAnswer(changes: seq<Change>, sdp: Sdp)

  function TakeExchange(m: Matcher, s: Session, x: Exchange): Verdict<Session> {
    match x
    case RemoteOffer(offer) => ApplyOffer(m, s, offer)
    case RemoteAnswer(changes, answer) => ApplyAnswer(m, s, changes, answer)
  }

  function TakeExchanges(m: Matcher, s: Session, xs: seq<Exchange>): Verdict<Session> {
    if xs == [] then Accepted(s) else
      var s1 :- TakeExchanges(m, s, xs[..|xs| - 1]);
      TakeExchange(m, s1, xs[|xs| - 1])
  }

  // Every SDP is clean in the state the exchanges before have left.
  ghost predicate CleanRun(m: Matcher, s: Session, xs: seq<Exchange>) {
    xs == [] ||
    var n := |xs| - 1;
    && CleanRun(m, s, xs[..n])
    && (TakeExchanges(m, s, xs[..n]).Accepted? ==> CleanSdp(TakeExchanges(m, s, xs[..n]).value, xs[n].sdp))
  }

  lemma {:induction false} CleanExchange(m: Matcher, s: Session, x: Exchange)
    requires WellFormed(s) && TakeExchange(m, s, x).Accepted? && CleanSdp(s, x.sdp)
    ensures WellFormed(TakeExchange(m, s, x).value)
    ensures AsMediaLines(TakeExchange(m, s, x).value) == LineEntries(x.sdp)
  {
    if x.RemoteOffer? {
      AcceptedLinesIff(m, s, x.sdp, true);
    } else {
      AnswerLines(m, s, x.changes, x.sdp);
    }
    LinesMakeWellFormed(TakeExchange(m, s, x).value, x.sdp);
  }

  /**
   Over any run of accepted offers and answers, each clean where it arrives, slots stay
   0 .. n - 1 without a clash, and the session's lines mirror the latest SDP.
   */
  lemma {:induction false} RunOfExchanges(m: Matcher, s: Session, xs: seq<Exchange>)
    requires WellFormed(s) && TakeExchanges(m, s, xs).Accepted? && CleanRun(m, s, xs)
    ensures WellFormed(TakeExchanges(m, s, xs).value)
    ensures xs != [] ==> AsMediaLines(TakeExchanges(m, s, xs).value) == LineEntries(xs[|xs| - 1].sdp)
  {
    if xs != [] {
      var n := |xs| - 1;
      RunOfExchanges(m, s, xs[..n]);
      CleanExchange(m, TakeExchanges(m, s, xs[..n]).value, xs[n]);
    }
  }

  // ---- Splitting out new channels ----

  function ChannelAdds(changes: seq<Change>): seq<Change> {
    if changes == [] then []
    else if changes[0].AddChannel? then [changes[0]] + ChannelAdds(changes[1..])
    else ChannelAdds(changes[1..])
  }

  function NonChannels(changes: seq<Change>): seq<Change> {
    if changes == [] then []
    else if changes[0].AddChannel? then NonChannels(changes[1..])
    else [changes[0]] + NonChannels(changes[1..])
  }

  function Reversed(cs: seq<Change>): seq<Change> {
    if cs == [] then [] else Reversed(cs[1..]) + [cs[0]]
  }

  lemma {:induction false} SplitCounts(changes: seq<Change>)
    ensures multiset(changes) == multiset(ChannelAdds(changes)) + multiset(NonChannels(changes))
    ensures forall c :: c in NonChannels(changes) ==> !c.AddChannel?
    ensures forall c :: c in ChannelAdds(changes) ==> c.AddChannel?
  {
    if changes != [] {
      SplitCounts(changes[1..]);
      assert changes == [changes[0]] + changes[1..];
    }
  }

  lemma {:induction false} SplitKeepsLines(changes: seq<Change>, start: nat)
    ensures AsNewMedias(NonChannels(changes), start) == AsNewMedias(changes, start)
  {
    if changes != [] {
      var c, rest := changes[0], changes[1..];
      assert changes == [c] + rest;
      var n: nat := if AddsLine(c) then 1 else 0;
      assert [c][..0] == [];
      assert CountNewMedias([c]) == n;
      SplitKeepsLines(rest, start + n);
      NewMediasConcat([c], rest, start);
      NewMediasConcat([c], NonChannels(rest), start);
    }
  }

  lemma {:induction false} ChannelsConcat(xs: seq<Change>, ys: seq<Change>)
    ensures ChannelAdds(xs + ys) == ChannelAdds(xs) + ChannelAdds(ys)
  {
    if xs == [] {
      assert xs + ys == ys;
    } else {
      ChannelsConcat(xs[1..], ys);
      assert (xs + ys)[1..] == xs[1..] + ys && (xs + ys)[0] == xs[0];
      var head := if xs[0].AddChannel? then [xs[0]] else [];
      assert ChannelAdds(xs) == head + ChannelAdds(xs[1..]);
      assert head + (ChannelAdds(xs[1..]) + ChannelAdds(ys)) == head + ChannelAdds(xs[1..]) + ChannelAdds(ys);
    }
  }

  lemma {:induction false} OthersConcat(xs: seq<Change>, ys: seq<Change>)
    ensures NonChannels(xs + ys) == NonChannels(xs) + NonChannels(ys)
  {
    if xs == [] {
      assert xs + ys == ys;
    } else {
      OthersConcat(xs[1..], ys);
      assert (xs + ys)[1..] == xs[1..] + ys && (xs + ys)[0] == xs[0];
      var head := if xs[0].AddChannel? then [] else [xs[0]];
      assert NonChannels(xs) == head + NonChannels(xs[1..]);
      assert head + (NonChannels(xs[1..]) + NonChannels(ys)) == head + NonChannels(xs[1..]) + NonChannels(ys);
    }
  }

  /** Both parts keep the order of the changes. */
  lemma {:induction false} SplitKeepsOrder(xs: seq<Change>, ys: seq<Change>)
    ensures ChannelAdds(xs + ys) == ChannelAdds(xs) + ChannelAdds(ys)
    ensures NonChannels(xs + ys) == NonChannels(xs) + NonChannels(ys)
  {
    ChannelsConcat(xs, ys);
    OthersConcat(xs, ys);
  }

  lemma {:induction false} ReversedAt(cs: seq<Change>, i: nat)
    requires i < |cs|
    ensures |Reversed(cs)| == |cs| && Reversed(cs)[i] == cs[|cs| - 1 - i]
  {
    if |cs| > 1 {
      ReversedAt(cs[1..], if i < |cs| - 1 then i else 0);
    }
  }

  /** Taking the channels out loses nothing and leaves the lines of the offer as they are. */
  lemma {:induction false} SplitConserves(changes: seq<Change>, start: nat)
    ensures multiset(changes) == multiset(ChannelAdds(changes)) + multiset(NonChannels(changes))
    ensures forall c :: c in NonChannels(changes) ==> !c.AddChannel?
    ensures forall c :: c in ChannelAdds(changes) ==> c.AddChannel?
    ensures AsNewMedias(NonChannels(changes), start) == AsNewMedias(changes, start)
  {
    SplitCounts(changes);
    SplitKeepsLines(changes, start);
  }
}
