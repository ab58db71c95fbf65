/**
 Answers in full: exactly when an answer passes the check, is accepted or panics, what it leaves in
 the session, and which pending changes it makes pointless.
 */
module SdpAnswers {
  import opened Prelude
  import opened CodecNegotiation
  import opened PtUniqueness
  import opened PtCompletion
  import opened SdpSession
  import opened SdpSlots
  import opened SdpCodecs
  import opened SdpMedias
  import opened SdpChanges
  import Channels

  // ---- The check ----

  /** What an offer asks for: mids, and whether each is a media line. */
  function AskedFor(changes: seq<Change>): set<(Mid, bool)> {
    set c | c in changes && AddsLine(c) :: (c.mid, c.AddMedia?)
  }

  /** What the new lines of an answer give. */
  function Given(news: seq<NewLine>): set<(Mid, bool)> {
    set nl | nl in news :: (nl.line.mid, nl.line.typ.IsMedia())
  }

  ghost predicate LinesOrChannels(news: seq<NewLine>) {
    forall nl :: nl in news ==> nl.line.typ.IsMedia() || nl.line.typ.IsChannel()
  }

  // What one more change asks for.
  lemma {:induction false} AskedPush(changes: seq<Change>, c: Change)
    requires ChangeMidsDistinct(changes + [c])
    ensures ChangeMidsDistinct(changes)
    ensures AskedFor(changes + [c]) == AskedFor(changes) + if AddsLine(c) then {(c.mid, c.AddMedia?)} else {}
    ensures AddsLine(c) ==> (c.mid, c.AddMedia?) !in AskedFor(changes)
  {
    var all := changes + [c];
    assert forall i :: 0 <= i < |changes| ==> all[i] == changes[i];
    if AddsLine(c) {
      forall d | d in changes && AddsLine(d) ensures d.mid != c.mid {
        var i :| 0 <= i < |changes| && changes[i] == d;
        assert all[i].mid != all[|changes|].mid;
      }
    }
  }

  lemma {:induction false} AskedSize(changes: seq<Change>)
    requires ChangeMidsDistinct(changes)
    ensures |AskedFor(changes)| == CountNewMedias(changes)
  {
    if changes == [] {
      assert AskedFor(changes) == {};
    } else {
      var n := |changes| - 1;
      assert changes == changes[..n] + [changes[n]];
      AskedPush(changes[..n], changes[n]);
      AskedSize(changes[..n]);
    }
  }

  lemma {:induction false} GivenPush(news: seq<NewLine>, nl: NewLine)
    requires NewMidsDistinct(news + [nl])
    ensures NewMidsDistinct(news)
    ensures Given(news + [nl]) == Given(news) + {(nl.line.mid, nl.line.typ.IsMedia())}
    ensures (nl.line.mid, nl.line.typ.IsMedia()) !in Given(news)
  {
    var all := news + [nl];
    assert forall i :: 0 <= i < |news| ==> all[i] == news[i];
    forall other | other in news ensures other.line.mid != nl.line.mid {
      var i :| 0 <= i < |news| && news[i] == other;
      assert all[i].line.mid != all[|news|].line.mid;
    }
  }

  lemma {:induction false} GivenSize(news: seq<NewLine>)
    requires NewMidsDistinct(news)
    ensures |Given(news)| == |news|
  {
    if news == [] {
      assert Given(news) == {};
    } else {
      var n := |news| - 1;
      assert news == news[..n] + [news[n]];
      GivenPush(news[..n], news[n]);
      GivenSize(news[..n]);
    }
  }

  // The change found for a mid is the only one.
  lemma {:induction false} OfferedOnce(changes: seq<Change>, c: Change)
    requires ChangeMidsDistinct(changes) && c in changes && AddsLine(c)
    ensures OfferedAs(changes, c.mid) == Some(c)
  {
    var d := OfferedAs(changes, c.mid).value;
    var i :| 0 <= i < |changes| && changes[i] == c;
    var j :| 0 <= j < |changes| && changes[j] == d;
    assert i == j || i < j || j < i;
  }

  lemma {:induction false} MatchesIff(changes: seq<Change>, l: MediaLine)
    requires ChangeMidsDistinct(changes) && (l.typ.IsMedia() || l.typ.IsChannel())
    ensures LineMatches(changes, l) <==> (l.mid, l.typ.IsMedia()) in AskedFor(changes)
  {
    if (l.mid, l.typ.IsMedia()) in AskedFor(changes) {
      var c :| c in changes && AddsLine(c) && (c.mid, c.AddMedia?) == (l.mid, l.typ.IsMedia());
      OfferedOnce(changes, c);
    }
  }

  /** With distinct mids an answer passes the check exactly if its new lines are those the offer asked for. */
  lemma {:induction false} CorrectIff(changes: seq<Change>, news: seq<NewLine>)
    requires ChangeMidsDistinct(changes) && NewMidsDistinct(news) && LinesOrChannels(news)
    ensures CorrectAnswer(changes, news) <==> Given(news) == AskedFor(changes)
  {
    AskedSize(changes);
    GivenSize(news);
    forall i | 0 <= i < |news|
      ensures LineMatches(changes, news[i].line) <==>
                (news[i].line.mid, news[i].line.typ.IsMedia()) in AskedFor(changes)
    {
      assert news[i] in news;
      MatchesIff(changes, news[i].line);
    }
    if CorrectAnswer(changes, news) {
      forall x | x in Given(news) ensures x in AskedFor(changes) {
        var nl :| nl in news && x == (nl.line.mid, nl.line.typ.IsMedia());
        var i :| 0 <= i < |news| && news[i] == nl;
      }
      SameSizeSubset(Given(news), AskedFor(changes));
    }
    if Given(news) == AskedFor(changes) {
      forall i | 0 <= i < |news| ensures LineMatches(changes, news[i].line) {
        assert news[i] in news;
        assert (news[i].line.mid, news[i].line.typ.IsMedia()) in Given(news);
      }
    }
  }

  // ---- The verdict ----

  /**
   When an answer is accepted, for a well formed session: its lines fit, its new lines pass the
   check, at most one of them is an application line, their payload type negotiation completes, and
   every pending media is covered. It panics where only the last two can fail and one does.
   */
  lemma {:induction false} AnswerIff(m: Matcher, s: Session, changes: seq<Change>, answer: Sdp)
    requires WellFormed(s)
    ensures var r, run := ApplyAnswer(m, s, changes, answer), RunUpdates(m, s.config, CallsFor(s, answer));
            var checked := && LinesFit(s, answer, false, |answer.lines|)
                           && CorrectAnswer(changes, NewOnes(s, answer, |answer.lines|));
            && (r.Accepted? <==> checked && OneNewApp(s, answer) && run.Done? && Covers(s, changes, answer))
            && (r.Panicked? <==>
                  checked && (run.Panic? || (OneNewApp(s, answer) && run.Done? && !Covers(s, changes, answer))))
            && (r.Accepted? ==> r.value.config == run.value)
  {
    AcceptedIff(m, s, answer, false);
    TakeInVerdict(m, s, answer, false);
    WellFormedIsPlaced(s);
    var sync := SyncMedias(m, s, answer, false, |answer.lines|);
    SyncFitsIff(m, s, answer, false, |answer.lines|, sync);
    AnswerParts(m, s, changes, answer);
    if sync.Accepted? {
      SyncedNews(m, s, answer, false);
      if CorrectAnswer(changes, sync.value.1) && TakeIn(m, s, answer, false).Accepted? {
        PendingPanicsIff(m, s, changes, answer);
      }
    }
  }

  // An answer is taken in like an offer, apart from the check before and the pending changes after.
  lemma {:induction false} AnswerParts(m: Matcher, s: Session, changes: seq<Change>, answer: Sdp)
    ensures var sync := SyncMedias(m, s, answer, false, |answer.lines|);
            var taken, r := TakeIn(m, s, answer, false), ApplyAnswer(m, s, changes, answer);
            && (!sync.Accepted? || !CorrectAnswer(changes, sync.value.1) ==> r.Rejected?)
            && (sync.Accepted? && CorrectAnswer(changes, sync.value.1) && !taken.Accepted? ==> r == taken)
            && (r.Accepted? ==> taken.Accepted? && r.value.config == taken.value.config)
            && (r.Accepted? ==> r.value.app == taken.value.app)
            && (r.Accepted? ==> AddPendingChanges(taken.value, changes, |changes|) == Done(r.value))
  {
    SyncEnds(m, s, answer, false, |answer.lines|);
    if ApplyAnswer(m, s, changes, answer).Accepted? {
      PendingKeepsRest(TakeIn(m, s, answer, false).value, changes, |changes|);
    }
  }

  lemma {:induction false} PendingKeepsRest(s: Session, changes: seq<Change>, n: nat)
    requires n <= |changes| && AddPendingChanges(s, changes, n).Done?
    ensures var s' := AddPendingChanges(s, changes, n).value; s'.config == s.config && s'.app == s.app
  {
    if n > 0 {
      PendingKeepsRest(s, changes, n - 1);
    }
  }

  // ---- What was promised ----

  /** The cname promised for a mid by the first n changes. */
  function Promised(changes: seq<Change>, n: nat, mid: Mid): Option<string>
    requires n <= |changes|
  {
    if n == 0 then None
    else if changes[n - 1].AddMedia? && changes[n - 1].mid == mid then Some(changes[n - 1].cname)
    else Promised(changes, n - 1, mid)
  }

  // The media with the cname promised for it, if any.
  function Named(changes: seq<Change>, n: nat, md: Media): Media
    requires n <= |changes|
  {
    var name := Promised(changes, n, md.mid);
    if name.None? then md else md.(cname := name)
  }

  ghost predicate AllNamed(changes: seq<Change>, n: nat, before: seq<Media>, after: seq<Media>)
    requires n <= |changes|
  {
    |after| == |before| && forall i :: 0 <= i < |before| ==> after[i] == Named(changes, n, before[i])
  }

  lemma {:induction false} NamedNext(changes: seq<Change>, n: nat, before: seq<Media>, s1: Session)
    requires 0 < n <= |changes| && AllNamed(changes, n - 1, before, s1.medias) && MidsDistinct(before)
    requires AddPendingChange(s1, changes[n - 1]).Done?
    ensures AllNamed(changes, n, before, AddPendingChange(s1, changes[n - 1]).value.medias)
  {
    var c, after := changes[n - 1], AddPendingChange(s1, changes[n - 1]).value.medias;
    forall i | 0 <= i < |before| ensures after[i] == Named(changes, n, before[i]) {
      assert s1.medias[i] == Named(changes, n - 1, before[i]);
      if c.AddMedia? {
        var k := FindMid(s1.medias, c.mid).value;
        assert s1.medias[k] == Named(changes, n - 1, before[k]);
        assert i != k ==> before[i].mid != before[k].mid;
      }
    }
  }

  /** Every media of a pending offer gets the cname promised for it, and nothing else changes. */
  lemma {:induction false} PendingNames(s: Session, changes: seq<Change>, n: nat)
    requires n <= |changes| && MidsDistinct(s.medias) && AddPendingChanges(s, changes, n).Done?
    ensures AllNamed(changes, n, s.medias, AddPendingChanges(s, changes, n).value.medias)
  {
    if n > 0 {
      PendingNames(s, changes, n - 1);
      NamedNext(changes, n, s.medias, AddPendingChanges(s, changes, n - 1).value);
    }
  }

  /** After an accepted answer the medias are those its lines make, each with the cname promised for it. */
  lemma {:induction false} AnswerMedias(m: Matcher, s: Session, changes: seq<Change>, answer: Sdp)
    requires WellFormed(s) && CleanSdp(s, answer) && ApplyAnswer(m, s, changes, answer).Accepted?
    ensures exists taken :: MediasAfter(m, s, answer, false, taken) &&
              AllNamed(changes, |changes|, taken, ApplyAnswer(m, s, changes, answer).value.medias)
  {
    AnswerParts(m, s, changes, answer);
    var taken := TakeIn(m, s, answer, false).value;
    AcceptedMedias(m, s, answer, false);
    AcceptedLinesIff(m, s, answer, false);
    LinesMakeWellFormed(taken, answer);
    PendingNames(taken, changes, |changes|);
  }

  // ---- Relevance ----

  /** Turning a media: the session afterwards, and whether that was a change. */
  function SetDirection(s: Session, mid: Mid, dir: Direction): (Session, bool) {
    var k := FindMid(s.medias, mid);
    if k.None? || s.medias[k.value].dir == dir then (s, false)
    else (s.(medias := s.medias[k.value := s.medias[k.value].(dir := dir)]), true)
  }

  lemma FoundIff(medias: seq<Media>, mid: Mid)
    ensures FindMid(medias, mid).Some? <==> HasMid(medias, mid)
  {
  }

  /**
   A pending change is relevant exactly if it still has something to do: its media or application
   is missing, its channel has no stream yet, turning the media would change the session, or the
   credentials are not yet in use.
   */
  lemma {:induction false} RelevantIff(rtc: Rtc, c: Change)
    ensures IsRelevant(rtc, c) <==>
              match c
              case AddMedia(mid, _, _, _) => !HasMid(rtc.session.medias, mid)
              case AddApp(_) => rtc.session.app.None?
              case AddChannel(id, _) => Channels.StreamOf(rtc.channels, id).None?
              case SetDirection(mid, dir) => SetDirection(rtc.session, mid, dir).0 != rtc.session
              case IceRestart(creds, _) => creds != rtc.localCreds
  {
    match c
    case AddMedia(mid, _, _, _) => FoundIff(rtc.session.medias, mid);
    case SetDirection(mid, dir) => TurningChanges(rtc.session, mid, dir);
    case _ =>
  }

  lemma TurningChanges(s: Session, mid: Mid, dir: Direction)
    ensures SetDirection(s, mid, dir).1 <==> SetDirection(s, mid, dir).0 != s
  {
    var k := FindMid(s.medias, mid);
    if k.Some? && s.medias[k.value].dir != dir {
      assert SetDirection(s, mid, dir).0.medias[k.value].dir == dir;
    }
  }

  // The lines of an offer are the news of the session it was made for.
  ghost predicate MadeFor(s: Session, changes: seq<Change>) {
    forall c :: c in changes ==> (c.AddMedia? ==> !HasMid(s.medias, c.mid)) && (c.AddApp? ==> s.app.None?)
  }

  /** An offer merged before anything has happened keeps the lines of the first one in front. */
  lemma {:induction false} MergeInTime(rtc: Rtc, pending: seq<Change>, own: seq<Change>)
    requires WellFormed(rtc.session) && MadeFor(rtc.session, pending)
    ensures OfferEntries(rtc.session, pending) <= OfferEntries(rtc.session, Merge(rtc, pending, own))
    ensures Contiguous(OfferEntries(rtc.session, Merge(rtc, pending, own)))
  {
    forall c | c in pending && AddsLine(c) ensures IsRelevant(rtc, c) {
      RelevantIff(rtc, c);
    }
    MergeKeepsPositions(rtc, pending, own);
  }

  lemma {:induction false} AppAfterAnswer(m: Matcher, s: Session, answer: Sdp)
    requires TakeIn(m, s, answer, false).Accepted?
    requires HasChannel(SyncMedias(m, s, answer, false, |answer.lines|).value.1)
    ensures TakeIn(m, s, answer, false).value.app.Some?
  {
    var (s1, news) := SyncMedias(m, s, answer, false, |answer.lines|).value;
    SyncedNews(m, s, answer, false);
    NewOnesAre(s, answer, |answer.lines|);
    AddVerdict(m, s1, news, answer.bundle, false);
    assert HasApp(news, |news|);
  }

  ghost predicate HasChannel(news: seq<NewLine>) {
    exists i :: 0 <= i < |news| && news[i].line.typ.IsChannel()
  }

  /** After an accepted answer none of the lines it answers is relevant, so a merge takes up none of them again. */
  lemma {:induction false} AnsweredIsDone(m: Matcher, rtc: Rtc, changes: seq<Change>, answer: Sdp, c: Change)
    requires LineMidsDistinct(answer) && ChangeMidsDistinct(changes)
    requires ApplyAnswer(m, rtc.session, changes, answer).Accepted? && c in changes && AddsLine(c)
    ensures !IsRelevant(rtc.(session := ApplyAnswer(m, rtc.session, changes, answer).value), c)
  {
    var s := rtc.session;
    AnswerParts(m, s, changes, answer);
    var (s1, news) := SyncMedias(m, s, answer, false, |answer.lines|).value;
    var taken := TakeIn(m, s, answer, false).value;
    NewsComeFromLines(m, s, answer, false, |answer.lines|);
    NewsIncrease(m, s, answer, false, |answer.lines|);
    assert NewMidsDistinct(news);
    CorrectAnswerCovers(changes, news, c);
    if c.AddMedia? {
      AddedHaveMids(m, s1, news, answer.bundle, false, |news|);
      PendingKeepsMids(taken, changes, |changes|);
      SameMidsHave(taken.medias, ApplyAnswer(m, s, changes, answer).value.medias, c.mid);
    } else {
      AppAfterAnswer(m, s, answer);
    }
    RelevantIff(rtc.(session := ApplyAnswer(m, s, changes, answer).value), c);
  }

  // ---- The config over runs ----

  lemma {:induction false} ExchangeKeepsLocks(m: Matcher, s: Session, x: Exchange)
    requires TakeExchange(m, s, x).Accepted?
    ensures var after := TakeExchange(m, s, x).value.config;
            KeepsLocks(s.config, after) && (Distinct(s.config) ==> Distinct(after))
  {
    if x.RemoteOffer? {
      AcceptedKeepsLocks(m, s, x.sdp, true);
    } else {
      AnswerParts(m, s, x.changes, x.sdp);
      AcceptedKeepsLocks(m, s, x.sdp, false);
    }
  }

  lemma KeepsLocksOn(ps: seq<PayloadParams>, qs: seq<PayloadParams>, rs: seq<PayloadParams>)
    requires KeepsLocks(ps, qs) && KeepsLocks(qs, rs)
    ensures KeepsLocks(ps, rs)
  {
    forall i | 0 <= i < |ps| ensures KeepsLock(ps[i], rs[i]) && rs[i].fb == ps[i].fb {
      assert KeepsLock(ps[i], qs[i]) && KeepsLock(qs[i], rs[i]);
    }
  }

  /** Over any run of accepted offers and answers locked payload types never change again, and all stay distinct. */
  lemma {:induction false} ExchangesKeepLocks(m: Matcher, s: Session, xs: seq<Exchange>)
    requires TakeExchanges(m, s, xs).Accepted?
    ensures var after := TakeExchanges(m, s, xs).value.config;
            KeepsLocks(s.config, after) && (Distinct(s.config) ==> Distinct(after))
  {
    if xs != [] {
      var n := |xs| - 1;
      var s1 := TakeExchanges(m, s, xs[..n]).value;
      ExchangesKeepLocks(m, s, xs[..n]);
      ExchangeKeepsLocks(m, s1, xs[n]);
      KeepsLocksOn(s.config, s1.config, TakeExchange(m, s1, xs[n]).value.config);
    }
  }
}
