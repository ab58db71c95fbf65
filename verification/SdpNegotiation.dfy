/** The loops of SDP negotiation on a mutable session and a mutable list of changes. */
module SdpNegotiation {
  import opened Prelude
  import N = CodecNegotiation
  import opened SdpSession
  import opened SdpSlots
  import opened SdpChanges
  import opened CodecConfiguration
  import U = PtUniqueness
  import C = PtCompletion
  import K = SdpCodecs
  import M = SdpMedias
  import A = SdpAnswers

  class RtcSession {
    var app: Option<App>
    var medias: seq<Media>
    const codecConfig: CodecConfig

    function View(): Session
      reads this, codecConfig
    {
      Session(app, medias, codecConfig.params)
    }

    constructor (codecConfig: CodecConfig)
      ensures this.codecConfig == codecConfig && View() == Session(None, [], codecConfig.params)
    {
      this.app, this.medias, this.codecConfig := None, [], codecConfig;
    }

    // One turn of the first loop: updates a known line or decides that the line is new.
    method SyncOne(m: N.Matcher, idx: nat, l: MediaLine, bundle: Option<seq<Mid>>, isOffer: bool)
      returns (ok: bool, isNew: bool)
      modifies `medias
      ensures var r := SyncLine(m, old(View()), idx, l, bundle, isOffer);
              (ok <==> r.Accepted?) && (ok ==> r.value == (View(), isNew))
    {
      ok, isNew := true, false;
      if l.typ.Application? {
        if app.Some? {
          return app.value.index == idx, false;
        }
        return true, true;
      }
      if l.typ.Unknown? {
        return;
      }
      var k := FindByMid(l.mid);
      if k.Some? {
        if medias[k.value].index != idx {
          return false, false;
        }
        medias := medias[k.value := UpdateMedia(m, medias[k.value], l, codecConfig.params, bundle)];
        return;
      }
      var pos := FindByIndex(idx);
      if pos.Some? {
        if !isOffer || !medias[pos.value].Disabled() {
          return false, false;
        }
        medias := medias[pos.value := medias[|medias| - 1]];
        medias := medias[..|medias| - 1];
      }
      isNew := true;
    }

    /** Updates the known lines, recycles stopped slots and collects the new lines. */
    method SyncMedias(m: N.Matcher, sdp: Sdp, isOffer: bool) returns (ok: bool, news: seq<NewLine>)
      modifies `medias
      ensures var r := SdpSession.SyncMedias(m, old(View()), sdp, isOffer, |sdp.lines|);
              (ok <==> r.Accepted?) && (ok ==> r.value == (View(), news))
    {
      ghost var s0 := View();
      news := [];
      for idx := 0 to |sdp.lines|
        invariant SdpSession.SyncMedias(m, s0, sdp, isOffer, idx) == Accepted((View(), news))
      {
        var isNew: bool;
        ok, isNew := SyncOne(m, idx, sdp.lines[idx], sdp.bundle, isOffer);
        if !ok {
          SyncStuck(m, s0, sdp, isOffer, idx + 1);
          return;
        }
        if isNew {
          news := news + [NewLine(idx, sdp.lines[idx])];
        }
      }
      ok := true;
    }

    method FindByMid(mid: Mid) returns (r: Option<nat>)
      ensures r == FindMid(medias, mid)
    {
      for i := 0 to |medias|
        invariant forall j :: 0 <= j < i ==> medias[j].mid != mid
      {
        if medias[i].mid == mid {
          return Some(i);
        }
      }
      r := None;
    }

    method FindByIndex(index: nat) returns (r: Option<nat>)
      ensures r == FindIndex(medias, index)
    {
      for i := 0 to |medias|
        invariant forall j :: 0 <= j < i ==> medias[j].index != index
      {
        if medias[i].index == index {
          return Some(i);
        }
      }
      r := None;
    }

    /** Sets the application line; an existing one must be the same. */
    method SetApp(mid: Mid, index: nat) returns (ok: bool)
      modifies this
      ensures var r := SdpSession.SetApp(old(View()), mid, index);
              (ok <==> r.Accepted?) && (ok ==> r.value == View())
      ensures !ok ==> View() == old(View())
    {
      if app.Some? {
        return app.value.mid == mid && app.value.index == index;
      }
      app := Some(App(mid, index));
      ok := true;
    }

    /** One turn of the second loop: a media line is negotiated and opened, panicking where that does. */
    method AddOne(m: N.Matcher, nl: NewLine, isOffer: bool, bundle: Option<seq<Mid>>) returns (v: Verdict<()>)
      modifies this, codecConfig
      ensures var r := AddLine(m, old(View()), nl, bundle, isOffer);
              && (v.Accepted? <==> r.Accepted?) && (v.Panicked? <==> r.Panicked?)
              && (v.Accepted? ==> r.value == View())
      ensures nl.line.typ.IsMedia() ==>
                var u := N.UpdateParams(m, old(codecConfig.params), nl.line.rtpParams, nl.line.dir);
                && (v.Panicked? <==> u.Panic?) && (v.Accepted? <==> u.Done?)
                && (v.Accepted? ==> codecConfig.params == u.value && |medias| == |old(medias)| + 1
                                    && M.Opened(m, nl.line, nl.index, isOffer, u.value, bundle, medias[|old(medias)|]))
    {
      if nl.line.typ.IsMedia() && AddLine(m, View(), nl, bundle, isOffer).Accepted? {
        ghost var x, config := M.AddOpens(m, View(), nl, isOffer, bundle);
      }
      if nl.line.typ.IsMedia() {
        var media := FromRemote(nl.line, nl.index, isOffer);
        var ok := codecConfig.UpdateParams(m, nl.line.rtpParams, nl.line.dir);
        if !ok {
          return Panicked;
        }
        media := UpdateMedia(m, media, nl.line, codecConfig.params, bundle);
        medias := medias + [media];
      } else if nl.line.typ.IsChannel() {
        var ok := SetApp(nl.line.mid, nl.index);
        if !ok {
          return Rejected;
        }
      } else {
        return Rejected;
      }
      v := Accepted(());
    }

    /** Adds the new lines in order; the verdict says how the loop ended. */
    method AddNewLines(m: N.Matcher, news: seq<NewLine>, isOffer: bool, bundle: Option<seq<Mid>>)
      returns (v: Verdict<()>)
      modifies this, codecConfig
      ensures var r := SdpSession.AddNewLines(m, old(View()), news, bundle, isOffer, |news|);
              && (v.Accepted? <==> r.Accepted?) && (v.Panicked? <==> r.Panicked?)
              && (v.Accepted? ==> r.value == View())
      ensures v.Accepted? ==> M.Opening(m, old(View()), news, |news|, isOffer, bundle, View())
    {
      if SdpSession.AddNewLines(m, View(), news, bundle, isOffer, |news|).Accepted? {
        M.OpeningAll(m, View(), news, isOffer, bundle);
      }
      v := AddEach(m, news, isOffer, bundle);
    }

    method AddEach(m: N.Matcher, news: seq<NewLine>, isOffer: bool, bundle: Option<seq<Mid>>)
      returns (v: Verdict<()>)
      modifies this, codecConfig
      ensures var r := SdpSession.AddNewLines(m, old(View()), news, bundle, isOffer, |news|);
              && (v.Accepted? <==> r.Accepted?) && (v.Panicked? <==> r.Panicked?)
              && (v.Accepted? ==> r.value == View())
    {
      ghost var s0 := View();
      for n := 0 to |news|
        invariant SdpSession.AddNewLines(m, s0, news, bundle, isOffer, n) == Accepted(View())
      {
        K.AddNewLinesNext(m, s0, news, bundle, isOffer, n + 1);
        v := AddOne(m, news[n], isOffer, bundle);
        if !v.Accepted? {
          AddStuck(m, s0, news, bundle, isOffer, n + 1);
          return;
        }
      }
      v := Accepted(());
    }

    /**
     Takes in an offer. It is accepted exactly if its lines fit the session and the negotiation of
     its new lines completes; it panics exactly if that negotiation does. Once accepted, the config
     is the result of the negotiation, and the medias are as the lines say. If its mids are distinct
     and it respects the slots in use, the session is well formed again and its lines are those of
     the offer, in order.
     */
    method ApplyOffer(m: N.Matcher, offer: Sdp) returns (v: Verdict<()>)
      modifies this, codecConfig
      ensures var r := SdpSession.ApplyOffer(m, old(View()), offer);
              && (v.Accepted? <==> r.Accepted?) && (v.Panicked? <==> r.Panicked?)
              && (v.Accepted? ==> r.value == View())
      ensures v.Accepted? && WellFormed(old(View())) && CleanSdp(old(View()), offer) ==>
                WellFormed(View()) && AsMediaLines(View()) == LineEntries(offer)
      ensures WellFormed(old(View())) ==> VerdictIs(m, old(View()), offer, v)
      ensures v.Accepted? ==> Negotiated(m, old(View()), offer, true, View())
    {
      OfferFacts(m, View(), offer);
      var ok, news := SyncMedias(m, offer, true);
      if !ok {
        K.SyncEnds(m, old(View()), offer, true, |offer.lines|);
        return Rejected;
      }
      v := AddNewLines(m, news, true, offer.bundle);
      if v.Accepted? && WellFormed(old(View())) && CleanSdp(old(View()), offer) {
        AcceptedLinesIff(m, old(View()), offer, true);
        LinesMakeWellFormed(View(), offer);
      }
    }

    /**
     Takes in the answer to an offer made of pending changes. It is checked against them before its
     new lines are added, and afterwards every pending media gets what was promised for it.
     */
    method ApplyAnswer(m: N.Matcher, pending: Changes, answer: Sdp) returns (v: Verdict<()>)
      modifies this, codecConfig
      ensures var r := SdpChanges.ApplyAnswer(m, old(View()), pending.items, answer);
              && (v.Accepted? <==> r.Accepted?) && (v.Panicked? <==> r.Panicked?)
              && (v.Accepted? ==> r.value == View())
      ensures WellFormed(old(View())) ==> AnswerVerdictIs(m, old(View()), pending.items, answer, v)
      ensures v.Accepted? && WellFormed(old(View())) && CleanSdp(old(View()), answer) ==>
                && WellFormed(View()) && AsMediaLines(View()) == LineEntries(answer)
                && AnswerNegotiated(m, old(View()), pending.items, answer, View())
    {
      AnswerFacts(m, View(), pending.items, answer);
      ghost var s0 := View();
      var ok, news := SyncMedias(m, answer, false);
      if !ok {
        K.SyncEnds(m, s0, answer, false, |answer.lines|);
        return Rejected;
      }
      ok := pending.EnsureCorrectAnswer(news);
      if !ok {
        return Rejected;
      }
      v := AddNewLines(m, news, false, answer.bundle);
      if !v.Accepted? {
        return;
      }
      ok := AddPendingChanges(pending.items);
      v := if ok then Accepted(()) else Panicked;
    }

    /** Gives the medias of a pending offer what was promised for them; false is a panic. */
    method AddPendingChanges(changes: seq<Change>) returns (ok: bool)
      modifies this
      ensures var r := SdpChanges.AddPendingChanges(old(View()), changes, |changes|);
              (ok <==> r.Done?) && (ok ==> r.value == View())
    {
      ghost var s0 := View();
      for n := 0 to |changes|
        invariant SdpChanges.AddPendingChanges(s0, changes, n) == Done(View())
      {
        if changes[n].AddMedia? {
          var k := FindByMid(changes[n].mid);
          if k.None? {
            PendingStuck(s0, changes, n + 1);
            return false;
          }
          medias := medias[k.value := medias[k.value].(cname := Some(changes[n].cname))];
        }
      }
      ok := true;
    }
  }

  /** When an offer is accepted and when it panics. */
  ghost predicate VerdictIs(m: N.Matcher, s: Session, offer: Sdp, v: Verdict<()>) {
    var fits, run := M.LinesFit(s, offer, true, |offer.lines|), N.RunUpdates(m, s.config, K.CallsFor(s, offer));
    && (v.Accepted? <==> fits && K.OneNewApp(s, offer) && run.Done?)
    && (v.Panicked? <==> fits && run.Panic?)
  }

  /** What an accepted SDP leaves in config and medias. */
  ghost predicate Negotiated(m: N.Matcher, s: Session, sdp: Sdp, isOffer: bool, s': Session) {
    && N.RunUpdates(m, s.config, K.CallsFor(s, sdp)) == Done(s'.config)
    && C.KeepsLocks(s.config, s'.config) && (U.Distinct(s.config) ==> U.Distinct(s'.config))
    && (WellFormed(s) ==> M.MediasAfter(m, s, sdp, isOffer, s'.medias))
  }

  lemma {:induction false} OfferFacts(m: N.Matcher, s: Session, offer: Sdp)
    ensures var r := SdpSession.ApplyOffer(m, s, offer);
            && (r.Accepted? ==> Negotiated(m, s, offer, true, r.value))
            && (WellFormed(s) ==> forall v: Verdict<()> ::
                  (v.Accepted? <==> r.Accepted?) && (v.Panicked? <==> r.Panicked?) ==> VerdictIs(m, s, offer, v))
  {
    K.TakeInVerdict(m, s, offer, true);
    if WellFormed(s) {
      M.AcceptedIff(m, s, offer, true);
    }
    if SdpSession.ApplyOffer(m, s, offer).Accepted? {
      K.AcceptedKeepsLocks(m, s, offer, true);
      if WellFormed(s) {
        M.AcceptedMedias(m, s, offer, true);
      }
    }
  }

  /** When an answer is accepted and when it panics. */
  ghost predicate AnswerVerdictIs(m: N.Matcher, s: Session, changes: seq<Change>, answer: Sdp, v: Verdict<()>) {
    var run := N.RunUpdates(m, s.config, K.CallsFor(s, answer));
    var checked := && M.LinesFit(s, answer, false, |answer.lines|)
                   && CorrectAnswer(changes, K.NewOnes(s, answer, |answer.lines|));
    && (v.Accepted? <==> checked && K.OneNewApp(s, answer) && run.Done? && Covers(s, changes, answer))
    && (v.Panicked? <==>
          checked && (run.Panic? || (K.OneNewApp(s, answer) && run.Done? && !Covers(s, changes, answer))))
  }

  /** What an accepted answer leaves in config and medias. */
  ghost predicate AnswerNegotiated(m: N.Matcher, s: Session, changes: seq<Change>, answer: Sdp, s': Session) {
    && N.RunUpdates(m, s.config, K.CallsFor(s, answer)) == Done(s'.config)
    && C.KeepsLocks(s.config, s'.config) && (U.Distinct(s.config) ==> U.Distinct(s'.config))
    && exists taken :: M.MediasAfter(m, s, answer, false, taken) &&
                       A.AllNamed(changes, |changes|, taken, s'.medias)
  }

  lemma {:induction false} AnswerFacts(m: N.Matcher, s: Session, changes: seq<Change>, answer: Sdp)
    ensures var r := SdpChanges.ApplyAnswer(m, s, changes, answer);
            && (WellFormed(s) ==> forall v: Verdict<()> ::
                  (v.Accepted? <==> r.Accepted?) && (v.Panicked? <==> r.Panicked?) ==>
                    AnswerVerdictIs(m, s, changes, answer, v))
            && (r.Accepted? && WellFormed(s) && CleanSdp(s, answer) ==>
                  && WellFormed(r.value) && AsMediaLines(r.value) == LineEntries(answer)
                  && AnswerNegotiated(m, s, changes, answer, r.value))
  {
    if WellFormed(s) {
      A.AnswerIff(m, s, changes, answer);
      if SdpChanges.ApplyAnswer(m, s, changes, answer).Accepted? && CleanSdp(s, answer) {
        CleanExchange(m, s, RemoteAnswer(changes, answer));
        A.ExchangeKeepsLocks(m, s, RemoteAnswer(changes, answer));
        A.AnswerMedias(m, s, changes, answer);
      }
    }
  }

  // A loop that has stopped for the first lines has stopped for good.
  lemma {:induction false} SyncStuck(m: N.Matcher, s: Session, sdp: Sdp, isOffer: bool, n: nat)
    requires n <= |sdp.lines| && !SdpSession.SyncMedias(m, s, sdp, isOffer, n).Accepted?
    ensures !SdpSession.SyncMedias(m, s, sdp, isOffer, |sdp.lines|).Accepted?
    decreases |sdp.lines| - n
  {
    if n < |sdp.lines| {
      SyncStuck(m, s, sdp, isOffer, n + 1);
    }
  }

  lemma {:induction false} AddStuck(m: N.Matcher, s: Session, news: seq<NewLine>, bundle: Option<seq<Mid>>,
                                    isOffer: bool, n: nat)
    requires n <= |news| && !SdpSession.AddNewLines(m, s, news, bundle, isOffer, n).Accepted?
    ensures var r, r' := SdpSession.AddNewLines(m, s, news, bundle, isOffer, n),
                         SdpSession.AddNewLines(m, s, news, bundle, isOffer, |news|);
            !r'.Accepted? && (r'.Panicked? <==> r.Panicked?)
    decreases |news| - n
  {
    if n < |news| {
      AddStuck(m, s, news, bundle, isOffer, n + 1);
    }
  }

  lemma {:induction false} PendingStuck(s: Session, changes: seq<Change>, n: nat)
    requires n <= |changes| && SdpChanges.AddPendingChanges(s, changes, n).Panic?
    ensures SdpChanges.AddPendingChanges(s, changes, |changes|).Panic?
    decreases |changes| - n
  {
    if n < |changes| {
      PendingStuck(s, changes, n + 1);
    }
  }

  // ---- The list of pending changes ----

  class Changes {
    var items: seq<Change>

    constructor (items: seq<Change>)
      ensures this.items == items
    {
      this.items := items;
    }

    /** Removes the channel additions, walking backwards; they come out last first. */
    method TakeNewChannels() returns (v: seq<Change>)
      modifies this
      ensures v == Reversed(ChannelAdds(old(items)))
      ensures items == NonChannels(old(items))
    {
      v := [];
      var i := |items|;
      ghost var all := items;
      assert all[..i] == all && all[i..] == [];
      while i > 0
        invariant 0 <= i <= |all|
        invariant items == all[..i] + NonChannels(all[i..])
        invariant v == Reversed(ChannelAdds(all[i..]))
      {
        i := i - 1;
        assert all[i..][1..] == all[i + 1..] && all[i..][0] == all[i];
        assert all[..i + 1] == all[..i] + [all[i]];
        assert items[i] == all[i];
        if items[i].AddChannel? {
          v := v + [items[i]];
          items := items[..i] + items[i + 1..];
        }
      }
      assert all[0..] == all;
    }

    /** Whether the new lines of an answer are those this list asked for. */
    method EnsureCorrectAnswer(news: seq<NewLine>) returns (ok: bool)
      ensures ok <==> CorrectAnswer(items, news)
    {
      var count := CountLines();
      if count != |news| {
        return false;
      }
      for i := 0 to |news|
        invariant forall j :: 0 <= j < i ==> LineMatches(items, news[j].line)
      {
        ok := MatchLine(news[i].line);
        if !ok {
          return;
        }
      }
      ok := true;
    }

    method CountLines() returns (n: nat)
      ensures n == CountNewMedias(items)
    {
      n := 0;
      for i := 0 to |items|
        invariant n == CountNewMedias(items[..i])
      {
        assert items[..i + 1][..i] == items[..i];
        if items[i].AddMedia? || items[i].AddApp? {
          n := n + 1;
        }
      }
      assert items[..|items|] == items;
    }

    method MatchLine(l: MediaLine) returns (ok: bool)
      ensures ok <==> LineMatches(items, l)
    {
      for i := 0 to |items|
        invariant OfferedAs(items, l.mid) == OfferedAs(items[i..], l.mid)
      {
        assert items[i..][0] == items[i] && items[i..][1..] == items[i + 1..];
        if items[i].AddMedia? && items[i].mid == l.mid {
          return l.typ.IsMedia();
        }
        if items[i].AddApp? && items[i].mid == l.mid {
          return l.typ.IsChannel();
        }
      }
      ok := false;
    }

    /** Puts what is still relevant of an earlier offer in front of the changes made since. */
    method Merge(rtc: Rtc, pending: Changes)
      requires pending != this
      modifies this, pending
      ensures items == SdpChanges.Merge(rtc, old(pending.items), old(items))
    {
      pending.Retain(rtc);
      items := pending.items + items;
    }

    method Retain(rtc: Rtc)
      modifies this
      ensures items == RetainRelevant(rtc, old(items))
    {
      var all, kept := items, [];
      for i := 0 to |all|
        invariant kept == RetainRelevant(rtc, all[..i])
      {
        assert all[..i + 1][..i] == all[..i];
        if IsRelevant(rtc, all[i]) {
          kept := kept + [all[i]];
        }
      }
      assert all[..|all|] == all;
      items := kept;
    }
  }
}
