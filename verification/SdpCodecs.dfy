/**
 The codec config of a session through negotiation: an SDP that is taken in runs one update for
 every new media line, in order. When that run panics so does taking in the SDP, and when the SDP
 is accepted the config is the result of the run.
 */
module SdpCodecs {
  import opened Prelude
  import opened PayloadTypes
  import opened CodecNegotiation
  import opened PtUniqueness
  import opened PtCompletion
  import opened PtChoices
  import opened SdpSession
  import opened SdpSlots

  // ---- Which lines are new ----

  /** A media with that mid sits in that slot. */
  predicate Seated(medias: seq<Media>, mid: Mid, idx: nat) {
    exists i :: 0 <= i < |medias| && medias[i].mid == mid && medias[i].index == idx
  }

  /** Line number idx of an SDP is new: a media line whose mid is not in that slot, or the first application line. */
  predicate OpensLine(s: Session, l: MediaLine, idx: nat) {
    if l.typ.IsMedia() then !Seated(s.medias, l.mid, idx) else l.typ.IsChannel() && s.app.None?
  }

  /** The new lines among the first n, in order. */
  function NewOnes(s: Session, sdp: Sdp, n: nat): seq<NewLine>
    requires n <= |sdp.lines|
  {
    if n == 0 then [] else
      var front, l := NewOnes(s, sdp, n - 1), sdp.lines[n - 1];
      if OpensLine(s, l, n - 1) then front + [NewLine(n - 1, l)] else front
  }

  ghost predicate OpensAt(s: Session, sdp: Sdp, n: nat, nl: NewLine) {
    nl.index < n && nl.index < |sdp.lines| && nl.line == sdp.lines[nl.index] && OpensLine(s, nl.line, nl.index)
  }

  ghost predicate InOrder(s: Session, sdp: Sdp, n: nat, news: seq<NewLine>) {
    && (forall k :: 0 <= k < |news| ==> OpensAt(s, sdp, n, news[k]))
    && (forall j, k :: 0 <= j < k < |news| ==> news[j].index < news[k].index)
  }

  lemma InOrderPush(s: Session, sdp: Sdp, n: nat, news: seq<NewLine>, nl: NewLine)
    requires InOrder(s, sdp, n, news)
    ensures InOrder(s, sdp, n + 1, news)
    ensures OpensAt(s, sdp, n + 1, nl) && nl.index == n ==> InOrder(s, sdp, n + 1, news + [nl])
  {
    forall k | 0 <= k < |news| ensures OpensAt(s, sdp, n + 1, news[k]) {
      assert OpensAt(s, sdp, n, news[k]);
    }
  }

  lemma {:induction false} NewOnesAre(s: Session, sdp: Sdp, n: nat)
    requires n <= |sdp.lines|
    ensures InOrder(s, sdp, n, NewOnes(s, sdp, n))
  {
    if n > 0 {
      NewOnesAre(s, sdp, n - 1);
      InOrderPush(s, sdp, n - 1, NewOnes(s, sdp, n - 1), NewLine(n - 1, sdp.lines[n - 1]));
    }
  }

  lemma SeatedLater(before: seq<Media>, after: seq<Media>, n: nat, isOffer: bool, mid: Mid)
    requires Recycled(before, after, n, isOffer)
    ensures Seated(after, mid, n) <==> Seated(before, mid, n)
  {
    if Seated(after, mid, n) {
      var i :| 0 <= i < |after| && after[i].mid == mid && after[i].index == n;
      assert after[i] in before;
    }
    if Seated(before, mid, n) {
      var i :| 0 <= i < |before| && before[i].mid == mid && before[i].index == n;
      assert before[i] in after;
    }
  }

  lemma FoundIsSeated(medias: seq<Media>, mid: Mid, idx: nat)
    requires FindMid(medias, mid).Some? ==> medias[FindMid(medias, mid).value].index == idx
    ensures FindMid(medias, mid).Some? <==> Seated(medias, mid, idx)
  {
  }

  lemma {:induction false} LineIsNew(m: Matcher, s: Session, s1: Session, idx: nat, l: MediaLine,
                                     bundle: Option<seq<Mid>>, isOffer: bool)
    requires SyncLine(m, s1, idx, l, bundle, isOffer).Accepted?
    requires s1.app == s.app && Recycled(s.medias, s1.medias, idx, isOffer)
    ensures SyncLine(m, s1, idx, l, bundle, isOffer).value.1 <==> OpensLine(s, l, idx)
  {
    SeatedLater(s.medias, s1.medias, idx, isOffer, l.mid);
    if l.typ.IsMedia() {
      FoundIsSeated(s1.medias, l.mid, idx);
    }
  }

  lemma LineKeepsConfig(m: Matcher, s: Session, idx: nat, l: MediaLine, bundle: Option<seq<Mid>>, isOffer: bool)
    requires SyncLine(m, s, idx, l, bundle, isOffer).Accepted?
    ensures var s' := SyncLine(m, s, idx, l, bundle, isOffer).value.0; s'.app == s.app && s'.config == s.config
  {
  }

  // Where the first loop is after n lines.
  ghost predicate Collected(s: Session, sdp: Sdp, st: SyncState, n: nat)
    requires n <= |sdp.lines|
  {
    st.1 == NewOnes(s, sdp, n) && st.0.app == s.app && st.0.config == s.config
  }

  lemma {:induction false} CollectLine(m: Matcher, s: Session, sdp: Sdp, isOffer: bool, st: SyncState, n: nat,
                                       st': SyncState)
    requires n < |sdp.lines| && Collected(s, sdp, st, n) && SyncsTo(m, st, sdp, n, isOffer, st')
    requires Recycled(s.medias, st.0.medias, n, isOffer)
    ensures Collected(s, sdp, st', n + 1)
  {
    LineKeepsConfig(m, st.0, n, sdp.lines[n], sdp.bundle, isOffer);
    LineIsNew(m, s, st.0, n, sdp.lines[n], sdp.bundle, isOffer);
  }

  /** The first loop collects just the new lines, and changes neither application nor config. */
  lemma {:induction false} NewsAre(m: Matcher, s: Session, sdp: Sdp, isOffer: bool, states: seq<SyncState>, n: nat)
    requires IsSyncTrace(m, s, sdp, isOffer, states) && n < |states|
    ensures Collected(s, sdp, states[n], n)
  {
    if n > 0 {
      NewsAre(m, s, sdp, isOffer, states, n - 1);
      RecyclesOnlyDisabled(m, s, sdp, isOffer, states, n - 1);
      assert SyncsTo(m, states[n - 1], sdp, n - 1, isOffer, states[n]);
      CollectLine(m, s, sdp, isOffer, states[n - 1], n - 1, states[n]);
    }
  }

  lemma {:induction false} SyncedNews(m: Matcher, s: Session, sdp: Sdp, isOffer: bool)
    requires SyncMedias(m, s, sdp, isOffer, |sdp.lines|).Accepted?
    ensures var (s1, news) := SyncMedias(m, s, sdp, isOffer, |sdp.lines|).value;
            news == NewOnes(s, sdp, |sdp.lines|) && s1.app == s.app && s1.config == s.config
  {
    var states := SyncTrace(m, s, sdp, isOffer, |sdp.lines|);
    NewsAre(m, s, sdp, isOffer, states, |sdp.lines|);
  }

  // ---- The run of updates ----

  /** The negotiations that new lines ask for: one for every media line. */
  function CallsOf(news: seq<NewLine>, n: nat): (calls: seq<Call>)
    requires n <= |news|
  {
    if n == 0 then [] else
      var front, l := CallsOf(news, n - 1), news[n - 1].line;
      if l.typ.IsMedia() then front + [Call(l.rtpParams, l.dir)] else front
  }

  predicate HasApp(news: seq<NewLine>, n: nat)
    requires n <= |news|
  {
    exists i :: 0 <= i < n && news[i].line.typ.IsChannel()
  }

  /** The position of the second application line, which cannot be added; n if there is none before. */
  function FirstClash(news: seq<NewLine>, n: nat): (c: nat)
    requires n <= |news|
    ensures c <= n
    ensures c < n ==> news[c].line.typ.IsChannel() && HasApp(news, c)
    ensures forall k :: 0 <= k < c && news[k].line.typ.IsChannel() ==> !HasApp(news, k)
  {
    if n == 0 then 0 else
      var c := FirstClash(news, n - 1);
      if c < n - 1 then c
      else if news[n - 1].line.typ.IsChannel() && HasApp(news, n - 1) then n - 1 else n
  }

  // Lines as the first loop collects them for a session.
  ghost predicate Addable(s: Session, news: seq<NewLine>) {
    && (forall k :: 0 <= k < |news| ==>
          news[k].line.typ.IsMedia() || (news[k].line.typ.IsChannel() && s.app.None?))
    && forall j, k :: 0 <= j < k < |news| ==> news[j].index < news[k].index
  }

  // The application after some lines have been added.
  ghost predicate AppOf(s: Session, news: seq<NewLine>, n: nat, s': Session)
    requires n <= |news|
  {
    && (HasApp(news, n) <==> s'.app != s.app)
    && (s'.app != s.app ==> s'.app.Some? && exists i :: 0 <= i < n && news[i].index == s'.app.value.index)
  }

  lemma RunGrows(m: Matcher, ps: seq<PayloadParams>, calls: seq<Call>, c: Call)
    ensures RunUpdates(m, ps, calls + [c]) ==
              match RunUpdates(m, ps, calls)
              case Panic => Panic
              case Done(qs) => UpdateParams(m, qs, c.remote, c.dir)
  {
    assert (calls + [c])[..|calls|] == calls;
  }

  // How adding the lines before a point has gone.
  ghost predicate AddedSo(m: Matcher, s: Session, news: seq<NewLine>, n: nat, r: Verdict<Session>)
    requires n <= |news|
  {
    var c := FirstClash(news, n);
    var run := RunUpdates(m, s.config, CallsOf(news, c));
    && (r.Panicked? <==> run.Panic?)
    && (r.Accepted? <==> run.Done? && c == n)
    && (r.Accepted? ==> r.value.config == run.value && AppOf(s, news, n, r.value))
  }

  // A media line runs its update and leaves the application alone.
  ghost predicate RunsUpdate(m: Matcher, s: Session, l: MediaLine, r: Verdict<Session>) {
    match UpdateParams(m, s.config, l.rtpParams, l.dir)
    case Panic => r.Panicked?
    case Done(config) => r.Accepted? && r.value.config == config && r.value.app == s.app
  }

  lemma AddRunsUpdate(m: Matcher, s: Session, nl: NewLine, bundle: Option<seq<Mid>>, isOffer: bool)
    requires nl.line.typ.IsMedia()
    ensures RunsUpdate(m, s, nl.line, AddLine(m, s, nl, bundle, isOffer))
  {
  }

  lemma MediaSteps(news: seq<NewLine>, n: nat)
    requires 0 < n <= |news| && news[n - 1].line.typ.IsMedia()
    ensures FirstClash(news, n - 1) == n - 1 ==> FirstClash(news, n) == n
    ensures CallsOf(news, n) == CallsOf(news, n - 1) + [Call(news[n - 1].line.rtpParams, news[n - 1].line.dir)]
    ensures HasApp(news, n) <==> HasApp(news, n - 1)
  {
  }

  lemma {:induction false} MediaKeepsApp(s: Session, news: seq<NewLine>, n: nat, s1: Session, s2: Session)
    requires 0 < n <= |news| && news[n - 1].line.typ.IsMedia() && AppOf(s, news, n - 1, s1) && s2.app == s1.app
    ensures AppOf(s, news, n, s2)
  {
    MediaSteps(news, n);
  }

  lemma {:induction false} AddMediaSo(m: Matcher, s: Session, s1: Session, news: seq<NewLine>, n: nat,
                                      r: Verdict<Session>)
    requires 0 < n <= |news| && AddedSo(m, s, news, n - 1, Accepted(s1)) && news[n - 1].line.typ.IsMedia()
    requires RunsUpdate(m, s1, news[n - 1].line, r)
    ensures AddedSo(m, s, news, n, r)
  {
    var l := news[n - 1].line;
    MediaSteps(news, n);
    RunGrows(m, s.config, CallsOf(news, n - 1), Call(l.rtpParams, l.dir));
    if r.Accepted? {
      MediaKeepsApp(s, news, n, s1, r.value);
    }
  }

  lemma {:induction false} AddFirstApp(m: Matcher, s: Session, s1: Session, news: seq<NewLine>,
                                       bundle: Option<seq<Mid>>, isOffer: bool, n: nat)
    requires 0 < n <= |news| && AddedSo(m, s, news, n - 1, Accepted(s1)) && s.app.None?
    requires news[n - 1].line.typ.IsChannel() && !HasApp(news, n - 1)
    ensures AddedSo(m, s, news, n, AddLine(m, s1, news[n - 1], bundle, isOffer))
  {
    var nl := news[n - 1];
    assert HasApp(news, n);
    assert AddLine(m, s1, nl, bundle, isOffer) == Accepted(s1.(app := Some(App(nl.line.mid, nl.index))));
    assert FirstClash(news, n) == n && CallsOf(news, n) == CallsOf(news, n - 1);
  }

  lemma {:induction false} AddSecondApp(m: Matcher, s: Session, s1: Session, news: seq<NewLine>,
                                        bundle: Option<seq<Mid>>, isOffer: bool, n: nat)
    requires 0 < n <= |news| && AddedSo(m, s, news, n - 1, Accepted(s1)) && Addable(s, news)
    requires news[n - 1].line.typ.IsChannel() && HasApp(news, n - 1)
    ensures AddedSo(m, s, news, n, AddLine(m, s1, news[n - 1], bundle, isOffer))
  {
    var i :| 0 <= i < n - 1 && news[i].index == s1.app.value.index;
    assert news[i].index < news[n - 1].index;
    assert AddLine(m, s1, news[n - 1], bundle, isOffer) == Rejected;
    assert FirstClash(news, n) == n - 1 == FirstClash(news, n - 1);
  }

  lemma {:induction false} RunStaysPanicked(m: Matcher, ps: seq<PayloadParams>, news: seq<NewLine>, n: nat)
    requires 0 < n <= |news| && RunUpdates(m, ps, CallsOf(news, n - 1)).Panic?
    ensures RunUpdates(m, ps, CallsOf(news, n)).Panic?
  {
    var l := news[n - 1].line;
    RunGrows(m, ps, CallsOf(news, n - 1), Call(l.rtpParams, l.dir));
  }

  lemma {:induction false} AddStuckSo(m: Matcher, s: Session, news: seq<NewLine>, n: nat, r: Verdict<Session>)
    requires 0 < n <= |news| && AddedSo(m, s, news, n - 1, r) && !r.Accepted?
    ensures AddedSo(m, s, news, n, r)
  {
    if FirstClash(news, n - 1) == n - 1 {
      assert RunUpdates(m, s.config, CallsOf(news, n - 1)).Panic?;
      RunStaysPanicked(m, s.config, news, n);
    } else {
      assert FirstClash(news, n) == FirstClash(news, n - 1);
    }
  }

  // One turn of the second loop, or none after a failure.
  function NextAdded(m: Matcher, r: Verdict<Session>, nl: NewLine, bundle: Option<seq<Mid>>, isOffer: bool)
    : Verdict<Session>
  {
    if r.Accepted? then AddLine(m, r.value, nl, bundle, isOffer) else r
  }

  ghost predicate GoesTo(m: Matcher, r: Verdict<Session>, nl: NewLine, bundle: Option<seq<Mid>>, isOffer: bool,
                         r': Verdict<Session>)
  {
    r' == NextAdded(m, r, nl, bundle, isOffer)
  }

  lemma {:induction false} AddNextSo(m: Matcher, s: Session, news: seq<NewLine>, bundle: Option<seq<Mid>>,
                                     isOffer: bool, n: nat, r: Verdict<Session>, r': Verdict<Session>)
    requires 0 < n <= |news| && Addable(s, news) && AddedSo(m, s, news, n - 1, r)
    requires GoesTo(m, r, news[n - 1], bundle, isOffer, r')
    ensures AddedSo(m, s, news, n, r')
  {
    if !r.Accepted? {
      AddStuckSo(m, s, news, n, r);
    } else if news[n - 1].line.typ.IsMedia() {
      AddRunsUpdate(m, r.value, news[n - 1], bundle, isOffer);
      AddMediaSo(m, s, r.value, news, n, AddLine(m, r.value, news[n - 1], bundle, isOffer));
    } else if HasApp(news, n - 1) {
      AddSecondApp(m, s, r.value, news, bundle, isOffer, n);
    } else {
      AddFirstApp(m, s, r.value, news, bundle, isOffer, n);
    }
  }

  lemma AddNewLinesNext(m: Matcher, s: Session, news: seq<NewLine>, bundle: Option<seq<Mid>>, isOffer: bool, n: nat)
    requires 0 < n <= |news|
    ensures AddNewLines(m, s, news, bundle, isOffer, n)
              == NextAdded(m, AddNewLines(m, s, news, bundle, isOffer, n - 1), news[n - 1], bundle, isOffer)
  {
  }

  // The verdicts of the second loop, one after each line.
  ghost predicate IsVerdicts(m: Matcher, s: Session, news: seq<NewLine>, bundle: Option<seq<Mid>>, isOffer: bool,
                             rs: seq<Verdict<Session>>)
  {
    && 1 <= |rs| <= |news| + 1 && rs[0] == Accepted(s)
    && forall k :: 0 <= k < |rs| - 1 ==> GoesTo(m, rs[k], news[k], bundle, isOffer, rs[k + 1])
  }

  ghost function VerdictsOf(m: Matcher, s: Session, news: seq<NewLine>, bundle: Option<seq<Mid>>, isOffer: bool)
    : seq<Verdict<Session>>
  {
    seq(|news| + 1, k requires 0 <= k <= |news| => AddNewLines(m, s, news, bundle, isOffer, k))
  }

  lemma {:induction false} VerdictsAre(m: Matcher, s: Session, news: seq<NewLine>, bundle: Option<seq<Mid>>,
                                       isOffer: bool)
    ensures IsVerdicts(m, s, news, bundle, isOffer, VerdictsOf(m, s, news, bundle, isOffer))
  {
    var rs := VerdictsOf(m, s, news, bundle, isOffer);
    assert rs[0] == Accepted(s);
    forall k | 0 <= k < |rs| - 1 ensures GoesTo(m, rs[k], news[k], bundle, isOffer, rs[k + 1]) {
      AddNewLinesNext(m, s, news, bundle, isOffer, k + 1);
    }
  }

  lemma {:induction false} VerdictsAddedSo(m: Matcher, s: Session, news: seq<NewLine>, bundle: Option<seq<Mid>>,
                                           isOffer: bool, rs: seq<Verdict<Session>>, n: nat)
    requires Addable(s, news) && IsVerdicts(m, s, news, bundle, isOffer, rs) && n < |rs|
    ensures AddedSo(m, s, news, n, rs[n])
  {
    if n > 0 {
      VerdictsAddedSo(m, s, news, bundle, isOffer, rs, n - 1);
      assert GoesTo(m, rs[n - 1], news[n - 1], bundle, isOffer, rs[n]);
      AddNextSo(m, s, news, bundle, isOffer, n, rs[n - 1], rs[n]);
    }
  }

  /** Adding lines panics exactly if the updates before the first clash do, and succeeds if they and all lines do. */
  lemma {:induction false} AddVerdict(m: Matcher, s: Session, news: seq<NewLine>, bundle: Option<seq<Mid>>,
                                      isOffer: bool)
    requires Addable(s, news)
    ensures AddedSo(m, s, news, |news|, AddNewLines(m, s, news, bundle, isOffer, |news|))
  {
    VerdictsAre(m, s, news, bundle, isOffer);
    VerdictsAddedSo(m, s, news, bundle, isOffer, VerdictsOf(m, s, news, bundle, isOffer), |news|);
  }

  /** The updates that taking in an SDP runs: those of its new media lines before a second application line. */
  function CallsFor(s: Session, sdp: Sdp): seq<Call> {
    var news := NewOnes(s, sdp, |sdp.lines|);
    CallsOf(news, FirstClash(news, |news|))
  }

  predicate OneNewApp(s: Session, sdp: Sdp) {
    var news := NewOnes(s, sdp, |sdp.lines|);
    FirstClash(news, |news|) == |news|
  }

  /**
   Once the lines of an SDP fit the session, taking it in panics if and only if the run of updates
   for its new media lines does. It is accepted if and only if that run completes and there is at
   most one new application line, and then the config is the result of the run.
   */
  lemma {:induction false} TakeInVerdict(m: Matcher, s: Session, sdp: Sdp, isOffer: bool)
    ensures var fits := SyncMedias(m, s, sdp, isOffer, |sdp.lines|).Accepted?;
            var r, run := TakeIn(m, s, sdp, isOffer), RunUpdates(m, s.config, CallsFor(s, sdp));
            && (r.Panicked? <==> fits && run.Panic?)
            && (r.Accepted? <==> fits && run.Done? && OneNewApp(s, sdp))
            && (r.Accepted? ==> r.value.config == run.value)
  {
    var sync := SyncMedias(m, s, sdp, isOffer, |sdp.lines|);
    SyncEnds(m, s, sdp, isOffer, |sdp.lines|);
    if sync.Accepted? {
      SyncedNews(m, s, sdp, isOffer);
      NewOnesAre(s, sdp, |sdp.lines|);
      var (s1, news) := sync.value;
      AddVerdict(m, s1, news, sdp.bundle, isOffer);
    }
  }

  lemma {:induction false} SyncEnds(m: Matcher, s: Session, sdp: Sdp, isOffer: bool, n: nat)
    requires n <= |sdp.lines|
    ensures !SyncMedias(m, s, sdp, isOffer, n).Panicked?
  {
    if n > 0 {
      SyncEnds(m, s, sdp, isOffer, n - 1);
    }
  }

  // ---- What one update leaves in the config ----

  lemma {:induction false} RunFromMiddle(m: Matcher, ps: seq<PayloadParams>, calls: seq<Call>, k: nat)
    requires k <= |calls| && RunUpdates(m, ps, calls).Done?
    ensures RunUpdates(m, ps, calls[..k]).Done?
    ensures RunUpdates(m, RunUpdates(m, ps, calls[..k]).value, calls[k..]) == RunUpdates(m, ps, calls)
  {
    if k == |calls| {
      assert calls[..k] == calls;
    } else {
      var n := |calls| - 1;
      var c := calls[n];
      assert calls == calls[..n] + [c] && calls[k..] == calls[..n][k..] + [c] && calls[..n][..k] == calls[..k];
      RunGrows(m, ps, calls[..n], c);
      RunFromMiddle(m, ps, calls[..n], k);
      RunGrows(m, RunUpdates(m, ps, calls[..k]).value, calls[..n][k..], c);
    }
  }

  /**
   After an accepted SDP each of its new media lines has been negotiated and still stands: every
   entry that was open before the line and matches it is locked, to the PTs of the line where the
   remote decides, else with its suggestions honoured.
   */
  lemma {:induction false} LineIsAgreed(m: Matcher, s: Session, sdp: Sdp, isOffer: bool, k: nat, i: int)
    requires Distinct(s.config) && TakeIn(m, s, sdp, isOffer).Accepted? && k < |CallsFor(s, sdp)|
    requires var before := RunUpdates(m, s.config, CallsFor(s, sdp)[..k]);
             before.Done? && 0 <= i < |before.value| && !before.value[i].locked
             && BestMatch(m, before.value[i].spec, CallsFor(s, sdp)[k].remote).Some?
    ensures var before, call := RunUpdates(m, s.config, CallsFor(s, sdp)[..k]).value, CallsFor(s, sdp)[k];
            var after := TakeIn(m, s, sdp, isOffer).value.config;
            |after| == |before| && Agreed(before, BestMatch(m, before[i].spec, call.remote).value, call.dir, after, i)
  {
    TakeInVerdict(m, s, sdp, isOffer);
    var calls := CallsFor(s, sdp);
    RunStepAgrees(m, s.config, calls, k, i);
  }

  lemma {:induction false} RunStepAgrees(m: Matcher, ps: seq<PayloadParams>, calls: seq<Call>, k: nat, i: int)
    requires Distinct(ps) && RunUpdates(m, ps, calls).Done? && k < |calls|
    requires var before := RunUpdates(m, ps, calls[..k]);
             before.Done? && 0 <= i < |before.value| && !before.value[i].locked
             && BestMatch(m, before.value[i].spec, calls[k].remote).Some?
    ensures var before, call := RunUpdates(m, ps, calls[..k]).value, calls[k];
            Agreed(before, BestMatch(m, before[i].spec, call.remote).value, call.dir, RunUpdates(m, ps, calls).value, i)
  {
    var before, call := RunUpdates(m, ps, calls[..k]).value, calls[k];
    RunKeepsLocksAndDistinct(m, ps, calls[..k]);
    RunFromMiddle(m, ps, calls, k + 1);
    assert calls[..k + 1][..k] == calls[..k];
    var after := RunUpdates(m, ps, calls[..k + 1]).value;
    assert after == UpdateParams(m, before, call.remote, call.dir).value;
    UpdateAgrees(m, before, call.remote, call.dir, i);
    RunKeepsLocksAndDistinct(m, after, calls[k + 1..]);
    AgreedStays(before, BestMatch(m, before[i].spec, call.remote).value, call.dir, after,
                RunUpdates(m, ps, calls).value, i);
  }

  /** An accepted SDP leaves locked entries as they are and keeps PTs distinct. */
  lemma {:induction false} AcceptedKeepsLocks(m: Matcher, s: Session, sdp: Sdp, isOffer: bool)
    requires TakeIn(m, s, sdp, isOffer).Accepted?
    ensures var after := TakeIn(m, s, sdp, isOffer).value.config;
            KeepsLocks(s.config, after) && (Distinct(s.config) ==> Distinct(after))
  {
    TakeInVerdict(m, s, sdp, isOffer);
    RunKeepsLocksAndDistinct(m, s.config, CallsFor(s, sdp));
  }
}
