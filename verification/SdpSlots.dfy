/**
 Slots across offer and answer: an accepted SDP leaves the session with exactly the lines
 of that SDP, at their positions, if and only if the SDP respects the slots in use.
 */
module SdpSlots {
  import opened Prelude
  import opened CodecNegotiation
  import opened SdpSession

  // ---- Sorting ----

  ghost predicate Sorted(es: seq<Entry>) {
    forall i, j :: 0 <= i < j < |es| ==> es[i].index <= es[j].index
  }

  lemma {:induction false} InsertCounts(es: seq<Entry>, e: Entry)
    ensures multiset(Insert(es, e)) == multiset(es) + multiset{e}
  {
    if es != [] && es[|es| - 1].index > e.index {
      InsertCounts(es[..|es| - 1], e);
      assert es == es[..|es| - 1] + [es[|es| - 1]];
    }
  }

  ghost predicate AtMost(es: seq<Entry>, b: nat) {
    forall i :: 0 <= i < |es| ==> es[i].index <= b
  }

  lemma {:induction false} InsertSorts(es: seq<Entry>, e: Entry, b: nat)
    requires Sorted(es) && AtMost(es, b) && e.index <= b
    ensures Sorted(Insert(es, e)) && AtMost(Insert(es, e), b)
  {
    if es != [] && es[|es| - 1].index > e.index {
      var front, last := es[..|es| - 1], es[|es| - 1];
      InsertSorts(front, e, last.index);
    }
  }

  lemma {:induction false} SortSorts(es: seq<Entry>)
    ensures multiset(SortByIndex(es)) == multiset(es)
    ensures Sorted(SortByIndex(es))
  {
    if es != [] {
      var front, last := es[..|es| - 1], es[|es| - 1];
      assert es == front + [last];
      SortSorts(front);
      var sorted := SortByIndex(front);
      InsertCounts(sorted, last);
      var top := if sorted == [] then 0 else sorted[|sorted| - 1].index;
      InsertSorts(sorted, last, if top < last.index then last.index else top);
    }
  }

  /** Entry i of the list has index i: the indices are exactly 0 .. n - 1. */
  ghost predicate Contiguous(es: seq<Entry>) {
    forall i :: 0 <= i < |es| ==> es[i].index == i
  }

  ghost predicate Increasing(es: seq<Entry>) {
    forall i, j :: 0 <= i < j < |es| ==> es[i].index < es[j].index
  }

  lemma SameLast(xs: seq<Entry>, ys: seq<Entry>)
    requires Sorted(xs) && multiset(xs) == multiset(ys) && |xs| == |ys| > 0 && Increasing(ys)
    ensures xs[|xs| - 1] == ys[|ys| - 1]
  {
    var n := |ys| - 1;
    var x, y := xs[n], ys[n];
    assert x in multiset(xs) && y in multiset(ys);
    assert x in multiset(ys) && y in multiset(xs);
    var i :| 0 <= i < |ys| && ys[i] == x;
    var j :| 0 <= j < |xs| && xs[j] == y;
    assert x.index <= y.index;
    assert y.index <= x.index;
  }

  lemma SameSize(xs: seq<Entry>, ys: seq<Entry>)
    requires multiset(xs) == multiset(ys)
    ensures |xs| == |ys|
  {
    assert |multiset(xs)| == |multiset(ys)|;
  }

  lemma DropLastCounts(xs: seq<Entry>)
    requires xs != []
    ensures multiset(xs[..|xs| - 1]) == multiset(xs) - multiset{xs[|xs| - 1]}
  {
    assert xs == xs[..|xs| - 1] + [xs[|xs| - 1]];
  }

  lemma PrefixOrders(xs: seq<Entry>, ys: seq<Entry>, n: nat)
    requires Sorted(xs) && Increasing(ys) && n <= |xs| && n <= |ys|
    ensures Sorted(xs[..n]) && Increasing(ys[..n])
  {
  }

  lemma EqualBySplit(xs: seq<Entry>, ys: seq<Entry>, n: nat)
    requires |xs| == |ys| == n + 1 && xs[..n] == ys[..n] && xs[n] == ys[n]
    ensures xs == ys
  {
    assert xs == xs[..n] + [xs[n]] && ys == ys[..n] + [ys[n]];
  }

  lemma {:induction false} SortedUnique(xs: seq<Entry>, ys: seq<Entry>)
    requires Sorted(xs) && multiset(xs) == multiset(ys) && Increasing(ys)
    ensures xs == ys
    decreases |ys|
  {
    SameSize(xs, ys);
    if ys != [] {
      var n := |ys| - 1;
      SameLast(xs, ys);
      DropLastCounts(xs);
      DropLastCounts(ys);
      PrefixOrders(xs, ys, n);
      SortedUnique(xs[..n], ys[..n]);
      EqualBySplit(xs, ys, n);
    }
  }

  // ---- The entries of a session as a multiset ----

  function Seats(s: Session): multiset<Entry> {
    multiset(Entries(s))
  }

  function AppSeat(s: Session): multiset<Entry> {
    if s.app.None? then multiset{} else multiset{Entry(s.app.value.mid, s.app.value.index)}
  }

  lemma SeatsSplit(s: Session)
    ensures Seats(s) == AppSeat(s) + multiset(MediaEntries(s.medias))
  {
  }

  lemma SeatsOfPush(medias: seq<Media>, md: Media)
    ensures multiset(MediaEntries(medias + [md])) == multiset(MediaEntries(medias)) + multiset{Entry(md.mid, md.index)}
  {
    assert MediaEntries(medias + [md]) == MediaEntries(medias) + [Entry(md.mid, md.index)];
  }

  lemma SeatsOfUpdate(medias: seq<Media>, k: nat, md: Media)
    requires k < |medias| && md.mid == medias[k].mid && md.index == medias[k].index
    ensures MediaEntries(medias[k := md]) == MediaEntries(medias)
  {
  }

  lemma ReorderCounts(a: seq<Entry>, x: Entry, b: seq<Entry>, y: Entry)
    ensures multiset(a + [y] + b) + multiset{x} == multiset(a + [x] + b + [y])
  {
  }

  lemma SwapRemoveParts(es: seq<Entry>, pos: nat)
    requires pos < |es| - 1
    ensures es == es[..pos] + [es[pos]] + es[pos + 1..|es| - 1] + [es[|es| - 1]]
    ensures es[pos := es[|es| - 1]][..|es| - 1] == es[..pos] + [es[|es| - 1]] + es[pos + 1..|es| - 1]
  {
  }

  lemma SwapRemoveLast(es: seq<Entry>)
    requires es != []
    ensures es[|es| - 1 := es[|es| - 1]][..|es| - 1] == es[..|es| - 1]
  {
  }

  lemma {:induction false} SwapRemoveCounts(es: seq<Entry>, pos: nat)
    requires pos < |es|
    ensures multiset(es[pos := es[|es| - 1]][..|es| - 1]) + multiset{es[pos]} == multiset(es)
  {
    if pos == |es| - 1 {
      SwapRemoveLast(es);
      DropLastCounts(es);
    } else {
      SwapRemoveParts(es, pos);
      ReorderCounts(es[..pos], es[pos], es[pos + 1..|es| - 1], es[|es| - 1]);
    }
  }

  lemma SeatsOfSwapRemove(medias: seq<Media>, pos: nat)
    requires pos < |medias|
    ensures multiset(MediaEntries(SwapRemove(medias, pos))) + multiset{Entry(medias[pos].mid, medias[pos].index)}
              == multiset(MediaEntries(medias))
  {
    var es, n := MediaEntries(medias), |medias| - 1;
    assert MediaEntries(SwapRemove(medias, pos)) == es[pos := es[n]][..n];
    SwapRemoveCounts(es, pos);
  }

  // ---- Well-formed sessions ----

  ghost predicate MidsDistinct(medias: seq<Media>) {
    forall i, j :: 0 <= i < j < |medias| ==> medias[i].mid != medias[j].mid
  }

  /** The slots in use are exactly 0 .. n - 1 without a clash, and no two medias share a mid. */
  ghost predicate WellFormed(s: Session) {
    Contiguous(AsMediaLines(s)) && MidsDistinct(s.medias)
  }

  lemma SeatsAreLines(s: Session)
    ensures multiset(AsMediaLines(s)) == Seats(s)
  {
    SortSorts(Entries(s));
  }

  // ---- What each line leaves in its slot ----

  function LineEntries(sdp: Sdp): (es: seq<Entry>)
    ensures |es| == |sdp.lines| && Contiguous(es)
    ensures forall i :: 0 <= i < |es| ==> es[i] == Entry(sdp.lines[i].mid, i)
  {
    seq(|sdp.lines|, i requires 0 <= i < |sdp.lines| => Entry(sdp.lines[i].mid, i))
  }

  function Owner(lines: seq<Entry>, idx: nat): multiset<Entry> {
    if idx < |lines| then multiset{lines[idx]} else multiset{}
  }

  predicate AppAt(s: Session, idx: nat) {
    s.app.Some? && s.app.value.index == idx
  }

  // The entries with index idx once an SDP with line l at that position has been accepted.
  function SlotAfter(s: Session, lines: seq<Entry>, l: MediaLine, idx: nat): multiset<Entry> {
    var new' := multiset{Entry(l.mid, idx)};
    match l.typ
    case Application => if s.app.None? then Owner(lines, idx) + new' else Owner(lines, idx)
    case Unknown => Owner(lines, idx)
    case _ => if AppAt(s, idx) then Owner(lines, idx) + new' else new'
  }

  function Slots(s: Session, lines: seq<Entry>, sdp: Sdp): (parts: seq<multiset<Entry>>)
    ensures |parts| == |sdp.lines|
    ensures forall i :: 0 <= i < |parts| ==> parts[i] == SlotAfter(s, lines, sdp.lines[i], i)
  {
    seq(|sdp.lines|, i requires 0 <= i < |sdp.lines| => SlotAfter(s, lines, sdp.lines[i], i))
  }

  function Sum(parts: seq<multiset<Entry>>, n: nat): multiset<Entry>
    requires n <= |parts|
  {
    if n == 0 then multiset{} else Sum(parts, n - 1) + parts[n - 1]
  }

  // The entries in the first n slots once the SDP has been accepted.
  function SlotsAfter(s: Session, lines: seq<Entry>, sdp: Sdp, n: nat): multiset<Entry>
    requires n <= |sdp.lines|
  {
    Sum(Slots(s, lines, sdp), n)
  }

  function Rest(lines: seq<Entry>, n: nat): multiset<Entry> {
    if n <= |lines| then multiset(lines[n..]) else multiset{}
  }

  lemma RestStep(lines: seq<Entry>, n: nat)
    ensures Rest(lines, n) == Owner(lines, n) + Rest(lines, n + 1)
  {
    if n < |lines| {
      assert lines[n..] == [lines[n]] + lines[n + 1..];
    }
  }

  // All entries once the SDP has been accepted: its slots, then slots beyond its lines.
  function ResultSeats(s: Session, lines: seq<Entry>, sdp: Sdp): multiset<Entry> {
    SlotsAfter(s, lines, sdp, |sdp.lines|) + Rest(lines, |sdp.lines|)
  }

  function NewEntries(news: seq<NewLine>): (es: seq<Entry>)
    ensures |es| == |news|
    ensures forall i :: 0 <= i < |es| ==> es[i] == Entry(news[i].line.mid, news[i].index)
  {
    seq(|news|, i requires 0 <= i < |news| => Entry(news[i].line.mid, news[i].index))
  }

  lemma NewEntriesPush(news: seq<NewLine>, nl: NewLine)
    ensures multiset(NewEntries(news + [nl])) == multiset(NewEntries(news)) + multiset{Entry(nl.line.mid, nl.index)}
  {
    assert NewEntries(news + [nl]) == NewEntries(news) + [Entry(nl.line.mid, nl.index)];
  }

  // ---- First loop ----

  ghost predicate OnItsSlot(s: Session, lines: seq<Entry>, md: Media) {
    md.index < |lines| && lines[md.index] == Entry(md.mid, md.index) && !AppAt(s, md.index)
  }

  // A line collected before line n: a media, or a channel where there is none yet.
  ghost predicate IsNew(s: Session, nl: NewLine, n: nat) {
    nl.index < n && (nl.line.typ.IsMedia() || (nl.line.typ.IsChannel() && s.app.None?))
  }

  // During the first loop the medias are those of the original session, minus recycled ones.
  ghost predicate Syncing(s: Session, lines: seq<Entry>, s': Session, news: seq<NewLine>, n: nat) {
    && s'.app == s.app && s'.config == s.config
    && (forall i :: 0 <= i < |s'.medias| ==> OnItsSlot(s, lines, s'.medias[i]))
    && (forall i :: 0 <= i < |news| ==> IsNew(s, news[i], n))
  }

  // The application sits on a slot of the session.
  ghost predicate AppIn(s: Session, lines: seq<Entry>) {
    s.app.Some? ==> s.app.value.index < |lines| && lines[s.app.value.index] == Entry(s.app.value.mid, s.app.value.index)
  }

  lemma {:induction false} ContiguousOnce(lines: seq<Entry>, e: Entry)
    requires Contiguous(lines)
    ensures multiset(lines)[e] <= 1
    ensures multiset(lines)[e] == 1 ==> e.index < |lines| && lines[e.index] == e
  {
    if lines != [] {
      var n := |lines| - 1;
      ContiguousOnce(lines[..n], e);
      assert lines == lines[..n] + [lines[n]];
    }
  }

  lemma SyncingStart(s: Session)
    requires WellFormed(s)
    ensures Syncing(s, AsMediaLines(s), s, [], 0) && AppIn(s, AsMediaLines(s))
    ensures Seats(s) == Rest(AsMediaLines(s), 0)
  {
    var lines := AsMediaLines(s);
    SeatsAreLines(s);
    SeatsSplit(s);
    if s.app.Some? {
      ContiguousOnce(lines, Entry(s.app.value.mid, s.app.value.index));
    }
    forall i | 0 <= i < |s.medias|
      ensures s.medias[i].index < |lines| && lines[s.medias[i].index] == Entry(s.medias[i].mid, s.medias[i].index)
      ensures !AppAt(s, s.medias[i].index)
    {
      var e := Entry(s.medias[i].mid, s.medias[i].index);
      assert e == MediaEntries(s.medias)[i];
      assert e in multiset(MediaEntries(s.medias));
      ContiguousOnce(lines, e);
    }
    assert lines[0..] == lines;
  }

  // An entry still to come is in the session: as the application or as a media.
  lemma OwnerPresent(s: Session, lines: seq<Entry>, s': Session, news: seq<NewLine>, n: nat, total: multiset<Entry>)
    requires Syncing(s, lines, s', news, n) && Contiguous(lines) && n < |lines|
    requires Seats(s') + multiset(NewEntries(news)) == total + Rest(lines, n)
    ensures || lines[n] in AppSeat(s')
            || exists k :: 0 <= k < |s'.medias| && Entry(s'.medias[k].mid, s'.medias[k].index) == lines[n]
  {
    SeatsSplit(s');
    RestStep(lines, n);
    assert lines[n] in Rest(lines, n);
    assert lines[n] in Seats(s') + multiset(NewEntries(news));
    if lines[n] in multiset(NewEntries(news)) {
      assert false;
    }
    if lines[n] !in AppSeat(s') {
      assert lines[n] in multiset(MediaEntries(s'.medias));
      var k :| 0 <= k < |s'.medias| && MediaEntries(s'.medias)[k] == lines[n];
    }
  }

  lemma SwapRemoveKeeps(medias: seq<Media>, pos: nat)
    requires pos < |medias|
    ensures forall i :: 0 <= i < |medias| - 1 ==>
              SwapRemove(medias, pos)[i] == medias[if i == pos then |medias| - 1 else i]
  {
  }

  lemma {:induction false} RecycledSeats(s: Session, lines: seq<Entry>, s1: Session, news: seq<NewLine>, n: nat,
                                         l: MediaLine, pos: nat)
    requires Syncing(s, lines, s1, news, n) && l.typ.IsMedia()
    requires pos < |s1.medias| && s1.medias[pos].index == n
    ensures Seats(s1.(medias := SwapRemove(s1.medias, pos))) + multiset{Entry(l.mid, n)} + Owner(lines, n)
              == Seats(s1) + SlotAfter(s, lines, l, n)
  {
    var s2 := s1.(medias := SwapRemove(s1.medias, pos));
    var new' := multiset{Entry(l.mid, n)};
    SeatsOfSwapRemove(s1.medias, pos);
    SeatsSplit(s1);
    SeatsSplit(s2);
    SeatCases(Seats(s1), Seats(s2), new', Owner(lines, n), SlotAfter(s, lines, l, n), new');
  }

  lemma {:induction false} FreshSeats(s: Session, lines: seq<Entry>, s1: Session, news: seq<NewLine>, n: nat,
                                      l: MediaLine, total: multiset<Entry>)
    requires Contiguous(lines) && AppIn(s, lines) && Syncing(s, lines, s1, news, n) && l.typ.IsMedia()
    requires Seats(s1) + multiset(NewEntries(news)) == total + Rest(lines, n)
    requires FindIndex(s1.medias, n).None?
    ensures Seats(s1) + multiset{Entry(l.mid, n)} + Owner(lines, n) == Seats(s1) + SlotAfter(s, lines, l, n)
  {
    var new' := multiset{Entry(l.mid, n)};
    if n < |lines| {
      OwnerPresent(s, lines, s1, news, n, total);
      assert AppAt(s, n);
    }
    SeatCases(Seats(s1), Seats(s1), new', Owner(lines, n), SlotAfter(s, lines, l, n), new');
  }

  lemma {:induction false} KnownSeats(s: Session, lines: seq<Entry>, s1: Session, news: seq<NewLine>, n: nat,
                                      l: MediaLine, k: nat, md: Media)
    requires Syncing(s, lines, s1, news, n) && l.typ.IsMedia()
    requires k < |s1.medias| && s1.medias[k].index == n && s1.medias[k].mid == l.mid
    requires md.mid == l.mid && md.index == n
    ensures Seats(s1.(medias := s1.medias[k := md])) + multiset{} + Owner(lines, n)
              == Seats(s1) + SlotAfter(s, lines, l, n)
  {
    SeatsOfUpdate(s1.medias, k, md);
    SeatCases(Seats(s1), Seats(s1), multiset{}, Owner(lines, n), SlotAfter(s, lines, l, n), multiset{Entry(l.mid, n)});
  }

  lemma {:induction false} OtherSeats(s: Session, lines: seq<Entry>, s1: Session, n: nat, l: MediaLine, isNew: bool)
    requires !l.typ.IsMedia() && s1.app == s.app
    requires isNew <==> l.typ.Application? && s.app.None?
    ensures Seats(s1) + (if isNew then multiset{Entry(l.mid, n)} else multiset{}) + Owner(lines, n)
              == Seats(s1) + SlotAfter(s, lines, l, n)
  {
    var new' := multiset{Entry(l.mid, n)};
    SeatCases(Seats(s1), Seats(s1), if isNew then new' else multiset{}, Owner(lines, n), SlotAfter(s, lines, l, n),
              new');
  }

  // By how much one line changes the entries of the session.
  lemma {:induction false} SyncLineSeats(m: Matcher, s: Session, lines: seq<Entry>, s1: Session, news: seq<NewLine>,
                                         n: nat, l: MediaLine, bundle: Option<seq<Mid>>, isOffer: bool,
                                         total: multiset<Entry>)
    requires Contiguous(lines) && AppIn(s, lines) && Syncing(s, lines, s1, news, n)
    requires Seats(s1) + multiset(NewEntries(news)) == total + Rest(lines, n)
    requires SyncLine(m, s1, n, l, bundle, isOffer).Accepted?
    ensures var (s2, isNew) := SyncLine(m, s1, n, l, bundle, isOffer).value;
            Seats(s2) + (if isNew then multiset{Entry(l.mid, n)} else multiset{}) + Owner(lines, n)
              == Seats(s1) + SlotAfter(s, lines, l, n)
  {
    if l.typ.IsMedia() {
      var k := FindMid(s1.medias, l.mid);
      if k.Some? {
        KnownSeats(s, lines, s1, news, n, l, k.value, UpdateMedia(m, s1.medias[k.value], l, s1.config, bundle));
      } else if FindIndex(s1.medias, n).None? {
        FreshSeats(s, lines, s1, news, n, l, total);
      } else {
        RecycledSeats(s, lines, s1, news, n, l, FindIndex(s1.medias, n).value);
      }
    } else {
      OtherSeats(s, lines, s1, n, l, SyncLine(m, s1, n, l, bundle, isOffer).value.1);
    }
  }

  // A line is kept, added beside the owner, or put in the owner's place.
  lemma SeatCases(seats1: multiset<Entry>, seats2: multiset<Entry>, added: multiset<Entry>, owner: multiset<Entry>,
                  slot: multiset<Entry>, new': multiset<Entry>)
    requires || (seats2 == seats1 && added == multiset{} && slot == owner)
             || (seats2 == seats1 && added == new' && slot == owner + new')
             || (seats2 + owner == seats1 && added == new' && slot == new')
    ensures seats2 + added + owner == seats1 + slot
  {
  }

  lemma KnownShape(s: Session, lines: seq<Entry>, s1: Session, news: seq<NewLine>, n: nat, k: nat, md: Media)
    requires Syncing(s, lines, s1, news, n)
    requires k < |s1.medias| && md.mid == s1.medias[k].mid && md.index == s1.medias[k].index
    ensures Syncing(s, lines, s1.(medias := s1.medias[k := md]), news, n)
  {
  }

  lemma RecycledShape(s: Session, lines: seq<Entry>, s1: Session, news: seq<NewLine>, n: nat, pos: nat)
    requires Syncing(s, lines, s1, news, n) && pos < |s1.medias|
    ensures Syncing(s, lines, s1.(medias := SwapRemove(s1.medias, pos)), news, n)
  {
    SwapRemoveKeeps(s1.medias, pos);
  }

  lemma NextShape(s: Session, lines: seq<Entry>, s1: Session, news: seq<NewLine>, n: nat, l: MediaLine, isNew: bool)
    requires Syncing(s, lines, s1, news, n)
    requires isNew ==> l.typ.IsMedia() || (l.typ.IsChannel() && s.app.None?)
    ensures Syncing(s, lines, s1, if isNew then news + [NewLine(n, l)] else news, n + 1)
  {
  }

  lemma {:induction false} SyncLineShape(m: Matcher, s: Session, lines: seq<Entry>, s1: Session, news: seq<NewLine>,
                                         n: nat, l: MediaLine, bundle: Option<seq<Mid>>, isOffer: bool)
    requires Syncing(s, lines, s1, news, n)
    requires SyncLine(m, s1, n, l, bundle, isOffer).Accepted?
    ensures var (s2, isNew) := SyncLine(m, s1, n, l, bundle, isOffer).value;
            Syncing(s, lines, s2, if isNew then news + [NewLine(n, l)] else news, n + 1)
  {
    var (s2, isNew) := SyncLine(m, s1, n, l, bundle, isOffer).value;
    if l.typ.IsMedia() {
      var k := FindMid(s1.medias, l.mid);
      var pos := FindIndex(s1.medias, n);
      if k.Some? {
        KnownShape(s, lines, s1, news, n, k.value, UpdateMedia(m, s1.medias[k.value], l, s1.config, bundle));
      } else if pos.Some? {
        RecycledShape(s, lines, s1, news, n, pos.value);
      }
    }
    NextShape(s, lines, s2, news, n, l, isNew);
  }

  // Moving one owner over from the rest to the total.
  lemma SeatsArithmetic(seats1: multiset<Entry>, seats2: multiset<Entry>, new1: multiset<Entry>, added: multiset<Entry>,
                        total: multiset<Entry>, owner: multiset<Entry>, rest: multiset<Entry>, slot: multiset<Entry>)
    requires seats1 + new1 == total + (owner + rest)
    requires seats2 + added + owner == seats1 + slot
    ensures seats2 + (new1 + added) == total + slot + rest
  {
    forall e ensures (seats2 + (new1 + added))[e] == (total + slot + rest)[e] {
      assert (seats1 + new1)[e] == (total + (owner + rest))[e];
      assert (seats2 + added + owner)[e] == (seats1 + slot)[e];
    }
  }

  // The state of the first loop after n lines: every entry is accounted for.
  ghost predicate Synced(s: Session, lines: seq<Entry>, sdp: Sdp, s1: Session, news: seq<NewLine>, n: nat) {
    && n <= |sdp.lines|
    && Syncing(s, lines, s1, news, n)
    && Seats(s1) + multiset(NewEntries(news)) == SlotsAfter(s, lines, sdp, n) + Rest(lines, n)
  }

  type SyncState = (Session, seq<NewLine>)

  // Line n takes the loop from one state to the next.
  ghost predicate SyncsTo(m: Matcher, st: SyncState, sdp: Sdp, n: nat, isOffer: bool, st': SyncState)
    requires n < |sdp.lines|
  {
    var r := SyncLine(m, st.0, n, sdp.lines[n], sdp.bundle, isOffer);
    r.Accepted? && st' == (r.value.0, if r.value.1 then st.1 + [NewLine(n, sdp.lines[n])] else st.1)
  }

  /** One line of the first loop: what it adds to the slots done so far. */
  lemma {:induction false} SyncStep(m: Matcher, s: Session, lines: seq<Entry>, sdp: Sdp, st: SyncState,
                                    n: nat, isOffer: bool, st': SyncState)
    requires Contiguous(lines) && AppIn(s, lines)
    requires n < |sdp.lines| && Synced(s, lines, sdp, st.0, st.1, n)
    requires SyncsTo(m, st, sdp, n, isOffer, st')
    ensures Synced(s, lines, sdp, st'.0, st'.1, n + 1)
  {
    var l, total := sdp.lines[n], SlotsAfter(s, lines, sdp, n);
    var isNew := SyncLine(m, st.0, n, l, sdp.bundle, isOffer).value.1;
    SyncLineShape(m, s, lines, st.0, st.1, n, l, sdp.bundle, isOffer);
    SyncLineSeats(m, s, lines, st.0, st.1, n, l, sdp.bundle, isOffer, total);
    RestStep(lines, n);
    NewEntriesPush(st.1, NewLine(n, l));
    SeatsArithmetic(Seats(st.0), Seats(st'.0), multiset(NewEntries(st.1)),
                    if isNew then multiset{Entry(l.mid, n)} else multiset{},
                    total, Owner(lines, n), Rest(lines, n + 1), SlotAfter(s, lines, l, n));
  }

  // The states of the loop, one per line.
  ghost predicate IsSyncTrace(m: Matcher, s: Session, sdp: Sdp, isOffer: bool, states: seq<SyncState>) {
    && 1 <= |states| <= |sdp.lines| + 1 && states[0] == (s, [])
    && forall k :: 0 <= k < |states| - 1 ==> SyncsTo(m, states[k], sdp, k, isOffer, states[k + 1])
  }

  lemma {:induction false} SyncTrace(m: Matcher, s: Session, sdp: Sdp, isOffer: bool, n: nat)
    returns (states: seq<SyncState>)
    requires n <= |sdp.lines| && SyncMedias(m, s, sdp, isOffer, n).Accepted?
    ensures IsSyncTrace(m, s, sdp, isOffer, states)
    ensures |states| == n + 1 && states[n] == SyncMedias(m, s, sdp, isOffer, n).value
  {
    if n == 0 {
      states := [(s, [])];
    } else {
      var front := SyncTrace(m, s, sdp, isOffer, n - 1);
      states := front + [SyncMedias(m, s, sdp, isOffer, n).value];
      forall k | 0 <= k < n ensures SyncsTo(m, states[k], sdp, k, isOffer, states[k + 1]) {
        if k < n - 1 {
          assert SyncsTo(m, front[k], sdp, k, isOffer, front[k + 1]);
        }
      }
    }
  }

  lemma {:induction false} SyncLoop(m: Matcher, s: Session, lines: seq<Entry>, sdp: Sdp, isOffer: bool,
                                    states: seq<SyncState>, n: nat)
    requires Contiguous(lines) && AppIn(s, lines) && Synced(s, lines, sdp, s, [], 0)
    requires IsSyncTrace(m, s, sdp, isOffer, states) && n < |states|
    ensures Synced(s, lines, sdp, states[n].0, states[n].1, n)
  {
    if n > 0 {
      SyncLoop(m, s, lines, sdp, isOffer, states, n - 1);
      SyncStep(m, s, lines, sdp, states[n - 1], n - 1, isOffer, states[n]);
    }
  }

  // ---- Second loop ----

  // What adding a line does to the lines of the session.
  ghost predicate LineAdded(s: Session, nl: NewLine, s': Session) {
    if nl.line.typ.IsMedia() then
      && s'.app == s.app && |s'.medias| == |s.medias| + 1 && s'.medias[..|s.medias|] == s.medias
      && s'.medias[|s.medias|].mid == nl.line.mid && s'.medias[|s.medias|].index == nl.index
    else
      && nl.line.typ.IsChannel() && s'.medias == s.medias && s'.app == Some(App(nl.line.mid, nl.index))
      && (s.app.Some? ==> s'.app == s.app)
  }

  lemma AddLineAdds(m: Matcher, s: Session, nl: NewLine, bundle: Option<seq<Mid>>, isOffer: bool)
    requires AddLine(m, s, nl, bundle, isOffer).Accepted?
    ensures LineAdded(s, nl, AddLine(m, s, nl, bundle, isOffer).value)
  {
  }

  lemma {:induction false} LineAddedSeats(s: Session, nl: NewLine, s': Session)
    requires LineAdded(s, nl, s')
    requires nl.line.typ.IsChannel() && s.app.Some? ==> s.app.value.index != nl.index
    ensures Seats(s') == Seats(s) + multiset{Entry(nl.line.mid, nl.index)}
  {
    SeatsSplit(s);
    SeatsSplit(s');
    if nl.line.typ.IsMedia() {
      var md := s'.medias[|s.medias|];
      assert s'.medias == s.medias + [md];
      SeatsOfPush(s.medias, md);
      Assoc(AppSeat(s), multiset(MediaEntries(s.medias)), multiset{Entry(md.mid, md.index)});
    }
  }

  // The application is the one before, or one of the lines added.
  ghost predicate AppFrom(s: Session, news: seq<NewLine>, n: nat, s': Session)
    requires n <= |news|
  {
    s'.app == s.app || (s'.app.Some? && exists i :: 0 <= i < n && news[i].index == s'.app.value.index)
  }

  // The sessions of the second loop, one per new line.
  ghost predicate IsAddTrace(s: Session, news: seq<NewLine>, states: seq<Session>) {
    && 1 <= |states| <= |news| + 1 && states[0] == s
    && forall k :: 0 <= k < |states| - 1 ==> LineAdded(states[k], news[k], states[k + 1])
  }

  lemma {:induction false} AddTrace(m: Matcher, s: Session, news: seq<NewLine>, bundle: Option<seq<Mid>>, isOffer: bool)
    returns (states: seq<Session>)
    requires AddNewLines(m, s, news, bundle, isOffer, |news|).Accepted?
    ensures IsAddTrace(s, news, states) && |states| == |news| + 1
    ensures states[|news|] == AddNewLines(m, s, news, bundle, isOffer, |news|).value
  {
    AddNewLinesIsFold(m, s, news, bundle, isOffer, |news|);
    states := FoldTrace(AddLineOf(m, bundle, isOffer), s, news, |news|);
    forall k | 0 <= k < |states| - 1 ensures LineAdded(states[k], news[k], states[k + 1]) {
      assert AddLineOf(m, bundle, isOffer)(states[k], news[k]) == Accepted(states[k + 1]);
      AddLineAdds(m, states[k], news[k], bundle, isOffer);
    }
  }

  lemma AppFromStep(s: Session, news: seq<NewLine>, n: nat, s1: Session, s2: Session)
    requires n < |news| && AppFrom(s, news, n, s1) && LineAdded(s1, news[n], s2)
    ensures AppFrom(s, news, n + 1, s2)
  {
    assert news[n].index == news[n].index;
  }

  // New lines have slots of their own, and a channel is new only where there is no application yet.
  ghost predicate Separate(s: Session, news: seq<NewLine>) {
    && (forall i :: 0 <= i < |news| && news[i].line.typ.IsChannel() ==> s.app.None?)
    && (forall i, j :: 0 <= i < j < |news| ==> news[i].index != news[j].index)
  }

  // Where the second loop stands after n new lines.
  ghost predicate Added(s: Session, news: seq<NewLine>, n: nat, s': Session) {
    n <= |news| && AppFrom(s, news, n, s') && Seats(s') == Seats(s) + multiset(NewEntries(news[..n]))
  }

  lemma {:induction false} AddStep(s: Session, news: seq<NewLine>, n: nat, s1: Session, s2: Session)
    requires n < |news| && Separate(s, news) && Added(s, news, n, s1) && LineAdded(s1, news[n], s2)
    ensures Added(s, news, n + 1, s2)
  {
    var nl := news[n];
    AppFromStep(s, news, n, s1, s2);
    assert news[..n + 1] == news[..n] + [nl];
    NewEntriesPush(news[..n], nl);
    LineAddedSeats(s1, nl, s2);
    Assoc(Seats(s), multiset(NewEntries(news[..n])), multiset{Entry(nl.line.mid, nl.index)});
  }

  lemma {:induction false} AddLoop(s: Session, news: seq<NewLine>, states: seq<Session>, n: nat)
    requires IsAddTrace(s, news, states) && n < |states| && Separate(s, news)
    ensures Added(s, news, n, states[n])
  {
    if n == 0 {
      assert NewEntries(news[..0]) == [];
    } else {
      AddLoop(s, news, states, n - 1);
      AddStep(s, news, n - 1, states[n - 1], states[n]);
    }
  }

  lemma Assoc(a: multiset<Entry>, b: multiset<Entry>, c: multiset<Entry>)
    ensures a + b + c == a + (b + c)
  {
  }

  lemma {:induction false} NewsIncrease(m: Matcher, s: Session, sdp: Sdp, isOffer: bool, n: nat)
    requires n <= |sdp.lines| && SyncMedias(m, s, sdp, isOffer, n).Accepted?
    ensures var news := SyncMedias(m, s, sdp, isOffer, n).value.1;
            && (forall i :: 0 <= i < |news| ==> news[i].index < n)
            && (forall i, j :: 0 <= i < j < |news| ==> news[i].index < news[j].index)
  {
    if n > 0 {
      NewsIncrease(m, s, sdp, isOffer, n - 1);
    }
  }

  lemma SyncedSeparate(s: Session, lines: seq<Entry>, s1: Session, news: seq<NewLine>, n: nat)
    requires Syncing(s, lines, s1, news, n)
    requires forall i, j :: 0 <= i < j < |news| ==> news[i].index < news[j].index
    ensures Separate(s1, news)
  {
  }

  lemma SyncedStart(s: Session, sdp: Sdp)
    requires WellFormed(s)
    ensures Synced(s, AsMediaLines(s), sdp, s, [], 0) && AppIn(s, AsMediaLines(s))
  {
    SyncingStart(s);
    assert NewEntries([]) == [];
    assert Seats(s) + multiset{} == multiset{} + Rest(AsMediaLines(s), 0);
  }

  lemma {:induction false} AddLoopAll(m: Matcher, s: Session, news: seq<NewLine>, bundle: Option<seq<Mid>>,
                                      isOffer: bool)
    requires AddNewLines(m, s, news, bundle, isOffer, |news|).Accepted? && Separate(s, news)
    ensures Seats(AddNewLines(m, s, news, bundle, isOffer, |news|).value) == Seats(s) + multiset(NewEntries(news))
  {
    var states := AddTrace(m, s, news, bundle, isOffer);
    AddLoop(s, news, states, |news|);
    assert news[..|news|] == news;
  }

  lemma {:induction false} FirstLoop(m: Matcher, s: Session, sdp: Sdp, isOffer: bool) returns (st: SyncState)
    requires WellFormed(s) && SyncMedias(m, s, sdp, isOffer, |sdp.lines|).Accepted?
    ensures st == SyncMedias(m, s, sdp, isOffer, |sdp.lines|).value
    ensures Synced(s, AsMediaLines(s), sdp, st.0, st.1, |sdp.lines|) && Separate(st.0, st.1)
  {
    SyncedStart(s, sdp);
    var n := |sdp.lines|;
    var states := SyncTrace(m, s, sdp, isOffer, n);
    st := states[n];
    SyncLoop(m, s, AsMediaLines(s), sdp, isOffer, states, n);
    NewsIncrease(m, s, sdp, isOffer, n);
    SyncedSeparate(s, AsMediaLines(s), st.0, st.1, n);
  }

  /** The entries of the session after an accepted SDP, slot by slot. */
  lemma {:induction false} AcceptedSlots(m: Matcher, s: Session, sdp: Sdp, isOffer: bool)
    requires WellFormed(s) && TakeIn(m, s, sdp, isOffer).Accepted?
    ensures Seats(TakeIn(m, s, sdp, isOffer).value) == ResultSeats(s, AsMediaLines(s), sdp)
  {
    var st := FirstLoop(m, s, sdp, isOffer);
    AddLoopAll(m, st.0, st.1, sdp.bundle, isOffer);
  }

  // ---- The main result ----

  /** The line leaves the slots in use alone: what a remote must observe, line by line. */
  predicate Respects(s: Session, lines: seq<Entry>, l: MediaLine, idx: nat) {
    match l.typ
    case Application =>
      // A new application needs a fresh slot, an existing one keeps its mid.
      if s.app.None? then idx >= |lines| else idx < |lines| && lines[idx].mid == l.mid
    case Unknown => idx < |lines| && lines[idx].mid == l.mid
    case _ => !AppAt(s, idx)
  }

  ghost predicate RespectsSlots(s: Session, sdp: Sdp) {
    var lines := AsMediaLines(s);
    && |lines| <= |sdp.lines|
    && forall i :: 0 <= i < |sdp.lines| ==> Respects(s, lines, sdp.lines[i], i)
  }

  lemma RespectsMeansOne(s: Session, lines: seq<Entry>, l: MediaLine, idx: nat)
    requires Contiguous(lines) && AppIn(s, lines)
    ensures Respects(s, lines, l, idx) <==> SlotAfter(s, lines, l, idx) == multiset{Entry(l.mid, idx)}
  {
    var slot, new' := SlotAfter(s, lines, l, idx), Entry(l.mid, idx);
    if !Respects(s, lines, l, idx) {
      if idx < |lines| && lines[idx] != new' {
        assert lines[idx] in slot;
      } else if idx < |lines| {
        assert slot[new'] == 2 || !l.typ.Unknown?;
      } else {
        assert new' !in slot;
      }
    }
  }

  lemma SlotHoldsOwn(s: Session, lines: seq<Entry>, l: MediaLine, idx: nat, e: Entry)
    requires Contiguous(lines) && e.index != idx
    ensures SlotAfter(s, lines, l, idx)[e] == 0
  {
    assert Owner(lines, idx)[e] == 0;
  }

  lemma {:induction false} SumAt(parts: seq<multiset<Entry>>, n: nat, e: Entry)
    requires n <= |parts|
    requires forall i :: 0 <= i < |parts| && i != e.index ==> parts[i][e] == 0
    ensures Sum(parts, n)[e] == if e.index < n then parts[e.index][e] else 0
  {
    if n > 0 {
      SumAt(parts, n - 1, e);
    }
  }

  lemma {:induction false} SlotsAfterAt(s: Session, lines: seq<Entry>, sdp: Sdp, n: nat, e: Entry)
    requires Contiguous(lines) && n <= |sdp.lines|
    ensures SlotsAfter(s, lines, sdp, n)[e]
              == if e.index < n then SlotAfter(s, lines, sdp.lines[e.index], e.index)[e] else 0
  {
    var parts := Slots(s, lines, sdp);
    forall i | 0 <= i < |parts| && i != e.index ensures parts[i][e] == 0 {
      SlotHoldsOwn(s, lines, sdp.lines[i], i, e);
    }
    SumAt(parts, n, e);
  }

  lemma {:induction false} ContiguousCount(lines: seq<Entry>, e: Entry)
    requires Contiguous(lines)
    ensures multiset(lines)[e] == if e.index < |lines| && lines[e.index] == e then 1 else 0
  {
    ContiguousOnce(lines, e);
    if e.index < |lines| && lines[e.index] == e {
      assert e in lines;
    }
  }

  lemma {:induction false} RestCount(lines: seq<Entry>, n: nat, e: Entry)
    requires Contiguous(lines)
    ensures Rest(lines, n)[e] == if n <= e.index < |lines| && lines[e.index] == e then 1 else 0
    decreases |lines| - n
  {
    if n < |lines| {
      RestStep(lines, n);
      RestCount(lines, n + 1, e);
    }
  }

  lemma {:induction false} ResultAt(s: Session, lines: seq<Entry>, sdp: Sdp, e: Entry)
    requires Contiguous(lines) && AppIn(s, lines)
    ensures var n := |sdp.lines|;
            && multiset(LineEntries(sdp))[e] == (if e.index < n && sdp.lines[e.index].mid == e.mid then 1 else 0)
            && ResultSeats(s, lines, sdp)[e] ==
                 (if e.index < n then SlotAfter(s, lines, sdp.lines[e.index], e.index)[e] else 0) +
                 (if n <= e.index < |lines| && lines[e.index] == e then 1 else 0)
  {
    ContiguousCount(LineEntries(sdp), e);
    SlotsAfterAt(s, lines, sdp, |sdp.lines|, e);
    RestCount(lines, |sdp.lines|, e);
  }

  lemma {:induction false} RespectedGivesLines(s: Session, lines: seq<Entry>, sdp: Sdp)
    requires Contiguous(lines) && AppIn(s, lines) && |lines| <= |sdp.lines|
    requires forall i :: 0 <= i < |sdp.lines| ==> Respects(s, lines, sdp.lines[i], i)
    ensures ResultSeats(s, lines, sdp) == multiset(LineEntries(sdp))
  {
    forall e: Entry ensures ResultSeats(s, lines, sdp)[e] == multiset(LineEntries(sdp))[e] {
      ResultAt(s, lines, sdp, e);
      if e.index < |sdp.lines| {
        RespectsMeansOne(s, lines, sdp.lines[e.index], e.index);
      }
    }
  }

  lemma {:induction false} LinesGiveRespected(s: Session, lines: seq<Entry>, sdp: Sdp, i: nat)
    requires Contiguous(lines) && AppIn(s, lines) && i < |sdp.lines|
    requires ResultSeats(s, lines, sdp) == multiset(LineEntries(sdp))
    ensures Respects(s, lines, sdp.lines[i], i)
  {
    RespectsMeansOne(s, lines, sdp.lines[i], i);
    var slot, new' := SlotAfter(s, lines, sdp.lines[i], i), Entry(sdp.lines[i].mid, i);
    forall e: Entry ensures slot[e] == multiset{new'}[e] {
      ResultAt(s, lines, sdp, e);
    }
    assert slot == multiset{new'};
  }

  /** Respecting the slots is the same as ending up with exactly the lines of the SDP. */
  lemma {:induction false} SlotsIff(s: Session, lines: seq<Entry>, sdp: Sdp)
    requires Contiguous(lines) && AppIn(s, lines)
    ensures ResultSeats(s, lines, sdp) == multiset(LineEntries(sdp)) <==>
              |lines| <= |sdp.lines| && forall i :: 0 <= i < |sdp.lines| ==> Respects(s, lines, sdp.lines[i], i)
  {
    if |lines| <= |sdp.lines| && forall i :: 0 <= i < |sdp.lines| ==> Respects(s, lines, sdp.lines[i], i) {
      RespectedGivesLines(s, lines, sdp);
    }
    if ResultSeats(s, lines, sdp) == multiset(LineEntries(sdp)) {
      if |lines| > |sdp.lines| {
        ResultAt(s, lines, sdp, lines[|sdp.lines|]);
      }
      forall i | 0 <= i < |sdp.lines| ensures Respects(s, lines, sdp.lines[i], i) {
        LinesGiveRespected(s, lines, sdp, i);
      }
    }
  }

  lemma {:induction false} SeatsSettleLines(s: Session, target: seq<Entry>)
    requires Contiguous(target)
    ensures AsMediaLines(s) == target <==> Seats(s) == multiset(target)
  {
    SortSorts(Entries(s));
    if Seats(s) == multiset(target) {
      SortedUnique(AsMediaLines(s), target);
    }
  }

  /**
   An accepted SDP leaves a session whose lines are exactly those of the SDP, each at its
   own position, if and only if the SDP respects the slots in use. The answer to an offer
   is made from those lines.
   */
  lemma {:induction false} AcceptedLinesIff(m: Matcher, s: Session, sdp: Sdp, isOffer: bool)
    requires WellFormed(s) && TakeIn(m, s, sdp, isOffer).Accepted?
    ensures AsMediaLines(TakeIn(m, s, sdp, isOffer).value) == LineEntries(sdp) <==> RespectsSlots(s, sdp)
  {
    var s' := TakeIn(m, s, sdp, isOffer).value;
    SyncingStart(s);
    AcceptedSlots(m, s, sdp, isOffer);
    SlotsIff(s, AsMediaLines(s), sdp);
    SeatsSettleLines(s', LineEntries(sdp));
  }

  ghost predicate LineMidsDistinct(sdp: Sdp) {
    forall i, j :: 0 <= i < j < |sdp.lines| ==> sdp.lines[i].mid != sdp.lines[j].mid
  }

  lemma CountTwice(es: seq<Entry>, i: nat, j: nat)
    requires i < j < |es|
    ensures es[i] == es[j] ==> multiset(es)[es[i]] >= 2
  {
    assert es == es[..j] + [es[j]] + es[j + 1..];
    assert es[i] in es[..j];
  }

  lemma {:induction false} LinesMakeWellFormed(s: Session, sdp: Sdp)
    requires AsMediaLines(s) == LineEntries(sdp) && LineMidsDistinct(sdp)
    ensures WellFormed(s)
  {
    var es := MediaEntries(s.medias);
    SeatsAreLines(s);
    SeatsSplit(s);
    forall i, j | 0 <= i < j < |s.medias| ensures s.medias[i].mid != s.medias[j].mid {
      ContiguousOnce(LineEntries(sdp), es[i]);
      ContiguousOnce(LineEntries(sdp), es[j]);
      assert es[i] in multiset(es) && es[j] in multiset(es);
      CountTwice(es, i, j);
    }
  }

  /** An SDP the session takes in cleanly: distinct mids, slots in use respected. */
  ghost predicate CleanSdp(s: Session, sdp: Sdp) {
    LineMidsDistinct(sdp) && RespectsSlots(s, sdp)
  }

  // ---- Recycling ----

  // The media is still in the list, though perhaps changed.
  ghost predicate Kept(medias: seq<Media>, md: Media) {
    exists i :: 0 <= i < |medias| && medias[i].mid == md.mid && medias[i].index == md.index
  }

  // One line touches no media but those of its own slot, and takes one away only if it is disabled.
  ghost predicate TouchesSlot(before: seq<Media>, after: seq<Media>, idx: nat, isOffer: bool) {
    && (forall md :: md in before && md.index != idx ==> md in after)
    && (forall md :: md in after && md.index != idx ==> md in before)
    && (forall md :: md in before && md.index == idx ==> Kept(after, md) || (isOffer && md.Disabled()))
  }

  lemma {:induction false} UpdateTouchesSlot(medias: seq<Media>, k: nat, md: Media, isOffer: bool)
    requires k < |medias| && md.mid == medias[k].mid && md.index == medias[k].index
    ensures TouchesSlot(medias, medias[k := md], md.index, isOffer)
  {
    var after := medias[k := md];
    forall e | e in medias ensures (e.index != md.index ==> e in after) && (e.index == md.index ==> Kept(after, e)) {
      var i :| 0 <= i < |medias| && medias[i] == e;
      assert after[i].mid == e.mid && after[i].index == e.index;
      assert i != k ==> after[i] == e;
    }
    forall e | e in after && e.index != md.index ensures e in medias {
      var i :| 0 <= i < |after| && after[i] == e;
      assert medias[i] == e;
    }
  }

  lemma {:induction false} SwapRemoveTouchesSlot(medias: seq<Media>, pos: nat, isOffer: bool)
    requires pos < |medias| && isOffer && medias[pos].Disabled()
    ensures TouchesSlot(medias, SwapRemove(medias, pos), medias[pos].index, isOffer)
  {
    var after, n := SwapRemove(medias, pos), |medias| - 1;
    SwapRemoveKeeps(medias, pos);
    forall e | e in medias && e != medias[pos] ensures e in after {
      var i :| 0 <= i < |medias| && medias[i] == e;
      assert after[if i == n then pos else i] == e;
    }
    forall e | e in after ensures e in medias {
      var i :| 0 <= i < |after| && after[i] == e;
      assert medias[if i == pos then n else i] == e;
    }
    forall e | e in medias && e.index == medias[pos].index ensures Kept(after, e) || e.Disabled() {
      if e != medias[pos] {
        var i :| 0 <= i < |after| && after[i] == e;
      }
    }
  }

  lemma UntouchedSlot(medias: seq<Media>, idx: nat, isOffer: bool)
    ensures TouchesSlot(medias, medias, idx, isOffer)
  {
    forall e | e in medias ensures Kept(medias, e) {
      var i :| 0 <= i < |medias| && medias[i] == e;
    }
  }

  lemma {:induction false} LineTouchesSlot(m: Matcher, s: Session, idx: nat, l: MediaLine, bundle: Option<seq<Mid>>,
                                           isOffer: bool)
    requires SyncLine(m, s, idx, l, bundle, isOffer).Accepted?
    ensures TouchesSlot(s.medias, SyncLine(m, s, idx, l, bundle, isOffer).value.0.medias, idx, isOffer)
  {
    var k, pos := FindMid(s.medias, l.mid), FindIndex(s.medias, idx);
    if l.typ.IsMedia() && k.Some? {
      UpdateTouchesSlot(s.medias, k.value, UpdateMedia(m, s.medias[k.value], l, s.config, bundle), isOffer);
    } else if l.typ.IsMedia() && pos.Some? {
      SwapRemoveTouchesSlot(s.medias, pos.value, isOffer);
    } else {
      UntouchedSlot(s.medias, idx, isOffer);
    }
  }

  // After n lines: later slots are as they were, and of the earlier ones only disabled medias are gone.
  ghost predicate Recycled(before: seq<Media>, after: seq<Media>, n: nat, isOffer: bool) {
    && (forall md :: md in before && md.index >= n ==> md in after)
    && (forall md :: md in after && md.index >= n ==> md in before)
    && (forall md :: md in before && md.index < n ==> Kept(after, md) || (isOffer && md.Disabled()))
  }

  lemma {:induction false} RecycledStep(a: seq<Media>, b: seq<Media>, c: seq<Media>, n: nat, isOffer: bool)
    requires Recycled(a, b, n, isOffer) && TouchesSlot(b, c, n, isOffer)
    ensures Recycled(a, c, n + 1, isOffer)
  {
    forall md | md in a && md.index < n + 1 ensures Kept(c, md) || (isOffer && md.Disabled()) {
      if md.index < n && Kept(b, md) {
        var i :| 0 <= i < |b| && b[i].mid == md.mid && b[i].index == md.index;
        assert b[i] in c;
        var j :| 0 <= j < |c| && c[j] == b[i];
      }
    }
  }

  lemma {:induction false} RecyclesOnlyDisabled(m: Matcher, s: Session, sdp: Sdp, isOffer: bool,
                                                states: seq<SyncState>, n: nat)
    requires IsSyncTrace(m, s, sdp, isOffer, states) && n < |states|
    ensures Recycled(s.medias, states[n].0.medias, n, isOffer)
  {
    if n > 0 {
      RecyclesOnlyDisabled(m, s, sdp, isOffer, states, n - 1);
      assert SyncsTo(m, states[n - 1], sdp, n - 1, isOffer, states[n]);
      LineTouchesSlot(m, states[n - 1].0, n - 1, sdp.lines[n - 1], sdp.bundle, isOffer);
      RecycledStep(s.medias, states[n - 1].0.medias, states[n].0.medias, n - 1, isOffer);
    }
  }

  lemma {:induction false} AddedKeeps(s: Session, news: seq<NewLine>, states: seq<Session>, n: nat)
    requires IsAddTrace(s, news, states) && n < |states|
    ensures s.medias <= states[n].medias
  {
    if n > 0 {
      AddedKeeps(s, news, states, n - 1);
      assert LineAdded(states[n - 1], news[n - 1], states[n]);
    }
  }

  /** A media that is gone after an accepted SDP was disabled, and the SDP was an offer with a line on its slot. */
  lemma {:induction false} LostWereDisabled(m: Matcher, s: Session, sdp: Sdp, isOffer: bool, md: Media)
    requires TakeIn(m, s, sdp, isOffer).Accepted? && md in s.medias
    ensures Kept(TakeIn(m, s, sdp, isOffer).value.medias, md) || (isOffer && md.Disabled() && md.index < |sdp.lines|)
  {
    var states := SyncTrace(m, s, sdp, isOffer, |sdp.lines|);
    var st := states[|sdp.lines|];
    RecyclesOnlyDisabled(m, s, sdp, isOffer, states, |sdp.lines|);
    var added := AddTrace(m, st.0, st.1, sdp.bundle, isOffer);
    AddedKeeps(st.0, st.1, added, |st.1|);
    var ms, ms' := st.0.medias, TakeIn(m, s, sdp, isOffer).value.medias;
    if md in ms {
      var i :| 0 <= i < |ms| && ms[i] == md;
      assert ms'[i] == md;
    } else if Kept(ms, md) {
      var i :| 0 <= i < |ms| && ms[i].mid == md.mid && ms[i].index == md.index;
      assert ms'[i] == ms[i];
    }
  }

  // A media line without payload types, where no codec is configured.
  lemma AddBareLine(m: Matcher, s: Session, nl: NewLine, bundle: Option<seq<Mid>>, isOffer: bool)
    requires s.config == [] && nl.line.typ.IsMedia() && nl.line.rtpParams == []
    ensures var r := AddLine(m, s, nl, bundle, isOffer);
            && r.Accepted? && r.value.app == s.app && r.value.config == [] && |r.value.medias| == |s.medias| + 1
            && r.value.medias[..|s.medias|] == s.medias
            && r.value.medias[|s.medias|].mid == nl.line.mid && r.value.medias[|s.medias|].index == nl.index
  {
    assert UpdateParams(m, [], [], nl.line.dir) == Done([]);
  }

  /** Nothing keeps a media line off the application's slot: after this offer both sit on slot 0. */
  lemma SlotClashExample(m: Matcher)
    ensures var s := Session(Some(App("d", 0)), [], []);
            var offer := Sdp([MediaLine("a", Audio, false, SendRecv, [])], None);
            var r := ApplyOffer(m, s, offer);
            WellFormed(s) && r.Accepted? && AsMediaLines(r.value) == [Entry("d", 0), Entry("a", 0)]
  {
    var s, l := Session(Some(App("d", 0)), [], []), MediaLine("a", Audio, false, SendRecv, []);
    var offer, nl := Sdp([l], None), NewLine(0, l);
    assert SyncMedias(m, s, offer, true, 0) == Accepted((s, []));
    assert [] + [nl] == [nl];
    assert SyncMedias(m, s, offer, true, 1) == Accepted((s, [nl]));
    assert AddNewLines(m, s, [nl], None, true, 0) == Accepted(s);
    AddBareLine(m, s, nl, None, true);
    var r := AddNewLines(m, s, [nl], None, true, 1);
    assert r == AddLine(m, s, nl, None, true);
    SortOne(Entry("d", 0));
    assert Entries(s) == [Entry("d", 0)];
    SortTwo(Entry("d", 0), Entry("a", 0));
    assert Entries(r.value) == [Entry("d", 0), Entry("a", 0)];
  }

  lemma SortOne(e: Entry)
    ensures SortByIndex([e]) == [e]
  {
    assert [e][..0] == [] && [] + [e] == [e];
  }

  lemma SortTwo(e: Entry, f: Entry)
    requires e.index <= f.index
    ensures SortByIndex([e, f]) == [e, f]
  {
    SortOne(e);
    assert [e, f][..1] == [e] && [e] + [f] == [e, f];
  }
}
