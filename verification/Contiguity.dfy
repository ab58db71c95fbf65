/**
 Frame contiguity for layered video: which frames may be emitted, given picture ids and the
 id of the base layer picture (tl0) each frame depends on.
 */
module Contiguity {
  import opened Prelude

  // Unsigned 64-bit; sums wrap around.
  const U64 := 0x1_0000_0000_0000_0000
  type Id = n: int | 0 <= n < 0x1_0000_0000_0000_0000

  function WrappingNext(x: Id): Id {
    (x + 1) % U64
  }

  datatype Frame = Frame(pictureId: Option<Id>, tl0: Option<Id>, layer: Option<Id>, contiguousSeq: bool) {
    predicate HasIds() {
      pictureId.Some? && tl0.Some?
    }
  }

  datatype State = State(lastPictureId: Option<Id>, lastTl0: Option<Id>)

  datatype Verdict = Verdict(emit: bool, contiguous: bool)

  function Judge(s: State, f: Frame): (State, Verdict) {
    if !f.HasIds() then (s, Verdict(true, f.contiguousSeq))
    else if s.lastTl0.None? || s.lastPictureId.None? then (State(f.pictureId, f.tl0), Verdict(true, true))
    else if f.pictureId.value <= s.lastPictureId.value then (s, Verdict(false, true))
    else if f.layer == Some(0) then
      (State(f.pictureId, f.tl0), Verdict(true, f.tl0.value == WrappingNext(s.lastTl0.value)))
    else if f.tl0 == s.lastTl0 && f.pictureId.value == WrappingNext(s.lastPictureId.value) then
      (s.(lastPictureId := f.pictureId), Verdict(true, true))
    else (s, Verdict(false, true))
  }

  // ---- Whole runs ----

  function RunState(frames: seq<Frame>): State {
    if frames == [] then State(None, None)
    else Judge(RunState(frames[..|frames| - 1]), frames[|frames| - 1]).0
  }

  function VerdictAt(frames: seq<Frame>, n: nat): Verdict
    requires n < |frames|
  {
    Judge(RunState(frames[..n]), frames[n]).1
  }

  predicate WithIds(es: seq<Frame>) {
    forall i :: 0 <= i < |es| ==> es[i].pictureId.Some? && es[i].tl0.Some?
  }

  /** The emitted frames of a run that carry both ids, in order. */
  function Emitted(frames: seq<Frame>): (es: seq<Frame>)
    ensures WithIds(es)
  {
    if frames == [] then [] else
      var n := |frames| - 1;
      var f := frames[n];
      if f.HasIds() && Judge(RunState(frames[..n]), f).1.emit then Emitted(frames[..n]) + [f] else Emitted(frames[..n])
  }

  // A frame later ones build on: the first one, or one of the base layer.
  predicate IsAnchor(es: seq<Frame>, i: int)
    requires 0 <= i < |es|
  {
    i == 0 || es[i].layer == Some(0)
  }

  function LastAnchor(es: seq<Frame>, i: nat): (k: nat)
    requires i < |es|
    ensures k <= i && IsAnchor(es, k)
    ensures forall j :: k < j <= i ==> !IsAnchor(es, j)
  {
    if IsAnchor(es, i) then i else LastAnchor(es, i - 1)
  }

  /** What the history alone says about a frame that carries both ids. */
  ghost predicate MayFollow(es: seq<Frame>, f: Frame)
    requires f.HasIds() && WithIds(es)
  {
    es == [] ||
    var n := |es| - 1;
    && es[n].pictureId.value < f.pictureId.value
    && (f.layer == Some(0) ||
        (f.tl0 == es[LastAnchor(es, n)].tl0 && f.pictureId.value == es[n].pictureId.value + 1))
  }

  // The state remembers the last emitted frame and the last anchor, and nothing else.
  ghost function StateOf(es: seq<Frame>): State {
    if es == [] then State(None, None)
    else State(es[|es| - 1].pictureId, es[LastAnchor(es, |es| - 1)].tl0)
  }

  ghost predicate PicturesIncrease(es: seq<Frame>)
    requires WithIds(es)
  {
    forall i, j :: 0 <= i < j < |es| ==> es[i].pictureId.value < es[j].pictureId.value
  }

  // Frame i has the tl0 id of its anchor, with every picture id in between emitted.
  ghost predicate ContinuesAnchor(es: seq<Frame>, i: nat)
    requires WithIds(es) && i < |es|
  {
    var a := LastAnchor(es, i);
    es[i].tl0 == es[a].tl0 && es[i].pictureId.value == es[a].pictureId.value + (i - a)
  }

  /** Picture ids strictly increase, and a frame off the base layer directly continues its anchor. */
  ghost predicate Decodable(es: seq<Frame>)
    requires WithIds(es)
  {
    PicturesIncrease(es) && forall i :: 0 <= i < |es| ==> ContinuesAnchor(es, i)
  }

  lemma LastAnchorPrefix(es: seq<Frame>, f: Frame, i: nat)
    requires i < |es|
    ensures LastAnchor(es + [f], i) == LastAnchor(es, i)
  {
    var k, k' := LastAnchor(es, i), LastAnchor(es + [f], i);
    assert forall j :: 0 <= j <= i ==> (IsAnchor(es, j) <==> IsAnchor(es + [f], j));
    assert !(k < k') && !(k' < k);
  }

  lemma {:induction false} EmitDecides(es: seq<Frame>, f: Frame)
    requires WithIds(es) && f.HasIds()
    ensures var (s', v) := Judge(StateOf(es), f);
            && (v.emit <==> MayFollow(es, f))
            && s' == if v.emit then StateOf(es + [f]) else StateOf(es)
  {
    if es != [] {
      LastAnchorPrefix(es, f, |es| - 1);
      assert IsAnchor(es + [f], |es|) <==> f.layer == Some(0);
    }
  }

  lemma FollowIncreases(es: seq<Frame>, f: Frame)
    requires WithIds(es) && f.HasIds() && PicturesIncrease(es) && MayFollow(es, f)
    ensures PicturesIncrease(es + [f])
  {
    var n := |es|;
    forall i | 0 <= i < n ensures es[i].pictureId.value < f.pictureId.value {
      assert i == n - 1 || es[i].pictureId.value < es[n - 1].pictureId.value;
    }
  }

  lemma {:induction false} FollowContinues(es: seq<Frame>, f: Frame, i: nat)
    requires WithIds(es) && f.HasIds() && i <= |es| && Decodable(es) && MayFollow(es, f)
    ensures ContinuesAnchor(es + [f], i)
  {
    var fs, n := es + [f], |es|;
    if i < n {
      LastAnchorPrefix(es, f, i);
      assert ContinuesAnchor(es, i);
    } else if n > 0 {
      LastAnchorPrefix(es, f, n - 1);
      assert ContinuesAnchor(es, n - 1);
      assert IsAnchor(fs, n) <==> f.layer == Some(0);
    }
  }

  lemma {:induction false} FollowKeepsDecodable(es: seq<Frame>, f: Frame)
    requires WithIds(es) && f.HasIds() && Decodable(es) && MayFollow(es, f)
    ensures Decodable(es + [f])
  {
    FollowIncreases(es, f);
    forall i | 0 <= i < |es + [f]| ensures ContinuesAnchor(es + [f], i) {
      FollowContinues(es, f, i);
    }
  }

  /**
   Over every run the emitted frames are decodable, and the two remembered ids are all that
   is needed: a frame with both ids is emitted exactly when the emitted history allows it.
   */
  lemma {:induction false} RunIsDecodable(frames: seq<Frame>)
    ensures Decodable(Emitted(frames)) && RunState(frames) == StateOf(Emitted(frames))
    ensures frames != [] && frames[|frames| - 1].HasIds() ==>
              var n := |frames| - 1;
              (VerdictAt(frames, n).emit <==> MayFollow(Emitted(frames[..n]), frames[n]))
  {
    if frames != [] {
      var n := |frames| - 1;
      RunIsDecodable(frames[..n]);
      var es, f := Emitted(frames[..n]), frames[n];
      if f.HasIds() {
        EmitDecides(es, f);
        if MayFollow(es, f) {
          FollowKeepsDecodable(es, f);
        }
      }
    }
  }

  // ---- The filter as an object ----

  class FrameContiguityState {
    var lastPictureId: Option<Id>
    var lastTl0PictureId: Option<Id>

    // The emitted frames that carry both ids.
    ghost var emitted: seq<Frame>

    /** Two remembered ids stand for the whole history of emitted frames, and that history is decodable. */
    ghost predicate Valid()
      reads this
    {
      WithIds(emitted) && State(lastPictureId, lastTl0PictureId) == StateOf(emitted) && Decodable(emitted)
    }

    constructor ()
      ensures Valid() && emitted == []
    {
      lastPictureId, lastTl0PictureId, emitted := None, None, [];
    }

    /**
     Whether the frame can be emitted, and whether it continues what was emitted before. A frame
     with both ids is emitted exactly when the emitted history allows it; one of the base layer
     is contiguous exactly when it continues the tl0 id of the last frame others build on.
     */
    method NextFrame(f: Frame) returns (emit: bool, contiguous: bool)
      requires Valid()
      modifies this
      ensures Valid()
      ensures emit <==> !f.HasIds() || MayFollow(old(emitted), f)
      ensures emitted == old(emitted) + (if emit && f.HasIds() then [f] else [])
      ensures !contiguous ==> emit
      ensures !f.HasIds() ==> contiguous == f.contiguousSeq
      ensures emit && f.HasIds() ==>
                (contiguous <==> || old(emitted) == [] || f.layer != Some(0)
                                 || f.tl0.value == WrappingNext(AnchorTl0(old(emitted))))
    {
      if f.HasIds() {
        EmitDecides(emitted, f);
        if MayFollow(emitted, f) {
          FollowKeepsDecodable(emitted, f);
        }
      }
      emit, contiguous := Decide(f);
      if emit && f.HasIds() {
        emitted := emitted + [f];
      }
    }

    // The decision itself, and what is remembered of the frame.
    method Decide(f: Frame) returns (emit: bool, contiguous: bool)
      modifies `lastPictureId, `lastTl0PictureId
      ensures Judge(old(State(lastPictureId, lastTl0PictureId)), f)
                == (State(lastPictureId, lastTl0PictureId), Verdict(emit, contiguous))
    {
      if f.pictureId.None? || f.tl0.None? {
        return true, f.contiguousSeq;
      }
      var pictureId, tl0 := f.pictureId.value, f.tl0.value;
      if lastTl0PictureId.None? || lastPictureId.None? {
        lastTl0PictureId := Some(tl0);
        lastPictureId := Some(pictureId);
        return true, true;
      }
      var lastTl0, last := lastTl0PictureId.value, lastPictureId.value;
      if pictureId <= last {
        return false, true;
      }
      if f.layer == Some(0) {
        contiguous := tl0 == WrappingNext(lastTl0);
        lastTl0PictureId := Some(tl0);
        lastPictureId := Some(pictureId);
        return true, contiguous;
      }
      emit := tl0 == lastTl0 && pictureId == WrappingNext(last);
      if emit {
        lastPictureId := Some(pictureId);
      }
      contiguous := true;
    }
  }

  // The tl0 id of the last frame others build on.
  ghost function AnchorTl0(es: seq<Frame>): Id
    requires es != [] && WithIds(es)
  {
    es[LastAnchor(es, |es| - 1)].tl0.value
  }
}
