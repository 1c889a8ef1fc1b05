/**
 * What the redraw of the presentation writes, as pure functions of the cursor.
 *
 * Every style and class value is the literal text the page writes; the model
 * treats these strings as opaque tags and only ever compares them.
 */
module Display {
  import opened Wrappers

  /** Inline `opacity` of the visible slide and of every hidden one. */
  const Visible := "1"
  const Hidden := "0"

  /** Inline `transform` of the current slide, of a slide before it and of a slide after it. */
  const NeutralPose := "scale(1)"
  const BehindPose := "scale(0.9) translateX(-50px)"
  const AheadPose := "scale(1.1) translateX(50px)"

  /** Class names of a dot as built when the page starts: the shared base and the two variants. */
  const DotBase := "w-2 h-2 rounded-full transition-all duration-300 cursor-pointer hover:bg-cyan-600 "
  const FirstDotClass := DotBase + "bg-cyan-400 w-4"
  const OtherDotClass := DotBase + "bg-slate-600"

  /** Class names of a dot as rewritten on every redraw. */
  const CurrentDotClass := "w-4 h-2 rounded-full bg-cyan-400 transition-all duration-300 cursor-pointer"
  const PlainDotClass := "w-2 h-2 rounded-full bg-slate-600 transition-all duration-300 cursor-pointer hover:bg-cyan-600"

  /** The part of one slide element that the redraw touches: its `active` class and two inline styles. */
  datatype SlideView = SlideView(active: bool, opacity: string, transform: string)

  /** The slide at `index` as the redraw leaves it when the cursor is `cursor`. */
  function SlideAt(index: int, cursor: int): (v: SlideView)
    ensures v.active <==> index == cursor
    ensures v.opacity == Visible <==> v.active
    ensures !v.active ==> v.opacity == Hidden
    ensures v.transform == NeutralPose <==> index == cursor
    ensures v.transform == BehindPose <==> index < cursor
    ensures v.transform == AheadPose <==> index > cursor
  {
    LiteralsDiffer();
    if index == cursor then SlideView(true, Visible, NeutralPose)
    else SlideView(false, Hidden, if index < cursor then BehindPose else AheadPose)
  }

  /** All `n` slides after a redraw at `cursor`. */
  function RenderSlides(n: nat, cursor: int): (r: seq<SlideView>)
    ensures |r| == n
  {
    seq(n, i => SlideAt(i, cursor))
  }

  /** The class of dot `i` after a redraw at `cursor`. */
  function DotAt(i: int, cursor: int): (cls: string)
    ensures Highlighted(cls) <==> i == cursor
  {
    LiteralsDiffer();
    if i == cursor then CurrentDotClass else PlainDotClass
  }

  function RenderDots(n: nat, cursor: int): (r: seq<string>)
    ensures |r| == n
  {
    seq(n, i => DotAt(i, cursor))
  }

  /** The class given to dot `i` when the dots are first created. */
  function InitialDot(i: int): (cls: string)
    ensures |cls| > |DotBase| && cls[..|DotBase|] == DotBase
    ensures Highlighted(cls) <==> i == 0
  {
    LiteralsDiffer();
    DotBase + (if i == 0 then "bg-cyan-400 w-4" else "bg-slate-600")
  }

  function InitialDots(n: nat): (r: seq<string>)
    ensures |r| == n
  {
    seq(n, InitialDot)
  }

  /** A dot reads as the current one when it carries the highlighted (cyan, wide) class. */
  predicate Highlighted(cls: string)
  {
    cls == CurrentDotClass || cls == FirstDotClass
  }

  /** Indices of the slides that carry the `active` class. */
  function ActiveSlides(s: seq<SlideView>): set<int>
  {
    set i | 0 <= i < |s| && s[i].active
  }

  /** Indices of the highlighted dots. */
  function HighlightedDots(d: seq<string>): set<int>
  {
    set i | 0 <= i < |d| && Highlighted(d[i])
  }

  /** The first slide carrying `active`, if any: reading the cursor back off the page. */
  function FirstActive(s: seq<SlideView>): (r: Option<nat>)
    ensures r.Some? ==> r.value < |s| && s[r.value].active
    ensures r.Some? ==> forall j :: 0 <= j < r.value ==> !s[j].active
    ensures r.None? ==> forall j :: 0 <= j < |s| ==> !s[j].active
  {
    if |s| == 0 then None
    else if s[0].active then Some(0)
    else match FirstActive(s[1..])
      case None => None
      case Some(k) => Some(k + 1)
  }

  /** The distinct literals that the proofs below compare. */
  lemma LiteralsDiffer()
    ensures Visible != Hidden
    ensures NeutralPose != BehindPose && NeutralPose != AheadPose && BehindPose != AheadPose
    ensures CurrentDotClass != PlainDotClass && FirstDotClass != OtherDotClass
    ensures FirstDotClass != PlainDotClass && OtherDotClass != CurrentDotClass
  {
    assert Visible[0] != Hidden[0];
    assert |NeutralPose| < |AheadPose| < |BehindPose| && BehindPose[8] != AheadPose[8];
    assert |CurrentDotClass| < |PlainDotClass| == |OtherDotClass| < |FirstDotClass|;
  }

  /** A redraw leaves exactly one active slide, the one under the cursor. */
  lemma ExactlyOneActive(n: nat, cursor: int)
    requires 0 <= cursor < n
    ensures ActiveSlides(RenderSlides(n, cursor)) == {cursor}
    ensures |ActiveSlides(RenderSlides(n, cursor))| == 1
  {
    var r := RenderSlides(n, cursor);
    assert r[cursor].active;
    assert forall i :: i in ActiveSlides(r) ==> i == cursor;
  }

  /**
   * The visual pose of every slide after a redraw: the current one is opaque
   * and unscaled, every other one is transparent, shrunk to the left when it
   * lies before the cursor and enlarged to the right when it lies after it.
   */
  lemma RenderedPoses(n: nat, cursor: int, i: int)
    requires 0 <= i < n
    ensures RenderSlides(n, cursor)[i].opacity == Visible <==> RenderSlides(n, cursor)[i].active
    ensures !RenderSlides(n, cursor)[i].active ==> RenderSlides(n, cursor)[i].opacity == Hidden
    ensures RenderSlides(n, cursor)[i].transform == NeutralPose <==> i == cursor
    ensures RenderSlides(n, cursor)[i].transform == BehindPose <==> i < cursor
    ensures RenderSlides(n, cursor)[i].transform == AheadPose <==> i > cursor
  {
    LiteralsDiffer();
  }

  /** Dropping the first slide of a render shifts the cursor down by one. */
  lemma RenderTail(n: nat, cursor: int)
    requires n > 0
    ensures RenderSlides(n, cursor)[1..] == RenderSlides(n - 1, cursor - 1)
  {
  }

  /** The page encodes the cursor: reading the active slide back gives it again, and nothing when it is out of range. */
  lemma {:induction false} RenderRecoversCursor(n: nat, cursor: int)
    ensures FirstActive(RenderSlides(n, cursor)) == if 0 <= cursor < n then Some(cursor) else None
  {
    if n > 0 {
      RenderTail(n, cursor);
      RenderRecoversCursor(n - 1, cursor - 1);
    }
  }

  /** Two redraws of the same slides agree only when their cursors do. */
  lemma RenderInjective(n: nat, c1: int, c2: int)
    requires 0 <= c1 < n && 0 <= c2 < n
    requires RenderSlides(n, c1) == RenderSlides(n, c2)
    ensures c1 == c2
  {
    RenderRecoversCursor(n, c1);
    RenderRecoversCursor(n, c2);
  }

  /** After a redraw exactly one dot is highlighted, the one under the cursor. */
  lemma ExactlyOneDot(n: nat, cursor: int)
    requires 0 <= cursor < n
    ensures HighlightedDots(RenderDots(n, cursor)) == {cursor}
  {
    LiteralsDiffer();
    var d := RenderDots(n, cursor);
    assert Highlighted(d[cursor]);
    assert forall i :: i in HighlightedDots(d) ==> i == cursor;
  }

  /** Before any redraw, the freshly built dots highlight dot 0 and no other. */
  lemma InitialDotsHighlightFirst(n: nat)
    requires n > 0
    ensures HighlightedDots(InitialDots(n)) == {0}
  {
    LiteralsDiffer();
    var d := InitialDots(n);
    assert d[0] == FirstDotClass;
    assert forall i :: 0 < i < n ==> d[i] == OtherDotClass;
    assert forall i :: i in HighlightedDots(d) ==> i == 0;
  }

  /** Dots and slides agree after a redraw: dot `i` is highlighted exactly when slide `i` is active. */
  lemma DotsFollowSlides(n: nat, cursor: int, i: int)
    requires 0 <= i < n
    ensures Highlighted(RenderDots(n, cursor)[i]) <==> RenderSlides(n, cursor)[i].active
  {
    LiteralsDiffer();
  }
}
