/** Runs of the renderer in which a cell does not get the colours its frame asks for
    (packages/tui/src/render/Renderer.ts): colours that stay in a buffer, and two colour pairs
    that share a cache text. */
module ColorRuns {
  import opened Basics
  import opened Geometry
  import opened Terminals
  import opened DiffRender
  import opened Paint
  import opened Frames

  // ---- runs on a terminal whose size does not change

  function NewTerminal(width: nat, height: nat): Terminal {
    Terminal(width, height, map[], None, true, Plain, [], false)
  }

  lemma {:induction false} ReadyAgain(t: Terminal, v: View, f: Shown)
    requires WellShaped(v) && Ready(t, f.width, f.height)
    ensures Ready(ExecAll(t, FrameOutput(v, f.width, f.height, f.root)), f.width, f.height)
  {
    FrameShape(v, f.width, f.height, f.root);
    FrameEffect(t, v, f.width, f.height, f.root);
    FrameWrites(t, Frame(v, f.width, f.height, f.root).shown, Some(Compared(v, f.width, f.height)), f.width, f.height);
  }

  lemma {:induction false} FrameAtLonger(vs: seq<View>, before: seq<Terminal>, after: seq<Terminal>, fs: seq<Shown>,
          vs': seq<View>,
          before': seq<Terminal>, after': seq<Terminal>, fs': seq<Shown>, i: nat)
    requires IsRun(vs, before, after, fs) && i < |fs|
    requires vs <= vs' && before <= before' && after <= after' && fs <= fs'
    ensures FrameAt(vs', before', after', fs', i)
  {
    assert FrameAt(vs, before, after, fs, i);
  }

  lemma {:induction false} FrameAtEnd(vs: seq<View>, before: seq<Terminal>, after: seq<Terminal>, fs: seq<Shown>,
          t: Terminal, f: Shown)
    requires IsRun(vs, before, after, fs) && Ready(t, f.width, f.height) && (fs != [] ==> t == after[|fs| - 1])
    ensures var v := vs[|fs|];
            FrameAt(vs + [Frame(v, f.width, f.height, f.root)], before + [t],
                    after + [ExecAll(t, FrameOutput(v, f.width, f.height, f.root))], fs + [f], |fs|)
  {
  }

  /** One more frame of the same size, on the terminal as the frame before left it. */
  lemma {:induction false} RunLonger(vs: seq<View>, before: seq<Terminal>, after: seq<Terminal>, fs: seq<Shown>,
          t: Terminal, f: Shown)
    requires IsRun(vs, before, after, fs) && Ready(t, f.width, f.height)
    requires fs != [] ==> t == after[|fs| - 1]
    ensures var v := vs[|fs|];
            IsRun(vs + [Frame(v, f.width, f.height, f.root)], before + [t],
                  after + [ExecAll(t, FrameOutput(v, f.width, f.height, f.root))], fs + [f])
  {
    hide Frame, FrameOutput, ExecAll;
    var v := vs[|fs|];
    var vs', before', fs' := vs + [Frame(v, f.width, f.height, f.root)], before + [t], fs + [f];
    var after' := after + [ExecAll(t, FrameOutput(v, f.width, f.height, f.root))];
    forall i | 0 <= i < |fs'| ensures FrameAt(vs', before', after', fs', i) {
      if i < |fs| {
        FrameAtLonger(vs, before, after, fs, vs', before', after', fs', i);
      } else {
        FrameAtEnd(vs, before, after, fs, t, f);
      }
    }
  }

  ghost predicate AllReady(ts: seq<Terminal>, width: nat, height: nat) {
    forall i | 0 <= i < |ts| :: Ready(ts[i], width, height)
  }

  lemma {:induction false} OneMore(vs: seq<View>, before: seq<Terminal>, after: seq<Terminal>, fs: seq<Shown>, f: Shown)
    returns (vs': seq<View>, before': seq<Terminal>, after': seq<Terminal>)
    requires IsRun(vs, before, after, fs) && AllReady(after, f.width, f.height)
    ensures IsRun(vs', before', after', fs + [f]) && AllReady(after', f.width, f.height)
  {
    var n, v := |fs|, vs[|fs|];
    var t := if n == 0 then NewTerminal(f.width, f.height) else after[n - 1];
    ShapedAfter(vs, before, after, fs, n);
    ReadyAgain(t, v, f);
    RunLonger(vs, before, after, fs, t, f);
    vs', before' := vs + [Frame(v, f.width, f.height, f.root)], before + [t];
    after' := after + [ExecAll(t, FrameOutput(v, f.width, f.height, f.root))];
  }

  /** Any frames of one size make a run, on a new terminal and with nothing written in between. */
  lemma {:induction false} SteadyRun(fs: seq<Shown>, width: nat, height: nat)
    returns (vs: seq<View>, before: seq<Terminal>, after: seq<Terminal>)
    requires forall f | f in fs :: f.width == width && f.height == height
    ensures IsRun(vs, before, after, fs) && AllReady(after, width, height)
  {
    if fs == [] {
      vs, before, after := [NoView], [], [];
    } else {
      var n := |fs| - 1;
      vs, before, after := SteadyRun(fs[..n], width, height);
      vs, before, after := OneMore(vs, before, after, fs[..n], fs[n]);
      assert fs == fs[..n] + [fs[n]];
    }
  }

  // ---- colours that stay

  function OneGlyph(left: int, glyph: string, color: string, bgColor: string): Item {
    TextItem(Rect(left, 0, 1, 1), 0, false, [[Token([glyph], None, None)]], color, Some(bgColor), false)
  }

  function Box(width: int, children: seq<Item>): Item {
    BoxItem(Rect(0, 0, width, 1), 0, false, None, children)
  }

  /** A text of one glyph is one stroke of ink, in its cell. */
  lemma GlyphStrokes(left: int, width: int, glyph: string, color: string, bgColor: string)
    requires 0 <= left < width
    ensures var item, r := OneGlyph(left, glyph, color, bgColor), Rect(0, 0, width, 1);
            && Absolute(item, r, 0) == item
            && forall x | 0 <= x < width ::
                 Strokes(item, r, x, 0) == if x == left then [Ink(0, glyph, color, Some(bgColor), false)] else []
  {
    var item, r := OneGlyph(left, glyph, color, bgColor), Rect(0, 0, width, 1);
    assert Marks([Token([glyph], None, None)]) == [Mark(glyph, None, None)] + [];
    var clip := RectIntersection(item.geometry, r);
    assert r.Contains(left, 0) && item.geometry.Contains(left, 0);
  }

  /** Painting a box of one line without a border is painting its children. */
  lemma BoxPlaced(width: int, children: seq<Item>)
    requires 0 < width
    ensures Placed(Box(width, children)) == Box(width, AbsoluteAll(children, Rect(0, 0, width, 1), 0))
  {
  }

  lemma BoxStrokesAt(width: int, children: seq<Item>, x: int)
    requires 0 <= x < width
    ensures var r := Rect(0, 0, width, 1);
            Strokes(Box(width, children), r, x, 0) == ChildStrokes(children, r, r, x, 0)
  {
    assert Rect(0, 0, width, 1).Contains(x, 0);
  }

  lemma BoxStrokesOf(width: int, children: seq<Item>, x: int)
    requires 0 <= x < width
    ensures var root, r := Box(width, children), Rect(0, 0, width, 1);
            && Placed(root) == Box(width, AbsoluteAll(children, r, 0))
            && Strokes(Placed(root), Placed(root).geometry, x, 0)
               == ChildStrokes(AbsoluteAll(children, r, 0), r, r, x, 0)
  {
    BoxPlaced(width, children);
    BoxStrokesAt(width, AbsoluteAll(children, Rect(0, 0, width, 1), 0), x);
  }

  /** A tree that paints one text into the first cell, or nothing there. */
  ghost predicate PaintsFirst(root: Item, ss: seq<Stroke>) {
    Proper(root) && Strokes(Placed(root), Placed(root).geometry, 0, 0) == ss
  }

  function OneInk(glyph: string, color: string, bgColor: string): seq<Stroke> {
    [Ink(0, glyph, color, Some(bgColor), false)]
  }

  /** A box with one child that is painted where it stands. */
  lemma OneChild(child: Item, x: int)
    requires 0 <= x < 2 && Absolute(child, Rect(0, 0, 2, 1), 0) == child && !child.canRenderOnBorder
    ensures Strokes(Placed(Box(2, [child])), Placed(Box(2, [child])).geometry, x, 0)
         == Strokes(child, Rect(0, 0, 2, 1), x, 0)
  {
    var r := Rect(0, 0, 2, 1);
    BoxStrokesOf(2, [child], x);
    assert [child][1..] == [];
    assert AbsoluteAll([child], r, 0) == [child] + [];
    assert ChildStrokes([child], r, r, x, 0) == Strokes(child, r, x, 0) + [];
  }

  lemma ColoredPaints(glyph: string, color: string, bgColor: string)
    requires glyph != ""
    ensures PaintsFirst(Box(2, [OneGlyph(0, glyph, color, bgColor)]), OneInk(glyph, color, bgColor))
  {
    var child := OneGlyph(0, glyph, color, bgColor);
    GlyphStrokes(0, 2, glyph, color, bgColor);
    OneChild(child, 0);
    assert Proper(child);
  }

  lemma EmptyPaints()
    ensures PaintsFirst(Box(2, []), [])
  {
    BoxStrokesOf(2, [], 0);
  }

  lemma DrawOne(c: Cell, s: Stroke)
    ensures DrawAll(c, [s]) == Draw(c, s)
  {
    assert [s][1..] == [];
  }

  /** Of two cells in one row only the first is ever written. */
  lemma OneCellIsFaithful(g: Grid, last: Option<Grid>)
    requires Shaped(g, 2, 1)
    ensures Faithful(JobsFrom(g, last, 0))
  {
    JobsExactly(g, last, 0);
    forall a, b | a in JobsFrom(g, last, 0) && b in JobsFrom(g, last, 0) ensures a.ch == b.ch {
      assert a.x == b.x == 0 && a.y == b.y == 0;
    }
  }

  lemma OneCellFrame(v: View, root: Item)
    requires WellShaped(v) && Proper(root)
    ensures Fine(v, Shown(2, 1, root))
  {
    FrameShape(v, 2, 1, root);
    OneCellIsFaithful(Frame(v, 2, 1, root).shown, Some(Compared(v, 2, 1)));
  }

  function Small(root: Item): Shown { Shown(2, 1, root) }

  /** A frame with a text, and twice the same frame without one. */
  function History(colored: Item, empty: Item): seq<Shown> { [Small(colored), Small(empty), Small(empty)] }

  /** The first cell of the buffer after the third frame: blank, in the colours of the first. */
  lemma StaleCell(vs: seq<View>, before: seq<Terminal>, after: seq<Terminal>, colored: Item, empty: Item,
                  glyph: string, color: string, bgColor: string)
    requires IsRun(vs, before, after, History(colored, empty))
    requires PaintsFirst(colored, OneInk(glyph, color, bgColor)) && PaintsFirst(empty, [])
    ensures Shaped(vs[3].shown, 2, 1) && vs[3].shown[0][0] == Cell(" ", color, Some(bgColor), false, MIN_SAFE_INTEGER)
  {
    assert FrameAt(vs, before, after, History(colored, empty), 0);
    assert FrameAt(vs, before, after, History(colored, empty), 1);
    assert vs[1].shown == Painted(Blank(2, 1), colored);
    TwoFramesBefore(vs, before, after, History(colored, empty), 2);
    MapGridCells(Blank(2, 1), Painting(colored), 2, 1);
    MapGridCells(vs[1].shown, Painting(empty), 2, 1);
    DrawOne(Cleared(BlankCell, " "), Ink(0, glyph, color, Some(bgColor), false));
  }

  lemma SmallAreFine(vs: seq<View>, before: seq<Terminal>, after: seq<Terminal>, fs: seq<Shown>)
    requires IsRun(vs, before, after, fs) && forall k | 0 <= k < |fs| ::
               fs[k] == Small(fs[k].root) && Proper(fs[k].root)
    ensures forall k | 0 <= k < |fs| :: Fine(vs[k], fs[k])
  {
    forall k | 0 <= k < |fs| ensures Fine(vs[k], fs[k]) {
      ShapedAfter(vs, before, after, fs, k);
      OneCellFrame(vs[k], fs[k].root);
    }
  }

  /** Small frames show the first cell of their buffer. */
  lemma FirstShown(vs: seq<View>, before: seq<Terminal>, after: seq<Terminal>, fs: seq<Shown>, i: nat)
    requires IsRun(vs, before, after, fs) && i < |fs| && Shaped(vs[i + 1].shown, 2, 1)
    requires forall k | 0 <= k < |fs| :: fs[k] == Small(fs[k].root) && Proper(fs[k].root)
    ensures (0, 0) in after[i].screen
    ensures after[i].screen[(0, 0)] == Glyph(vs[i + 1].shown[0][0].value, StyleOf(vs[i + 1].shown[0][0]))
  {
    SmallAreFine(vs, before, after, fs);
    RunShows(vs, before, after, fs, i);
    assert ShowsAt(after[i], vs[i + 1].shown, 0, 0);
  }

  lemma NewCell(vs: seq<View>, before: seq<Terminal>, after: seq<Terminal>, empty: Item)
    requires IsRun(vs, before, after, [Small(empty)]) && PaintsFirst(empty, [])
    ensures Shaped(vs[1].shown, 2, 1) && vs[1].shown[0][0] == BlankCell
  {
    assert FrameAt(vs, before, after, [Small(empty)], 0);
    MapGridCells(Blank(2, 1), Painting(empty), 2, 1);
  }

  lemma StaleShown(vs: seq<View>, before: seq<Terminal>, after: seq<Terminal>, colored: Item, empty: Item,
                   glyph: string, color: string, bgColor: string)
    requires IsRun(vs, before, after, History(colored, empty)) && bgColor != ""
    requires PaintsFirst(colored, OneInk(glyph, color, bgColor)) && PaintsFirst(empty, [])
    ensures (0, 0) in after[2].screen && after[2].screen[(0, 0)] == Glyph(" ", Style(None, Some(bgColor), false))
  {
    StaleCell(vs, before, after, colored, empty, glyph, color, bgColor);
    FirstShown(vs, before, after, History(colored, empty), 2);
  }

  lemma NewShown(vs: seq<View>, before: seq<Terminal>, after: seq<Terminal>, empty: Item)
    requires IsRun(vs, before, after, [Small(empty)]) && PaintsFirst(empty, [])
    ensures (0, 0) in after[0].screen && after[0].screen[(0, 0)] == Glyph(" ", Style(Some("#ffffff"), None, false))
  {
    NewCell(vs, before, after, empty);
    FirstShown(vs, before, after, [Small(empty)], 0);
  }

  lemma HistoryShows(colored: Item, empty: Item, glyph: string, color: string, bgColor: string)
    returns (vs: seq<View>, before: seq<Terminal>, after: seq<Terminal>,
             newVs: seq<View>, newBefore: seq<Terminal>, newAfter: seq<Terminal>)
    requires bgColor != "" && PaintsFirst(colored, OneInk(glyph, color, bgColor)) && PaintsFirst(empty, [])
    ensures IsRun(vs, before, after, History(colored, empty)) && IsRun(newVs, newBefore, newAfter, [Small(empty)])
    ensures (0, 0) in after[2].screen && after[2].screen[(0, 0)] == Glyph(" ", Style(None, Some(bgColor), false))
    ensures (0, 0) in newAfter[0].screen
            && newAfter[0].screen[(0, 0)] == Glyph(" ", Style(Some("#ffffff"), None, false))
  {
    vs, before, after := SteadyRun(History(colored, empty), 2, 1);
    StaleShown(vs, before, after, colored, empty, glyph, color, bgColor);
    newVs, newBefore, newAfter := SteadyRun([Small(empty)], 2, 1);
    NewShown(newVs, newBefore, newAfter, empty);
  }

  /** An empty frame, the same as the one before, still shows the background of a text that stood there
      the frame before that; the same frame of a new renderer shows a plain blank. */
  lemma StaleColorsShow(colored: Item, empty: Item, glyph: string, color: string, bgColor: string)
    returns (vs: seq<View>, before: seq<Terminal>, after: seq<Terminal>,
             newVs: seq<View>, newBefore: seq<Terminal>, newAfter: seq<Terminal>)
    requires glyph != "" && bgColor != ""
    requires colored == Box(2, [OneGlyph(0, glyph, color, bgColor)]) && empty == Box(2, [])
    ensures IsRun(vs, before, after, History(colored, empty)) && IsRun(newVs, newBefore, newAfter, [Small(empty)])
    ensures (0, 0) in after[2].screen && after[2].screen[(0, 0)] == Glyph(" ", Style(None, Some(bgColor), false))
    ensures (0, 0) in newAfter[0].screen
            && newAfter[0].screen[(0, 0)] == Glyph(" ", Style(Some("#ffffff"), None, false))
  {
    ColoredPaints(glyph, color, bgColor);
    EmptyPaints();
    vs, before, after, newVs, newBefore, newAfter := HistoryShows(colored, empty, glyph, color, bgColor);
  }

  // ---- two styles under one cache text

  /** A box with two children that are painted where they stand. */
  lemma TwoChildren(a: Item, b: Item, x: int)
    requires 0 <= x < 3 && !a.canRenderOnBorder && !b.canRenderOnBorder
    requires Absolute(a, Rect(0, 0, 3, 1), 0) == a && Absolute(b, Rect(0, 0, 3, 1), 0) == b
    ensures var root, r := Box(3, [a, b]), Rect(0, 0, 3, 1);
            Strokes(Placed(root), Placed(root).geometry, x, 0) == Strokes(a, r, x, 0) + Strokes(b, r, x, 0)
  {
    var r := Rect(0, 0, 3, 1);
    BoxStrokesOf(3, [a, b], x);
    assert [a, b][1..] == [b] && [b][1..] == [];
    assert AbsoluteAll([b], r, 0) == [b] + [];
    assert AbsoluteAll([a, b], r, 0) == [a] + [b] == [a, b];
    assert ChildStrokes([b], r, r, x, 0) == Strokes(b, r, x, 0) + [];
    assert ChildStrokes([a, b], r, r, x, 0) == Strokes(a, r, x, 0) + Strokes(b, r, x, 0);
  }

  function Inked(value: string, color: string, bgColor: string): Cell { Cell(value, color, Some(bgColor), false, 0) }

  /** A tree that paints two cells of a line. */
  ghost predicate PaintsTwo(root: Item, a: Cell, b: Cell) {
    Proper(root) && Painting(root)(0, 0, BlankCell) == a && Painting(root)(1, 0, BlankCell) == b
  }

  lemma InkPaints(root: Item, x: int, glyph: string, color: string, bgColor: string)
    requires Strokes(Placed(root), Placed(root).geometry, x, 0) == OneInk(glyph, color, bgColor)
    ensures Painting(root)(x, 0, BlankCell) == Inked(glyph, color, bgColor)
  {
    DrawOne(Cleared(BlankCell, " "), Ink(0, glyph, color, Some(bgColor), false));
  }

  lemma TwoGlyphStrokes(a: Item, b: Item, colors: seq<string>)
    requires |colors| == 4
    requires a == OneGlyph(0, "a", colors[0], colors[1]) && b == OneGlyph(1, "b", colors[2], colors[3])
    ensures var root := Box(3, [a, b]);
            && Strokes(Placed(root), Placed(root).geometry, 0, 0) == OneInk("a", colors[0], colors[1])
            && Strokes(Placed(root), Placed(root).geometry, 1, 0) == OneInk("b", colors[2], colors[3])
  {
    GlyphStrokes(0, 3, "a", colors[0], colors[1]);
    GlyphStrokes(1, 3, "b", colors[2], colors[3]);
    TwoChildren(a, b, 0);
    TwoChildren(a, b, 1);
  }

  lemma TwoGlyphsPaint(a: Item, b: Item, root: Item, colors: seq<string>)
    requires |colors| == 4 && root == Box(3, [a, b])
    requires a == OneGlyph(0, "a", colors[0], colors[1]) && b == OneGlyph(1, "b", colors[2], colors[3])
    ensures PaintsTwo(root, Inked("a", colors[0], colors[1]), Inked("b", colors[2], colors[3]))
  {
    TwoGlyphStrokes(a, b, colors);
    InkPaints(root, 0, "a", colors[0], colors[1]);
    InkPaints(root, 1, "b", colors[2], colors[3]);
    TwoProper(a, b);
  }

  lemma TwoProper(a: Item, b: Item)
    requires Proper(a) && Proper(b)
    ensures Proper(Box(3, [a, b]))
  {
  }

  lemma TwoJobs(g: Grid)
    requires Shaped(g, 3, 1)
    ensures JobsFrom(g, None, 0) == [Job(0, 0, g[0][0])] + [Job(1, 0, g[0][1])]
  {
    assert RowJobs(g, None, 0, 2) == [];
    assert RowJobs(g, None, 0, 1) == [Job(1, 0, g[0][1])] + [];
    assert JobsFrom(g, None, 1) == [];
  }

  lemma SharedCache(a: Job, b: Job)
    requires ColorKey(a.ch) == ColorKey(b.ch)
    ensures FinalCache(map[], [a] + [b]) == map[ColorKey(a.ch) := StyleOf(a.ch)]
  {
    var c := Cached(map[], a.ch);
    assert ([a] + [b])[1..] == [b] && [b][1..] == [];
    assert FinalCache(c, [b]) == FinalCache(Cached(c, b.ch), []);
  }

  lemma SharedShown(vs: seq<View>, before: seq<Terminal>, after: seq<Terminal>, root: Item, a: Cell, b: Cell)
    requires ColorKey(a) == ColorKey(b) && StyleOf(a) != StyleOf(b) && PaintsTwo(root, a, b)
    requires IsRun(vs, before, after, [Shown(3, 1, root)])
    ensures (1, 0) in after[0].screen && after[0].screen[(1, 0)] == Glyph(b.value, StyleOf(a))
    ensures Shaped(vs[1].shown, 3, 1) && vs[1].shown[0][1] == b && !Shows(after[0], vs[1].shown)
  {
    var fs := [Shown(3, 1, root)];
    assert FrameAt(vs, before, after, fs, 0);
    var g, js := vs[1].shown, FrameJobs(NoView, 3, 1, root);
    MapGridCells(Blank(3, 1), Painting(root), 3, 1);
    ResizeRedraws(NoView, 3, 1, root);
    TwoJobs(g);
    SharedCache(Job(0, 0, a), Job(1, 0, b));
    JobsInRange(g, None, 3, 1);
    JobShown(before[0], js, g, None, Job(1, 0, b));
    FrameEffect(before[0], NoView, 3, 1, root);
    assert !ShowsAt(after[0], g, 1, 0);
  }

  /** The first frame of a renderer, on a terminal of three columns, with two texts whose colours make
      one cache text: the second is shown on the background of the first, and not on its own. */
  lemma SharedTextShowsWrong(vs: seq<View>, before: seq<Terminal>, after: seq<Terminal>, root: Item,
          colors: seq<string>)
    requires |colors| == 4 && colors[0] + colors[1] == colors[2] + colors[3]
    requires colors[1] != colors[3] && colors[1] != "" && colors[3] != ""
    requires root == Box(3, [OneGlyph(0, "a", colors[0], colors[1]), OneGlyph(1, "b", colors[2], colors[3])])
    requires IsRun(vs, before, after, [Shown(3, 1, root)])
    ensures (1, 0) in after[0].screen && after[0].screen[(1, 0)] == Glyph("b", Style(None, Some(colors[1]), false))
    ensures Shaped(vs[1].shown, 3, 1) && vs[1].shown[0][1] == Inked("b", colors[2], colors[3])
    ensures !Shows(after[0], vs[1].shown)
  {
    TwoGlyphsPaint(root.children[0], root.children[1], root, colors);
    SharedShown(vs, before, after, root, Inked("a", colors[0], colors[1]), Inked("b", colors[2], colors[3]));
  }

  /** Such colours there are: "yellowgreen" on "yellow", and "yellow" on "greenyellow". */
  lemma WrongColorsShow() returns (root: Item, vs: seq<View>, before: seq<Terminal>, after: seq<Terminal>)
    ensures root == Box(3, [OneGlyph(0, "a", "yellowgreen", "yellow"), OneGlyph(1, "b", "yellow", "greenyellow")])
    ensures IsRun(vs, before, after, [Shown(3, 1, root)]) && !Shows(after[0], vs[1].shown)
    ensures (1, 0) in after[0].screen && after[0].screen[(1, 0)] == Glyph("b", Style(None, Some("yellow"), false))
  {
    root := Box(3, [OneGlyph(0, "a", "yellowgreen", "yellow"), OneGlyph(1, "b", "yellow", "greenyellow")]);
    vs, before, after := SteadyRun([Shown(3, 1, root)], 3, 1);
    assert "yellowgreen" + "yellow" == "yellow" + "greenyellow";
    SharedTextShowsWrong(vs, before, after, root, ["yellowgreen", "yellow", "yellow", "greenyellow"]);
  }
}
