/** Runs of frames: double buffering, resizes, and what the terminal shows after each frame
    (packages/tui/src/render/Renderer.ts). */
module Frames {
  import opened Basics
  import opened Terminals
  import opened DiffRender
  import opened Paint

  /** The renderer between two frames: the buffer that is painted next, and the one shown last. */
  datatype View = View(width: nat, height: nat, next: Grid, shown: Grid)

  const NoView := View(0, 0, [], [])

  predicate Resized(v: View, width: nat, height: nat) {
    width != v.width || height != v.height
  }

  /** What the painted buffer is compared with: after a resize, one that shows nothing. */
  function Compared(v: View, width: nat, height: nat): Grid {
    if Resized(v, width, height) then Wiped(Blank(width, height)) else v.shown
  }

  /** The buffers change places. */
  function Frame(v: View, width: nat, height: nat, root: Item): View {
    View(width, height, Compared(v, width, height),
         Painted(if Resized(v, width, height) then Blank(width, height) else v.next, root))
  }

  function FrameJobs(v: View, width: nat, height: nat, root: Item): seq<Job> {
    JobsFrom(Frame(v, width, height, root).shown, Some(Compared(v, width, height)), 0)
  }

  /** The cursor follows the first cursor item, or is hidden when there is none. */
  function CursorOutput(root: Item): seq<Command> {
    match FindCursor(Placed(root))
    case None => [HideCursor]
    case Some(c) => [ShowCursor, CursorTo(c.geometry.left, c.geometry.top)]
  }

  /** What is written for a painted buffer over the last one. */
  function Written(g: Grid, last: Grid, root: Item): seq<Command> {
    Output(JobsFrom(g, Some(last), 0)) + CursorOutput(root)
  }

  function FrameOutput(v: View, width: nat, height: nat, root: Item): seq<Command> {
    Written(Frame(v, width, height, root).shown, Compared(v, width, height), root)
  }

  /** What a frame leaves as the output of its cells left it. */
  ghost predicate SameCells(a: Terminal, b: Terminal) {
    a.screen == b.screen && a.written == b.written && a.style == b.style && a.lost == b.lost
    && a.width == b.width && a.height == b.height
  }

  predicate OnTerminal(t: Terminal, x: int, y: int) { 0 <= x < t.width && 0 <= y < t.height }

  ghost predicate CursorFollows(t: Terminal, root: Item) {
    var c := FindCursor(Placed(root));
    && t.cursorShown == c.Some?
    && (c.Some? ==> var r := c.value.geometry;
                    t.cursor == if OnTerminal(t, r.left, r.top) then Some((r.left, r.top)) else None)
  }

  lemma CursorEffect(t: Terminal, root: Item)
    ensures SameCells(t, ExecAll(t, CursorOutput(root))) && CursorFollows(ExecAll(t, CursorOutput(root)), root)
  {
    var c := FindCursor(Placed(root));
    if c.Some? {
      var to := CursorTo(c.value.geometry.left, c.value.geometry.top);
      assert [ShowCursor, to] == [ShowCursor] + [to];
      ExecConcat(t, [ShowCursor], [to]);
    }
  }

  lemma FrameEffect(t: Terminal, v: View, width: nat, height: nat, root: Item)
    ensures var a, b := ExecAll(t, Output(FrameJobs(v, width, height, root))),
                ExecAll(t, FrameOutput(v, width, height, root));
            SameCells(a, b) && CursorFollows(b, root) && forall g: Grid :: Shows(a, g) <==> Shows(b, g)
  {
    var a, b := ExecAll(t, Output(FrameJobs(v, width, height, root))), ExecAll(t, FrameOutput(v, width, height, root));
    ExecConcat(t, Output(FrameJobs(v, width, height, root)), CursorOutput(root));
    CursorEffect(a, root);
    forall g: Grid ensures Shows(a, g) <==> Shows(b, g) {
      if Shows(a, g) {
        SameScreenShows(a, b, g);
      } else if Shows(b, g) {
        SameScreenShows(b, a, g);
      }
    }
  }

  lemma SameScreenShows(a: Terminal, b: Terminal, g: Grid)
    requires a.screen == b.screen && Shows(a, g)
    ensures Shows(b, g)
  {
    forall x: nat, y: nat | y < |g| && x < |g[y]| && !LastCell(g, x, y) ensures ShowsAt(b, g, x, y) {
      assert ShowsAt(a, g, x, y);
    }
  }

  // ---- after a resize every cell is written

  /** Every glyph of every text is there: no mark is the empty string. */
  predicate Proper(item: Item)
    decreases item
  {
    match item
    case TextItem(_, _, _, lines, _, _, _) => forall l | l in lines :: forall t | t in l :: "" !in t.glyphs
    case CursorItem(_, _, _) => true
    case BoxItem(_, _, _, _, children) => forall i | 0 <= i < |children| :: Proper(children[i])
  }

  lemma {:induction false} AbsoluteProper(item: Item, container: Geometry.Rect, z: int)
    requires Proper(item)
    ensures Proper(Absolute(item, container, z))
    decreases item
  {
    if item.BoxItem? {
      var me := Absolute(item, container, z);
      AllProper(item.children, me.geometry, me.zIndex);
    }
  }

  lemma {:induction false} AllProper(items: seq<Item>, container: Geometry.Rect, z: int)
    requires forall i | 0 <= i < |items| :: Proper(items[i])
    ensures forall i | 0 <= i < |AbsoluteAll(items, container, z)| :: Proper(AbsoluteAll(items, container, z)[i])
    decreases items
  {
    if items != [] {
      AbsoluteProper(items[0], container, z);
      AllProper(items[1..], container, z);
    }
  }

  lemma {:induction false} MarksNotEmpty(tokens: seq<Token>, k: nat)
    requires k < |Marks(tokens)| && forall t | t in tokens :: "" !in t.glyphs
    ensures Marks(tokens)[k].value != ""
  {
    var n := |tokens[0].glyphs|;
    if k < n {
      assert tokens[0] in tokens && tokens[0].glyphs[k] in tokens[0].glyphs;
    } else {
      MarksNotEmpty(tokens[1..], k - n);
    }
  }

  ghost predicate Solid(ss: seq<Stroke>) {
    forall s | s in ss :: s.value != ""
  }

  lemma {:induction false} StrokesSolid(item: Item, container: Geometry.Rect, x: int, y: int)
    requires Proper(item)
    ensures Solid(Strokes(item, container, x, y))
    decreases item
  {
    var r := Geometry.RectIntersection(item.geometry, container);
    if r.Some? {
      if item.TextItem? {
        if HasMark(item, x, y) {
          assert item.lines[y - item.geometry.top] in item.lines;
          MarksNotEmpty(item.lines[y - item.geometry.top], x - item.geometry.left);
        }
      } else if item.BoxItem? {
        ChildrenSolid(item.children, r.value, Inside(item, r.value), x, y);
      }
    }
  }

  lemma {:induction false} ChildrenSolid(items: seq<Item>, clip: Geometry.Rect, inside: Geometry.Rect, x: int, y: int)
    requires forall i | 0 <= i < |items| :: Proper(items[i])
    ensures Solid(ChildStrokes(items, clip, inside, x, y))
    decreases items
  {
    if items != [] {
      StrokesSolid(items[0], if items[0].canRenderOnBorder then clip else inside, x, y);
      ChildrenSolid(items[1..], clip, inside, x, y);
    }
  }

  lemma {:induction false} DrawnNotEmpty(c: Cell, ss: seq<Stroke>)
    requires c.value != "" && Solid(ss)
    ensures DrawAll(c, ss).value != ""
    decreases |ss|
  {
    if ss != [] {
      assert ss[0] in ss && forall s | s in ss[1..] :: s in ss;
      DrawnNotEmpty(Draw(c, ss[0]), ss[1..]);
    }
  }

  ghost predicate ChangedAlike(g: Grid, a: Option<Grid>, b: Option<Grid>, x: nat, y: nat)
    requires y < |g| && x < |g[y]|
  {
    Changed(g, a, x, y) == Changed(g, b, x, y)
  }

  ghost predicate RowAlike(g: Grid, a: Option<Grid>, b: Option<Grid>, y: nat)
    requires y < |g|
  {
    forall x: nat | x < |g[y]| :: ChangedAlike(g, a, b, x, y)
  }

  lemma {:induction false} RowJobsAlike(g: Grid, a: Option<Grid>, b: Option<Grid>, y: nat, x: nat)
    requires y < |g| && x <= |g[y]| && RowAlike(g, a, b, y)
    ensures RowJobs(g, a, y, x) == RowJobs(g, b, y, x)
    decreases |g[y]| - x
  {
    if x < |g[y]| && !LastCell(g, x, y) {
      assert ChangedAlike(g, a, b, x, y);
      RowJobsAlike(g, a, b, y, x + 1);
    }
  }

  lemma {:induction false} JobsAlike(g: Grid, a: Option<Grid>, b: Option<Grid>, y: nat)
    requires y <= |g| && forall v: nat | v < |g| :: RowAlike(g, a, b, v)
    ensures JobsFrom(g, a, y) == JobsFrom(g, b, y)
    decreases |g| - y
  {
    if y < |g| {
      RowJobsAlike(g, a, b, y, 0);
      JobsAlike(g, a, b, y + 1);
      assert JobsFrom(g, a, y) == RowJobs(g, a, y, 0) + JobsFrom(g, a, y + 1);
      assert JobsFrom(g, b, y) == RowJobs(g, b, y, 0) + JobsFrom(g, b, y + 1);
    }
  }

  /** Nothing painted equals a wiped cell, so after a resize every cell is rendered. */
  lemma ResizeRedraws(v: View, width: nat, height: nat, root: Item)
    requires Resized(v, width, height) && Proper(root)
    ensures FrameJobs(v, width, height, root) == JobsFrom(Frame(v, width, height, root).shown, None, 0)
  {
    var g, last := Frame(v, width, height, root).shown, Compared(v, width, height);
    MapGridCells(Blank(width, height), Painting(root), width, height);
    MapGridCells(Blank(width, height), Wiping(""), width, height);
    AbsoluteProper(root, root.geometry, 0);
    forall y: nat | y < |g| ensures RowAlike(g, Some(last), None, y) {
      forall x: nat | x < |g[y]| ensures ChangedAlike(g, Some(last), None, x, y) {
        StrokesSolid(Placed(root), Placed(root).geometry, x, y);
        DrawnNotEmpty(Cleared(BlankCell, " "), Strokes(Placed(root), Placed(root).geometry, x, y));
      }
    }
    JobsAlike(g, Some(last), None, 0);
  }

  // ---- runs

  datatype Shown = Shown(width: nat, height: nat, root: Item)

  /** Frame `i` of a run: `before[i]` and `after[i]` are the terminal before and after it. Between two
      frames the cursor may move; a resize may leave anything on the screen. */
  ghost predicate FrameAt(vs: seq<View>, before: seq<Terminal>, after: seq<Terminal>, fs: seq<Shown>, i: nat) {
    && i < |fs| && i + 1 < |vs| && i < |before| && i < |after|
    && vs[i + 1] == Frame(vs[i], fs[i].width, fs[i].height, fs[i].root)
    && Ready(before[i], fs[i].width, fs[i].height)
    && (i > 0 && !Resized(vs[i], fs[i].width, fs[i].height) ==> before[i].screen == after[i - 1].screen)
    && after[i] == ExecAll(before[i], FrameOutput(vs[i], fs[i].width, fs[i].height, fs[i].root))
  }

  ghost predicate IsRun(vs: seq<View>, before: seq<Terminal>, after: seq<Terminal>, fs: seq<Shown>) {
    && |vs| == |fs| + 1 && |before| == |after| == |fs| && vs[0] == NoView
    && forall i | 0 <= i < |fs| :: FrameAt(vs, before, after, fs, i)
  }

  ghost predicate WellShaped(v: View) {
    Shaped(v.next, v.width, v.height) && Shaped(v.shown, v.width, v.height)
  }

  lemma FrameShape(v: View, width: nat, height: nat, root: Item)
    requires WellShaped(v)
    ensures WellShaped(Frame(v, width, height, root)) && Shaped(Compared(v, width, height), width, height)
  {
    MapGridCells(Blank(width, height), Wiping(""), width, height);
    MapGridCells(if Resized(v, width, height) then Blank(width, height) else v.next, Painting(root), width, height);
  }

  /** The frame renders correctly: no empty mark, and no two styles under one cache text. */
  ghost predicate Fine(v: View, f: Shown) {
    Proper(f.root) && Faithful(FrameJobs(v, f.width, f.height, f.root))
  }

  lemma {:induction false} ShapedAfter(vs: seq<View>, before: seq<Terminal>, after: seq<Terminal>, fs: seq<Shown>,
          i: nat)
    requires IsRun(vs, before, after, fs) && i <= |fs|
    ensures WellShaped(vs[i])
  {
    if i > 0 {
      ShapedAfter(vs, before, after, fs, i - 1);
      assert FrameAt(vs, before, after, fs, i - 1);
      FrameShape(vs[i - 1], fs[i - 1].width, fs[i - 1].height, fs[i - 1].root);
    }
  }

  lemma ScreenKept(vs: seq<View>, before: seq<Terminal>, after: seq<Terminal>, fs: seq<Shown>, i: nat)
    requires IsRun(vs, before, after, fs) && 0 < i < |fs| && !Resized(vs[i], fs[i].width, fs[i].height)
    ensures before[i].screen == after[i - 1].screen
  {
    assert FrameAt(vs, before, after, fs, i);
  }

  /** Differential rendering refines a full redraw over whole runs: after any sequence of frames and
      resizes the terminal shows the value and the style of the last painted buffer in every cell but
      the bottom right one. */
  lemma {:induction false} RunShows(vs: seq<View>, before: seq<Terminal>, after: seq<Terminal>, fs: seq<Shown>, i: nat)
    requires IsRun(vs, before, after, fs) && i < |fs|
    requires forall k | 0 <= k <= i :: Fine(vs[k], fs[k])
    ensures Shows(after[i], vs[i + 1].shown)
    decreases i
  {
    var v, f := vs[i], fs[i];
    assert FrameAt(vs, before, after, fs, i) && Fine(v, f);
    ShapedAfter(vs, before, after, fs, i);
    FrameShape(v, f.width, f.height, f.root);
    FrameEffect(before[i], v, f.width, f.height, f.root);
    if Resized(v, f.width, f.height) {
      ResizeRedraws(v, f.width, f.height, f.root);
      FaithfulShows(before[i], vs[i + 1].shown, None, f.width, f.height);
    } else {
      ShownBefore(vs, before, after, fs, i);
      FaithfulShows(before[i], vs[i + 1].shown, Some(v.shown), f.width, f.height);
    }
  }

  lemma {:induction false} ShownBefore(vs: seq<View>, before: seq<Terminal>, after: seq<Terminal>, fs: seq<Shown>,
          i: nat)
    requires IsRun(vs, before, after, fs) && i < |fs| && !Resized(vs[i], fs[i].width, fs[i].height)
    requires forall k | 0 <= k < i :: Fine(vs[k], fs[k])
    ensures Shows(before[i], vs[i].shown)
    decreases i, 0
  {
    if i > 0 {
      ScreenKept(vs, before, after, fs, i);
      RunShows(vs, before, after, fs, i - 1);
      SameScreenShows(after[i - 1], before[i], vs[i].shown);
    }
  }

  /** And it is lost exactly where two styles meet under one cache text: a frame that follows fine
      ones, resized or not, shows its buffer if and only if it is faithful. */
  lemma RunShowsExactly(vs: seq<View>, before: seq<Terminal>, after: seq<Terminal>, fs: seq<Shown>, i: nat)
    requires IsRun(vs, before, after, fs) && i < |fs| && Proper(fs[i].root)
    requires forall k | 0 <= k < i :: Fine(vs[k], fs[k])
    ensures Shows(after[i], vs[i + 1].shown) <==> Faithful(FrameJobs(vs[i], fs[i].width, fs[i].height, fs[i].root))
  {
    var v, f := vs[i], fs[i];
    assert FrameAt(vs, before, after, fs, i);
    ShapedAfter(vs, before, after, fs, i);
    FrameShape(v, f.width, f.height, f.root);
    FrameEffect(before[i], v, f.width, f.height, f.root);
    if Resized(v, f.width, f.height) {
      ResizeRedraws(v, f.width, f.height, f.root);
      FrameShowsExactly(before[i], vs[i + 1].shown, None, f.width, f.height);
    } else {
      ShownBefore(vs, before, after, fs, i);
      FrameShowsExactly(before[i], vs[i + 1].shown, Some(v.shown), f.width, f.height);
    }
  }

  /** Each frame of a run writes exactly the cells that differ from the buffer shown before, or after
      a resize from nothing, each once; whether the styles are right or not. */
  lemma RunWrites(vs: seq<View>, before: seq<Terminal>, after: seq<Terminal>, fs: seq<Shown>, i: nat)
    requires IsRun(vs, before, after, fs) && i < |fs|
    ensures var js := FrameJobs(vs[i], fs[i].width, fs[i].height, fs[i].root);
            && after[i].written == before[i].written + Positions(js)
            && (forall a, b | 0 <= a < b < |js| :: Positions(js)[a] != Positions(js)[b])
            && forall x: nat, y: nat :: (x, y) in Positions(js) <==>
                 IsJob(vs[i + 1].shown, Some(Compared(vs[i], fs[i].width, fs[i].height)), x, y)
  {
    var v, f := vs[i], fs[i];
    assert FrameAt(vs, before, after, fs, i);
    ShapedAfter(vs, before, after, fs, i);
    FrameShape(v, f.width, f.height, f.root);
    FrameEffect(before[i], v, f.width, f.height, f.root);
    FrameWrites(before[i], vs[i + 1].shown, Some(Compared(v, f.width, f.height)), f.width, f.height);
  }

  /** Where the cursor item that is found is in the tree, and where it stands. */
  lemma CursorFound(root: Item) returns (path: Option<seq<nat>>)
    ensures path.Some? <==> FindCursor(Placed(root)).Some?
    ensures path.None? ==> forall p: seq<nat> :: !CursorAt(root, p)
    ensures path.Some? ==> CursorAt(root, path.value)
    ensures path.Some? ==> forall p: seq<nat> | CursorAt(root, p) :: NotAfter(path.value, p)
    ensures path.Some? ==> var r := FindCursor(Placed(root)).value.geometry;
                           && r.left == root.geometry.left + LeftAlong(root, path.value)
                           && r.top == root.geometry.top + TopAlong(root, path.value)
  {
    if FindCursor(Placed(root)).Some? {
      var p := CursorPath(Placed(root));
      path := Some(p);
      AbsoluteKinds(root, root.geometry, 0, p);
      AbsoluteSums(root, root.geometry, 0, p);
      forall q: seq<nat> | CursorAt(root, q) ensures NotAfter(p, q) {
        AbsoluteKinds(root, root.geometry, 0, q);
      }
    } else {
      path := None;
      forall q: seq<nat> ensures !CursorAt(root, q) {
        NoCursor(Placed(root), q);
        AbsoluteKinds(root, root.geometry, 0, q);
      }
    }
  }

  /** After each frame of a run the cursor is shown exactly if the tree has a cursor item, and stands
      where the first one is in the order of the tree: at the sum of the offsets on the way to it. */
  lemma RunCursor(vs: seq<View>, before: seq<Terminal>, after: seq<Terminal>, fs: seq<Shown>, i: nat)
    returns (path: Option<seq<nat>>)
    requires IsRun(vs, before, after, fs) && i < |fs|
    ensures after[i].cursorShown == path.Some?
    ensures path.None? ==> forall p: seq<nat> :: !CursorAt(fs[i].root, p)
    ensures path.Some? ==> CursorAt(fs[i].root, path.value)
    ensures path.Some? ==> forall p: seq<nat> | CursorAt(fs[i].root, p) :: NotAfter(path.value, p)
    ensures path.Some? ==>
              var x := fs[i].root.geometry.left + LeftAlong(fs[i].root, path.value);
              var y := fs[i].root.geometry.top + TopAlong(fs[i].root, path.value);
              after[i].cursor == if OnTerminal(after[i], x, y) then Some((x, y)) else None
  {
    FrameCursor(vs, before, after, fs, i);
    path := CursorFound(fs[i].root);
  }

  lemma FrameCursor(vs: seq<View>, before: seq<Terminal>, after: seq<Terminal>, fs: seq<Shown>, i: nat)
    requires IsRun(vs, before, after, fs) && i < |fs|
    ensures CursorFollows(after[i], fs[i].root)
  {
    assert FrameAt(vs, before, after, fs, i);
    FrameEffect(before[i], vs[i], fs[i].width, fs[i].height, fs[i].root);
  }

  /** Absolute coordinates do not change the shape of the tree. */
  lemma {:induction false} AbsoluteKinds(item: Item, container: Geometry.Rect, z: int, path: seq<nat>)
    ensures CursorAt(Absolute(item, container, z), path) <==> CursorAt(item, path)
    ensures ItemAt(Absolute(item, container, z), path).Some? <==> ItemAt(item, path).Some?
    decreases |path|
  {
    if path != [] && item.BoxItem? {
      var me := Absolute(item, container, z);
      if path[0] < |item.children| {
        AbsoluteChild(item.children, me.geometry, me.zIndex, path[0]);
        AbsoluteKinds(item.children[path[0]], me.geometry, me.zIndex, path[1..]);
      } else {
        AbsoluteLength(item.children, me.geometry, me.zIndex);
      }
    }
  }

  lemma {:induction false} AbsoluteLength(items: seq<Item>, container: Geometry.Rect, z: int)
    ensures |AbsoluteAll(items, container, z)| == |items|
  {
    if items != [] {
      AbsoluteLength(items[1..], container, z);
    }
  }

  // ---- the colours of two frames before

  lemma FrameIs(vs: seq<View>, before: seq<Terminal>, after: seq<Terminal>, fs: seq<Shown>, i: nat)
    requires IsRun(vs, before, after, fs) && i < |fs|
    ensures vs[i + 1] == Frame(vs[i], fs[i].width, fs[i].height, fs[i].root)
  {
    assert FrameAt(vs, before, after, fs, i);
  }

  /** The frame or the one before it came with a new size: both paint on new buffers. */
  predicate OnNewBuffer(vs: seq<View>, fs: seq<Shown>, i: nat)
    requires i < |fs| && i < |vs|
  {
    || Resized(vs[i], fs[i].width, fs[i].height)
    || (i > 0 && Resized(vs[i - 1], fs[i].width, fs[i].height))
  }

  lemma TwoFramesBefore(vs: seq<View>, before: seq<Terminal>, after: seq<Terminal>, fs: seq<Shown>, i: nat)
    requires IsRun(vs, before, after, fs) && 0 < i < |fs| && !OnNewBuffer(vs, fs, i)
    ensures Shaped(vs[i - 1].shown, fs[i].width, fs[i].height) && Shaped(vs[i + 1].shown, fs[i].width, fs[i].height)
    ensures vs[i + 1].shown == Painted(vs[i - 1].shown, fs[i].root)
  {
    FrameIs(vs, before, after, fs, i - 1);
    FrameIs(vs, before, after, fs, i);
    ShapedAfter(vs, before, after, fs, i - 1);
    ShapedAfter(vs, before, after, fs, i + 1);
    assert vs[i].next == vs[i - 1].shown;
  }

  lemma NewBufferFrame(vs: seq<View>, before: seq<Terminal>, after: seq<Terminal>, fs: seq<Shown>, i: nat)
    requires IsRun(vs, before, after, fs) && i < |fs| && OnNewBuffer(vs, fs, i)
    ensures var w, h := fs[i].width, fs[i].height;
            || vs[i + 1].shown == Painted(Blank(w, h), fs[i].root)
            || vs[i + 1].shown == Painted(Wiped(Blank(w, h)), fs[i].root)
  {
    FrameIs(vs, before, after, fs, i);
    if !Resized(vs[i], fs[i].width, fs[i].height) {
      FrameIs(vs, before, after, fs, i - 1);
    }
  }

  /** A frame is painted on the buffer shown two frames before, unless it or the one before it came with
      a new size: a cell looks as on a new renderer exactly then, or when its colours in that buffer were
      those of a new one, or when an item is painted on it now. */
  lemma RunColorsExactly(vs: seq<View>, before: seq<Terminal>, after: seq<Terminal>, fs: seq<Shown>, i: nat, x: nat,
          y: nat)
    requires IsRun(vs, before, after, fs) && i < |fs| && x < fs[i].width && y < fs[i].height
    ensures !OnNewBuffer(vs, fs, i) ==> i > 0 && Shaped(vs[i - 1].shown, fs[i].width, fs[i].height)
    ensures Shaped(vs[i + 1].shown, fs[i].width, fs[i].height)
    ensures var anew := Painted(Blank(fs[i].width, fs[i].height), fs[i].root);
            && |anew| == fs[i].height && |anew[y]| == fs[i].width
            && (vs[i + 1].shown[y][x] == anew[y][x] <==>
                  OnNewBuffer(vs, fs, i) || BlankColors(vs[i - 1].shown[y][x]) || Repainted(fs[i].root, x, y))
  {
    var w, h := fs[i].width, fs[i].height;
    ShapedAfter(vs, before, after, fs, i + 1);
    FrameIs(vs, before, after, fs, i);
    if OnNewBuffer(vs, fs, i) {
      NewBufferFrame(vs, before, after, fs, i);
      MapGridCells(Blank(w, h), Wiping(""), w, h);
      PaintedAfreshExactly(Blank(w, h), fs[i].root, w, h, x, y);
      PaintedAfreshExactly(Wiped(Blank(w, h)), fs[i].root, w, h, x, y);
    } else {
      TwoFramesBefore(vs, before, after, fs, i);
      PaintedAfreshExactly(vs[i - 1].shown, fs[i].root, w, h, x, y);
    }
  }

  /** A cell is shown without a foreground colour exactly when its background colour is set and not empty,
      and inverse exactly when it is. */
  lemma RunForeground(vs: seq<View>, before: seq<Terminal>, after: seq<Terminal>, fs: seq<Shown>, i: nat, x: nat,
          y: nat)
    requires IsRun(vs, before, after, fs) && i < |fs| && forall k | 0 <= k <= i :: Fine(vs[k], fs[k])
    requires x < fs[i].width && y < fs[i].height && !(x == fs[i].width - 1 && y == fs[i].height - 1)
    ensures Shaped(vs[i + 1].shown, fs[i].width, fs[i].height)
    ensures (x, y) in after[i].screen
    ensures var c, s := vs[i + 1].shown[y][x], after[i].screen[(x, y)].style;
            && (s.foreground.None? <==> c.bgColor.Some? && c.bgColor.value != "")
            && s.inverse == c.inverse
            && (s.foreground.Some? ==> s.foreground.value == c.color && s.background.None?)
            && (s.foreground.None? ==> s.background == c.bgColor)
  {
    FrameSize(vs, before, after, fs, i);
    RunShows(vs, before, after, fs, i);
    ShownForeground(after[i], vs[i + 1].shown, x, y);
  }

  lemma FrameSize(vs: seq<View>, before: seq<Terminal>, after: seq<Terminal>, fs: seq<Shown>, i: nat)
    requires IsRun(vs, before, after, fs) && i < |fs|
    ensures Shaped(vs[i + 1].shown, fs[i].width, fs[i].height)
  {
    FrameIs(vs, before, after, fs, i);
    ShapedAfter(vs, before, after, fs, i + 1);
  }

  lemma ShownForeground(t: Terminal, g: Grid, x: nat, y: nat)
    requires y < |g| && x < |g[y]| && !LastCell(g, x, y) && Shows(t, g)
    ensures (x, y) in t.screen
    ensures var c, s := g[y][x], t.screen[(x, y)].style;
            && (s.foreground.None? <==> c.bgColor.Some? && c.bgColor.value != "")
            && s.inverse == c.inverse
            && (s.foreground.Some? ==> s.foreground.value == c.color && s.background.None?)
            && (s.foreground.None? ==> s.background == c.bgColor)
  {
    assert ShowsAt(t, g, x, y);
  }
}
