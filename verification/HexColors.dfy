/** Colours that are all written with the same number of characters, as "#rrggbb" is, never share a cache
    text, so that every frame shows them right (packages/tui/src/render/Renderer.ts). */
module HexColors {
  import opened Basics
  import opened Terminals
  import opened DiffRender
  import opened Paint
  import opened Frames

  const HEX_LENGTH := 7

  predicate IsHex(color: string) { |color| == HEX_LENGTH }

  predicate OptionalHex(color: Option<string>) { color.Some? ==> IsHex(color.value) }

  predicate HexCell(c: Cell) { IsHex(c.color) && OptionalHex(c.bgColor) }

  /** A cache text tells the colours and whether they are inverse. */
  lemma KeyTells(a: Cell, b: Cell)
    requires HexCell(a) && HexCell(b) && ColorKey(a) == ColorKey(b)
    ensures a.color == b.color && a.bgColor == b.bgColor && a.inverse == b.inverse
  {
    assert ColorKey(a)[..7] == a.color && ColorKey(b)[..7] == b.color;
    assert ColorKey(a)[|ColorKey(a)| - 1] == if a.inverse then 't' else 'f';
    assert ColorKey(b)[|ColorKey(b)| - 1] == if b.inverse then 't' else 'f';
    if a.bgColor.Some? && b.bgColor.Some? {
      assert ColorKey(a)[7..14] == a.bgColor.value && ColorKey(b)[7..14] == b.bgColor.value;
    }
  }

  lemma HexFaithful(js: seq<Job>)
    requires forall j | j in js :: HexCell(j.ch)
    ensures Faithful(js)
  {
    forall a, b | a in js && b in js && ColorKey(a.ch) == ColorKey(b.ch) ensures StyleOf(a.ch) == StyleOf(b.ch) {
      KeyTells(a.ch, b.ch);
    }
  }

  // ---- trees

  predicate HexToken(t: Token) { OptionalHex(t.foreground) && OptionalHex(t.background) }

  predicate HexItem(item: Item)
    decreases item
  {
    match item
    case TextItem(_, _, _, lines, color, bgColor, _) =>
      IsHex(color) && OptionalHex(bgColor) && forall l | l in lines :: forall t | t in l :: HexToken(t)
    case CursorItem(_, _, _) => true
    case BoxItem(_, _, _, borderColor, children) =>
      OptionalHex(borderColor) && forall i | 0 <= i < |children| :: HexItem(children[i])
  }

  predicate HexStroke(s: Stroke) {
    IsHex(s.color) && (s.Ink? ==> OptionalHex(s.bgColor))
  }

  lemma {:induction false} AbsoluteHex(item: Item, container: Geometry.Rect, z: int)
    requires HexItem(item)
    ensures HexItem(Absolute(item, container, z))
    decreases item
  {
    if item.BoxItem? {
      var me := Absolute(item, container, z);
      AllHex(item.children, me.geometry, me.zIndex);
    }
  }

  lemma {:induction false} AllHex(items: seq<Item>, container: Geometry.Rect, z: int)
    requires forall i | 0 <= i < |items| :: HexItem(items[i])
    ensures forall i | 0 <= i < |AbsoluteAll(items, container, z)| :: HexItem(AbsoluteAll(items, container, z)[i])
    decreases items
  {
    if items != [] {
      AbsoluteHex(items[0], container, z);
      AllHex(items[1..], container, z);
    }
  }

  lemma {:induction false} HexMarks(tokens: seq<Token>)
    requires forall t | t in tokens :: HexToken(t)
    ensures forall m | m in Marks(tokens) :: OptionalHex(m.foreground) && OptionalHex(m.background)
  {
    if tokens != [] {
      assert tokens[0] in tokens && forall t | t in tokens[1..] :: t in tokens;
      HexMarks(tokens[1..]);
    }
  }

  lemma {:induction false} HexStrokes(item: Item, container: Geometry.Rect, x: int, y: int)
    requires HexItem(item)
    ensures forall s | s in Strokes(item, container, x, y) :: HexStroke(s)
    decreases item
  {
    var clip := Geometry.RectIntersection(item.geometry, container);
    if clip.Some? {
      if item.TextItem? {
        if HasMark(item, x, y) {
          var row := y - item.geometry.top;
          assert item.lines[row] in item.lines;
          HexMarks(item.lines[row]);
          assert Marks(item.lines[row])[x - item.geometry.left] in Marks(item.lines[row]);
        }
      } else if item.BoxItem? {
        HexChildStrokes(item.children, clip.value, Inside(item, clip.value), x, y);
      }
    }
  }

  lemma {:induction false} HexChildStrokes(items: seq<Item>, clip: Geometry.Rect, inside: Geometry.Rect, x: int, y: int)
    requires forall i | 0 <= i < |items| :: HexItem(items[i])
    ensures forall s | s in ChildStrokes(items, clip, inside, x, y) :: HexStroke(s)
    decreases items
  {
    if items != [] {
      HexStrokes(items[0], if items[0].canRenderOnBorder then clip else inside, x, y);
      HexChildStrokes(items[1..], clip, inside, x, y);
    }
  }

  lemma {:induction false} HexDraws(c: Cell, ss: seq<Stroke>)
    requires HexCell(c) && forall s | s in ss :: HexStroke(s)
    ensures HexCell(DrawAll(c, ss))
    decreases |ss|
  {
    if ss != [] {
      assert ss[0] in ss && forall s | s in ss[1..] :: s in ss;
      HexDraws(Draw(c, ss[0]), ss[1..]);
    }
  }

  // ---- buffers

  ghost predicate HexGrid(g: Grid, width: nat, height: nat) {
    Shaped(g, width, height) && forall y, x | 0 <= y < height && 0 <= x < width :: HexCell(g[y][x])
  }

  lemma HexPainted(g: Grid, root: Item, width: nat, height: nat)
    requires HexGrid(g, width, height) && HexItem(root)
    ensures HexGrid(Painted(g, root), width, height)
  {
    MapGridCells(g, Painting(root), width, height);
    AbsoluteHex(root, root.geometry, 0);
    forall y, x | 0 <= y < height && 0 <= x < width ensures HexCell(Painted(g, root)[y][x]) {
      HexStrokes(Placed(root), Placed(root).geometry, x, y);
      HexDraws(Cleared(g[y][x], " "), Strokes(Placed(root), Placed(root).geometry, x, y));
    }
  }

  ghost predicate HexView(v: View) {
    HexGrid(v.next, v.width, v.height) && HexGrid(v.shown, v.width, v.height)
  }

  lemma HexFrame(v: View, width: nat, height: nat, root: Item)
    requires HexView(v) && HexItem(root)
    ensures HexView(Frame(v, width, height, root))
    ensures HexGrid(Frame(v, width, height, root).shown, width, height)
  {
    MapGridCells(Blank(width, height), Wiping(""), width, height);
    HexPainted(if Resized(v, width, height) then Blank(width, height) else v.next, root, width, height);
  }

  lemma {:induction false} HexAfter(vs: seq<View>, before: seq<Terminal>, after: seq<Terminal>, fs: seq<Shown>, i: nat)
    requires IsRun(vs, before, after, fs) && i <= |fs| && forall k | 0 <= k < i :: HexItem(fs[k].root)
    ensures HexView(vs[i])
  {
    if i > 0 {
      HexAfter(vs, before, after, fs, i - 1);
      FrameIs(vs, before, after, fs, i - 1);
      HexFrame(vs[i - 1], fs[i - 1].width, fs[i - 1].height, fs[i - 1].root);
    }
  }

  lemma HexIsFine(v: View, f: Shown)
    requires HexView(v) && HexItem(f.root) && Proper(f.root)
    ensures Fine(v, f)
  {
    var g, last := Frame(v, f.width, f.height, f.root).shown, Some(Compared(v, f.width, f.height));
    HexFrame(v, f.width, f.height, f.root);
    JobsExactly(g, last, 0);
    HexFaithful(FrameJobs(v, f.width, f.height, f.root));
  }

  /** In every run whose trees use such colours only, whatever is resized in between, the terminal shows each
      painted buffer: every text and style in every cell but the bottom right one. */
  lemma HexRunShows(vs: seq<View>, before: seq<Terminal>, after: seq<Terminal>, fs: seq<Shown>, i: nat)
    requires IsRun(vs, before, after, fs) && i < |fs|
    requires forall k | 0 <= k <= i :: HexItem(fs[k].root) && Proper(fs[k].root)
    ensures Shows(after[i], vs[i + 1].shown)
  {
    forall k | 0 <= k <= i ensures Fine(vs[k], fs[k]) {
      HexAfter(vs, before, after, fs, k);
      HexIsFine(vs[k], fs[k]);
    }
    RunShows(vs, before, after, fs, i);
  }
}
