/** What painting a tree of items makes of one cell of the buffer, and why it stays inside the
    clip rectangles (packages/tui/src/render/Renderer.ts and RenderItem.ts). */
module Paint {
  import opened Basics
  import opened Geometry
  import opened Terminals

  datatype Token = Token(glyphs: seq<string>, foreground: Option<string>, background: Option<string>)

  /** A text comes as its lines of tokens; a box has a border when its left border is solid. */
  datatype Item =
    | TextItem(geometry: Rect, zIndex: int, canRenderOnBorder: bool, lines: seq<seq<Token>>, color: string,
               bgColor: Option<string>, inverse: bool)
    | CursorItem(geometry: Rect, zIndex: int, canRenderOnBorder: bool)
    | BoxItem(geometry: Rect, zIndex: int, canRenderOnBorder: bool, borderColor: Option<string>, children: seq<Item>)

  /** `renderItemGeometryToAbsolute`: positions and z-indexes are relative to the parent. */
  function Absolute(item: Item, container: Rect, z: int): Item
    decreases item
  {
    var r := item.geometry.(left := container.left + item.geometry.left, top := container.top + item.geometry.top);
    match item
    case TextItem(_, _, _, _, _, _, _) => item.(geometry := r, zIndex := item.zIndex + z)
    case CursorItem(_, _, _) => item.(geometry := r, zIndex := item.zIndex + z)
    case BoxItem(_, _, _, _, children) =>
      item.(geometry := r, zIndex := item.zIndex + z, children := AbsoluteAll(children, r, item.zIndex + z))
  }

  function AbsoluteAll(items: seq<Item>, container: Rect, z: int): seq<Item>
    decreases items
  {
    if items == [] then [] else [Absolute(items[0], container, z)] + AbsoluteAll(items[1..], container, z)
  }

  // ---- strokes

  /** What an item does to a cell: ink only shows where nothing as high is, an edge always does. */
  datatype Stroke = Ink(z: int, value: string, color: string, bgColor: Option<string>, inverse: bool)
                  | Edge(value: string, color: string)

  function Draw(c: Cell, s: Stroke): Cell {
    match s
    case Ink(z, value, color, bg, inverse) => if z > c.zIndex then Cell(value, color, bg, inverse, z) else c
    case Edge(value, color) => Cell(value, color, None, false, c.zIndex)
  }

  function DrawAll(c: Cell, ss: seq<Stroke>): Cell
    decreases |ss|
  {
    if ss == [] then c else DrawAll(Draw(c, ss[0]), ss[1..])
  }

  datatype Mark = Mark(value: string, foreground: Option<string>, background: Option<string>)

  /** The marks of a line, one per cell. */
  function Marks(tokens: seq<Token>): seq<Mark> {
    if tokens == [] then []
    else Map(tokens[0].glyphs, (v: string) => Mark(v, tokens[0].foreground, tokens[0].background)) + Marks(tokens[1..])
  }

  function InkOf(item: Item, m: Mark): Stroke
    requires item.TextItem?
  {
    Ink(item.zIndex, m.value, if m.foreground.Some? then m.foreground.value else item.color,
        if m.background.Some? then m.background else item.bgColor, item.inverse)
  }

  /** The text has a mark for this cell. */
  predicate HasMark(item: Item, x: int, y: int)
    requires item.TextItem?
  {
    var row := y - item.geometry.top;
    0 <= row < item.geometry.height && row < |item.lines| && 0 <= x - item.geometry.left < |Marks(item.lines[row])|
  }

  function TextStrokes(item: Item, clip: Rect, x: int, y: int): seq<Stroke>
    requires item.TextItem?
  {
    if clip.Contains(x, y) && HasMark(item, x, y)
    then [InkOf(item, Marks(item.lines[y - item.geometry.top])[x - item.geometry.left])]
    else []
  }

  /** The border character of a cell of a box; the inside is blank. */
  function BorderGlyph(r: Rect, x: int, y: int): string {
    var right, bottom := r.left + r.width, r.top + r.height;
    if x == r.left && y == r.top then "┌"
    else if x == r.left && y == bottom - 1 then "└"
    else if x == right - 1 && y == r.top then "┐"
    else if x == right - 1 && y == bottom - 1 then "┘"
    else if x == r.left then "│"
    else if x == right - 1 then "│"
    else if y == r.top then "─"
    else if y == bottom - 1 then "─"
    else " "
  }

  predicate HasBorder(item: Item)
    requires item.BoxItem?
  {
    item.borderColor.Some? && item.borderColor.value != ""
  }

  function BoxStrokes(item: Item, clip: Rect, x: int, y: int): seq<Stroke>
    requires item.BoxItem?
  {
    if HasBorder(item) && item.geometry.Contains(x, y) && clip.Contains(x, y)
    then [Edge(BorderGlyph(item.geometry, x, y), item.borderColor.value)]
    else []
  }

  /** Where the children of a box may be painted, unless they may be on the border: one cell inside
      what is visible of the box. */
  function Inside(item: Item, clip: Rect): Rect
    requires item.BoxItem?
  {
    if HasBorder(item) then Rect(clip.left + 1, clip.top + 1, clip.width - 2, clip.height - 2) else clip
  }

  function ChildContainer(item: Item, clip: Rect, child: Item): Rect
    requires item.BoxItem?
  {
    if child.canRenderOnBorder then clip else Inside(item, clip)
  }

  /** Everything painting the item does to one cell, in order. */
  function Strokes(item: Item, container: Rect, x: int, y: int): seq<Stroke>
    decreases item
  {
    match RectIntersection(item.geometry, container)
    case None => []
    case Some(clip) =>
      match item
      case TextItem(_, _, _, _, _, _, _) => TextStrokes(item, clip, x, y)
      case CursorItem(_, _, _) => []
      case BoxItem(_, _, _, _, children) =>
        BoxStrokes(item, clip, x, y) + ChildStrokes(children, clip, Inside(item, clip), x, y)
  }

  function ChildStrokes(items: seq<Item>, clip: Rect, inside: Rect, x: int, y: int): seq<Stroke>
    decreases items
  {
    if items == [] then []
    else Strokes(items[0], if items[0].canRenderOnBorder then clip else inside, x, y)
         + ChildStrokes(items[1..], clip, inside, x, y)
  }

  lemma {:induction false} DrawConcat(c: Cell, a: seq<Stroke>, b: seq<Stroke>)
    ensures DrawAll(c, a + b) == DrawAll(DrawAll(c, a), b)
    decreases |a|
  {
    if a == [] {
      assert a + b == b;
    } else {
      assert (a + b)[1..] == a[1..] + b;
      DrawConcat(Draw(c, a[0]), a[1..], b);
    }
  }

  lemma {:induction false} ChildStrokesConcat(a: seq<Item>, b: seq<Item>, clip: Rect, inside: Rect, x: int, y: int)
    ensures ChildStrokes(a + b, clip, inside, x, y)
            == ChildStrokes(a, clip, inside, x, y) + ChildStrokes(b, clip, inside, x, y)
    decreases |a|
  {
    if a == [] {
      assert a + b == b;
    } else {
      assert (a + b)[1..] == a[1..] + b;
      ChildStrokesConcat(a[1..], b, clip, inside, x, y);
    }
  }

  lemma ChildStrokesSnoc(items: seq<Item>, i: nat, clip: Rect, inside: Rect, x: int, y: int)
    requires i < |items|
    ensures ChildStrokes(items[..i + 1], clip, inside, x, y)
         == ChildStrokes(items[..i], clip, inside, x, y)
            + Strokes(items[i], if items[i].canRenderOnBorder then clip else inside, x, y)
  {
    assert items[..i + 1] == items[..i] + [items[i]] && [items[i]][1..] == [];
    ChildStrokesConcat(items[..i], [items[i]], clip, inside, x, y);
  }

  // ---- clipping

  /** The item at the end of the path, found through the children of boxes, marks the cell itself,
      and the cell lies inside the rectangle of every item on the way and all their clip rectangles. */
  ghost predicate Touches(item: Item, container: Rect, path: seq<nat>, x: int, y: int)
    decreases |path|
  {
    var clip := RectIntersection(item.geometry, container);
    && clip.Some? && clip.value.Contains(x, y)
    && if path == [] then (item.TextItem? && HasMark(item, x, y)) || (item.BoxItem? && HasBorder(item))
       else item.BoxItem? && path[0] < |item.children|
            && Touches(item.children[path[0]], ChildContainer(item, clip.value, item.children[path[0]]), path[1..],
                       x, y)
  }

  /** A cell an item does anything to is marked by that item or one below it, inside every clip
      rectangle from the outermost container down. */
  lemma {:induction false} StrokesAreClipped(item: Item, container: Rect, x: int, y: int) returns (path: seq<nat>)
    requires Strokes(item, container, x, y) != []
    ensures Touches(item, container, path, x, y)
    decreases item
  {
    var clip := RectIntersection(item.geometry, container).value;
    if item.TextItem? || BoxStrokes(item, clip, x, y) != [] {
      path := [];
    } else {
      var i: nat, rest: seq<nat> := ChildTouched(item.children, clip, Inside(item, clip), x, y);
      path := [i] + rest;
      assert path[1..] == rest;
    }
  }

  lemma {:induction false} ChildTouched(items: seq<Item>, clip: Rect, inside: Rect, x: int, y: int)
    returns (i: nat, path: seq<nat>)
    requires ChildStrokes(items, clip, inside, x, y) != []
    ensures i < |items| && Touches(items[i], if items[i].canRenderOnBorder then clip else inside, path, x, y)
    decreases items
  {
    var c := if items[0].canRenderOnBorder then clip else inside;
    if Strokes(items[0], c, x, y) != [] {
      i := 0;
      path := StrokesAreClipped(items[0], c, x, y);
    } else {
      i, path := ChildTouched(items[1..], clip, inside, x, y);
      i := i + 1;
    }
  }

  /** The item a path leads to. */
  function ItemAt(item: Item, path: seq<nat>): Option<Item>
    decreases |path|
  {
    if path == [] then Some(item)
    else if item.BoxItem? && path[0] < |item.children| then ItemAt(item.children[path[0]], path[1..])
    else None
  }

  /** The sum of a measure over the items on the path. */
  function SumAlong(item: Item, path: seq<nat>, f: Item -> int): int
    requires ItemAt(item, path).Some?
    decreases |path|
  {
    f(item) + if path == [] then 0 else SumAlong(item.children[path[0]], path[1..], f)
  }

  /** The offset of the item at the end of the path from the left, or the top, of the outermost one. */
  function LeftAlong(item: Item, path: seq<nat>): int
    requires ItemAt(item, path).Some?
  {
    SumAlong(item, path, (i: Item) => i.geometry.left)
  }

  function TopAlong(item: Item, path: seq<nat>): int
    requires ItemAt(item, path).Some?
  {
    SumAlong(item, path, (i: Item) => i.geometry.top)
  }

  function HeightAlong(item: Item, path: seq<nat>): int
    requires ItemAt(item, path).Some?
  {
    SumAlong(item, path, (i: Item) => i.zIndex)
  }

  lemma {:induction false} AbsoluteChild(items: seq<Item>, container: Rect, z: int, i: nat)
    requires i < |items|
    ensures |AbsoluteAll(items, container, z)| == |items|
    ensures AbsoluteAll(items, container, z)[i] == Absolute(items[i], container, z)
  {
    if i > 0 {
      AbsoluteChild(items[1..], container, z, i - 1);
    } else if |items| > 1 {
      AbsoluteChild(items[1..], container, z, 0);
    }
  }

  /** The items differ in place and height at most, and in their children. */
  predicate SameLook(a: Item, b: Item) {
    match (a, b)
    case (TextItem(_, _, _, _, _, _, _), TextItem(_, _, _, _, _, _, _)) =>
      a == b.(geometry := a.geometry, zIndex := a.zIndex)
    case (CursorItem(_, _, _), CursorItem(_, _, _)) => a == b.(geometry := a.geometry, zIndex := a.zIndex)
    case (BoxItem(_, _, _, _, _), BoxItem(_, _, _, _, _)) =>
      a == b.(geometry := a.geometry, zIndex := a.zIndex, children := a.children) && |a.children| == |b.children|
    case _ => false
  }

  /** In absolute coordinates every item lies at the sum of the offsets of the items above it and its
      own, its z-index is the sum of theirs, and else it looks as before. */
  lemma {:induction false} AbsoluteSums(item: Item, container: Rect, z: int, path: seq<nat>)
    requires ItemAt(item, path).Some?
    ensures var a := ItemAt(Absolute(item, container, z), path);
            && a.Some?
            && a.value.geometry.left == container.left + LeftAlong(item, path)
            && a.value.geometry.top == container.top + TopAlong(item, path)
            && a.value.zIndex == z + HeightAlong(item, path)
            && a.value.geometry.width == ItemAt(item, path).value.geometry.width
            && a.value.geometry.height == ItemAt(item, path).value.geometry.height
            && SameLook(a.value, ItemAt(item, path).value)
    decreases |path|
  {
    if path == [] {
      if item.BoxItem? && item.children != [] {
        AbsoluteChild(item.children, Absolute(item, container, z).geometry, item.zIndex + z, 0);
      }
    } else {
      var me := Absolute(item, container, z);
      AbsoluteChild(item.children, me.geometry, me.zIndex, path[0]);
      AbsoluteSums(item.children[path[0]], me.geometry, me.zIndex, path[1..]);
    }
  }

  /** Such a cell lies in the container and in the rectangle of every item on the path. */
  lemma {:induction false} TouchedInAll(item: Item, container: Rect, path: seq<nat>, x: int, y: int, k: nat)
    requires Touches(item, container, path, x, y) && k <= |path|
    ensures container.Contains(x, y)
    ensures ItemAt(item, path[..k]).Some? && ItemAt(item, path[..k]).value.geometry.Contains(x, y)
    decreases |path|
  {
    if k > 0 {
      var clip := RectIntersection(item.geometry, container).value;
      assert path[..k][1..] == path[1..][..k - 1];
      TouchedInAll(item.children[path[0]], ChildContainer(item, clip, item.children[path[0]]), path[1..], x, y, k - 1);
    }
  }

  /** Painting a tree changes only cells inside the rectangle of the item that marks them, inside the
      rectangles of all items above it, and inside the outermost container. */
  lemma ChangedIsClipped(c: Cell, item: Item, container: Rect, x: int, y: int) returns (path: seq<nat>)
    requires DrawAll(c, Strokes(item, container, x, y)) != c
    ensures Touches(item, container, path, x, y) && container.Contains(x, y)
    ensures forall k | 0 <= k <= |path| ::
              ItemAt(item, path[..k]).Some? && ItemAt(item, path[..k]).value.geometry.Contains(x, y)
  {
    path := StrokesAreClipped(item, container, x, y);
    TouchedInAll(item, container, path, x, y, 0);
    forall k | 0 <= k <= |path|
      ensures ItemAt(item, path[..k]).Some? && ItemAt(item, path[..k]).value.geometry.Contains(x, y)
    {
      TouchedInAll(item, container, path, x, y, k);
    }
  }

  // ---- which text shows

  /** Where only texts are painted, the cell shows the first of those with the highest z-index, or
      stays as it was when none is higher than it. */
  lemma {:induction false} HighestShows(c: Cell, ss: seq<Stroke>) returns (i: Option<nat>)
    requires forall s | s in ss :: s.Ink?
    ensures i.None? ==> DrawAll(c, ss) == c && forall k | 0 <= k < |ss| :: ss[k].z <= c.zIndex
    ensures i.Some? ==>
              && i.value < |ss| && ss[i.value].z > c.zIndex && DrawAll(c, ss) == Draw(c, ss[i.value])
              && (forall k | 0 <= k < |ss| :: ss[k].z <= ss[i.value].z)
              && (forall k | 0 <= k < i.value :: ss[k].z < ss[i.value].z)
    decreases |ss|
  {
    if ss == [] {
      i := None;
    } else {
      assert ss == [ss[0]] + ss[1..] && ss[0] in ss;
      var rest := HighestShows(Draw(c, ss[0]), ss[1..]);
      if rest.Some? {
        i := Some(rest.value + 1);
      } else {
        i := if ss[0].z > c.zIndex then Some(0) else None;
      }
    }
  }

  /** Painting never lowers the z-index of a cell. */
  lemma {:induction false} NeverLower(c: Cell, ss: seq<Stroke>)
    ensures DrawAll(c, ss).zIndex >= c.zIndex
    decreases |ss|
  {
    if ss != [] {
      NeverLower(Draw(c, ss[0]), ss[1..]);
    }
  }

  // ---- a whole frame as a grid

  /** `clearBuffer`: the colours stay. */
  function Cleared(c: Cell, value: string): Cell {
    c.(value := value, inverse := false, zIndex := MIN_SAFE_INTEGER)
  }

  const BlankCell := Cell(" ", "#ffffff", None, false, MIN_SAFE_INTEGER)

  function Blank(width: nat, height: nat): (g: Grid)
    ensures Shaped(g, width, height)
  {
    seq(height, y => seq(width, x => BlankCell))
  }

  function MapGrid(g: Grid, f: (int, int, Cell) -> Cell): Grid {
    seq(|g|, y requires 0 <= y < |g| => seq(|g[y]|, x requires 0 <= x < |g[y]| => f(x, y, g[y][x])))
  }

  lemma MapGridCells(g: Grid, f: (int, int, Cell) -> Cell, width: nat, height: nat)
    requires Shaped(g, width, height)
    ensures Shaped(MapGrid(g, f), width, height)
    ensures forall y, x | 0 <= y < height && 0 <= x < width :: MapGrid(g, f)[y][x] == f(x, y, g[y][x])
  {
  }

  function Wiping(value: string): (int, int, Cell) -> Cell { (x: int, y: int, c: Cell) => Cleared(c, value) }

  /** The tree as it is painted: the root is its own container. */
  function Placed(root: Item): Item { Absolute(root, root.geometry, 0) }

  function Painting(root: Item): (int, int, Cell) -> Cell {
    (x: int, y: int, c: Cell) => DrawAll(Cleared(c, " "), Strokes(Placed(root), Placed(root).geometry, x, y))
  }

  /** The buffer after a frame: cleared and painted. */
  function Painted(g: Grid, root: Item): Grid { MapGrid(g, Painting(root)) }

  function Wiped(g: Grid): Grid { MapGrid(g, Wiping("")) }

  // ---- what the colours that stay do

  predicate SameButColors(a: Cell, b: Cell) {
    a.value == b.value && a.inverse == b.inverse && a.zIndex == b.zIndex
  }

  /** The stroke replaces the colours of a cell that is not higher. */
  predicate Recolors(s: Stroke, z: int) {
    s.Edge? || s.z > z
  }

  /** Two cells that differ in their colours at most are painted alike exactly when they do not differ
      or something is painted over them. */
  lemma {:induction false} DrawAlikeExactly(a: Cell, b: Cell, ss: seq<Stroke>)
    requires SameButColors(a, b)
    ensures DrawAll(a, ss) == DrawAll(b, ss) <==> a == b || exists s | s in ss :: Recolors(s, a.zIndex)
    decreases |ss|
  {
    if ss != [] {
      assert ss == [ss[0]] + ss[1..] && ss[0] in ss;
      DrawAlikeExactly(Draw(a, ss[0]), Draw(b, ss[0]), ss[1..]);
    }
  }

  predicate BlankColors(c: Cell) {
    c.color == BlankCell.color && c.bgColor == BlankCell.bgColor
  }

  predicate Repainted(root: Item, x: int, y: int) {
    exists s | s in Strokes(Placed(root), Placed(root).geometry, x, y) :: Recolors(s, MIN_SAFE_INTEGER)
  }

  /** A cell looks as if it had been painted on a new buffer exactly when its colours were those of a
      new buffer or an item is painted there. */
  lemma PaintedAfreshExactly(g: Grid, root: Item, width: nat, height: nat, x: nat, y: nat)
    requires Shaped(g, width, height) && x < width && y < height
    ensures |Painted(g, root)| == |Painted(Blank(width, height), root)| == height
    ensures |Painted(g, root)[y]| == |Painted(Blank(width, height), root)[y]| == width
    ensures Painted(g, root)[y][x] == Painted(Blank(width, height), root)[y][x]
            <==> BlankColors(g[y][x]) || Repainted(root, x, y)
  {
    MapGridCells(g, Painting(root), width, height);
    MapGridCells(Blank(width, height), Painting(root), width, height);
    DrawAlikeExactly(Cleared(g[y][x], " "), Cleared(BlankCell, " "),
                     Strokes(Placed(root), Placed(root).geometry, x, y));
  }

  // ---- the cursor

  /** `findRenderItem` for a cursor: the item itself, or else the first found below its children. */
  function FindCursor(item: Item): Option<Item>
    decreases item
  {
    match item
    case TextItem(_, _, _, _, _, _, _) => None
    case CursorItem(_, _, _) => Some(item)
    case BoxItem(_, _, _, _, children) => FindCursorAmong(children)
  }

  function FindCursorAmong(items: seq<Item>): Option<Item>
    decreases items
  {
    if items == [] then None
    else if FindCursor(items[0]).Some? then FindCursor(items[0])
    else FindCursorAmong(items[1..])
  }

  predicate CursorAt(item: Item, path: seq<nat>) {
    ItemAt(item, path).Some? && ItemAt(item, path).value.CursorItem?
  }

  /** The path does not come after the other in the order of the tree. */
  predicate NotAfter(a: seq<nat>, b: seq<nat>)
    decreases |a|
  {
    a == [] || (b != [] && (a[0] < b[0] || (a[0] == b[0] && NotAfter(a[1..], b[1..]))))
  }

  /** The path to the cursor that is found. */
  lemma {:induction false} CursorPath(item: Item) returns (path: seq<nat>)
    requires FindCursor(item).Some?
    ensures CursorAt(item, path) && ItemAt(item, path) == FindCursor(item)
    ensures forall p: seq<nat> | CursorAt(item, p) :: NotAfter(path, p)
    decreases item
  {
    if item.CursorItem? {
      path := [];
    } else {
      var i: nat, rest: seq<nat> := CursorPathAmong(item.children);
      path := [i] + rest;
      assert path[1..] == rest;
      forall p: seq<nat> | CursorAt(item, p) ensures NotAfter(path, p) {
        assert CursorAt(item.children[p[0]], p[1..]);
      }
    }
  }

  lemma {:induction false} CursorPathAmong(items: seq<Item>) returns (i: nat, path: seq<nat>)
    requires FindCursorAmong(items).Some?
    ensures i < |items| && CursorAt(items[i], path) && ItemAt(items[i], path) == FindCursorAmong(items)
    ensures forall p: seq<nat> | CursorAt(items[i], p) :: NotAfter(path, p)
    ensures forall k: nat, p: seq<nat> | k < i :: !CursorAt(items[k], p)
    decreases items
  {
    if FindCursor(items[0]).Some? {
      i := 0;
      path := CursorPath(items[0]);
    } else {
      i, path := CursorPathAmong(items[1..]);
      i := i + 1;
      forall k: nat, p: seq<nat> | k < i ensures !CursorAt(items[k], p) {
        if k == 0 {
          NoCursor(items[0], p);
        } else {
          assert items[k] == items[1..][k - 1];
        }
      }
    }
  }

  lemma {:induction false} NoCursor(item: Item, path: seq<nat>)
    requires FindCursor(item).None?
    ensures !CursorAt(item, path)
    decreases |path|
  {
    if item.BoxItem? && path != [] && path[0] < |item.children| {
      NoCursorAmong(item.children, path[0]);
      NoCursor(item.children[path[0]], path[1..]);
    }
  }

  lemma {:induction false} NoCursorAmong(items: seq<Item>, i: nat)
    requires FindCursorAmong(items).None? && i < |items|
    ensures FindCursor(items[i]).None?
  {
    if i > 0 {
      NoCursorAmong(items[1..], i - 1);
    }
  }
}
