/** Which cells an item may paint, cell by cell and without rectangles: the clip rectangles of the renderer
    are proved to amount to this (packages/tui/src/render/Renderer.ts). */
module Clipping {
  import opened Basics
  import opened Geometry
  import opened Terminals
  import opened Paint

  type Region = (int, int) -> bool

  /** The cells of the region inside the rectangle. */
  function Shown(region: Region, r: Rect): Region { (x: int, y: int) => region(x, y) && r.Contains(x, y) }

  /** The cells of the region that have all four neighbours in it. */
  function Interior(region: Region): Region {
    (x: int, y: int) => region(x, y) && region(x - 1, y) && region(x + 1, y) && region(x, y - 1) && region(x, y + 1)
  }

  /** What the item itself does to one of its cells. */
  function Own(item: Item, x: int, y: int): seq<Stroke> {
    match item
    case TextItem(_, _, _, lines, _, _, _) =>
      if HasMark(item, x, y) then [InkOf(item, Marks(lines[y - item.geometry.top])[x - item.geometry.left])] else []
    case CursorItem(_, _, _) => []
    case BoxItem(_, _, _, _, _) =>
      if HasBorder(item) then [Edge(BorderGlyph(item.geometry, x, y), item.borderColor.value)] else []
  }

  /** An item paints where its region and its rectangle allow it; below it, a child may paint there too, but
      through a border only in the interior, unless it may be on the border. */
  function Seen(item: Item, region: Region, x: int, y: int): seq<Stroke>
    decreases item
  {
    var mine := Shown(region, item.geometry);
    if !mine(x, y) then []
    else Own(item, x, y) + if item.BoxItem? then SeenAll(item.children, mine, HasBorder(item), x, y) else []
  }

  function SeenAll(items: seq<Item>, mine: Region, bordered: bool, x: int, y: int): seq<Stroke>
    decreases items
  {
    if items == [] then []
    else Seen(items[0], if bordered && !items[0].canRenderOnBorder then Interior(mine) else mine, x, y)
         + SeenAll(items[1..], mine, bordered, x, y)
  }

  ghost predicate Same(region: Region, r: Rect) {
    forall x, y :: region(x, y) <==> r.Contains(x, y)
  }

  lemma InsideIsInterior(item: Item, clip: Rect, mine: Region)
    requires item.BoxItem? && HasBorder(item) && Same(mine, clip)
    ensures Same(Interior(mine), Inside(item, clip))
  {
    forall x, y ensures Interior(mine)(x, y) <==> Inside(item, clip).Contains(x, y) {
      assert mine(x - 1, y) <==> clip.Contains(x - 1, y);
      assert mine(x + 1, y) <==> clip.Contains(x + 1, y);
    }
  }

  /** Clipping by rectangles is exactly this: same strokes, in the same order, for every tree and cell. */
  lemma {:induction false} StrokesAreSeen(item: Item, container: Rect, region: Region, x: int, y: int)
    requires Same(region, container)
    ensures Strokes(item, container, x, y) == Seen(item, region, x, y)
    decreases item
  {
    var mine := Shown(region, item.geometry);
    match RectIntersection(item.geometry, container)
    case None =>
      assert !(item.geometry.Contains(x, y) && container.Contains(x, y));
    case Some(clip) =>
      assert Same(mine, clip);
      if item.BoxItem? {
        if HasBorder(item) {
          InsideIsInterior(item, clip, mine);
        }
        ChildrenAreSeen(item.children, clip, Inside(item, clip), mine, HasBorder(item), x, y);
        if !mine(x, y) {
          NothingSeen(item.children, mine, HasBorder(item), x, y);
        }
      }
  }

  lemma {:induction false} ChildrenAreSeen(items: seq<Item>, clip: Rect, inside: Rect, mine: Region, bordered: bool,
          x: int, y: int)
    requires Same(mine, clip) && Same(if bordered then Interior(mine) else mine, inside)
    ensures ChildStrokes(items, clip, inside, x, y) == SeenAll(items, mine, bordered, x, y)
    decreases items
  {
    if items != [] {
      if items[0].canRenderOnBorder {
        StrokesAreSeen(items[0], clip, mine, x, y);
      } else {
        StrokesAreSeen(items[0], inside, if bordered then Interior(mine) else mine, x, y);
      }
      ChildrenAreSeen(items[1..], clip, inside, mine, bordered, x, y);
    }
  }

  lemma {:induction false} NothingSeen(items: seq<Item>, mine: Region, bordered: bool, x: int, y: int)
    requires !mine(x, y)
    ensures SeenAll(items, mine, bordered, x, y) == []
    decreases items
  {
    if items != [] {
      NothingSeen(items[1..], mine, bordered, x, y);
    }
  }

  // ---- borders

  function MayPaintOnBorder(): Item -> bool { (i: Item) => i.canRenderOnBorder }

  lemma {:induction false} OnlyAllowedOnRim(items: seq<Item>, mine: Region, x: int, y: int)
    requires mine(x, y) && !Interior(mine)(x, y)
    ensures SeenAll(items, mine, true, x, y) == SeenAll(Filter(items, MayPaintOnBorder()), mine, true, x, y)
    decreases items
  {
    if items != [] {
      OnlyAllowedOnRim(items[1..], mine, x, y);
      var rest := Filter(items[1..], MayPaintOnBorder());
      if items[0].canRenderOnBorder {
        assert Filter(items, MayPaintOnBorder()) == [items[0]] + rest && ([items[0]] + rest)[1..] == rest;
      } else {
        assert [] + SeenAll(items[1..], mine, true, x, y) == SeenAll(items[1..], mine, true, x, y);
      }
    }
  }

  /** On the rim of what is visible of a bordered box come its border and then the children that may paint
      there; no other child reaches it, nor anything below one. */
  lemma RimExactly(item: Item, container: Rect, region: Region, x: int, y: int)
    requires item.BoxItem? && item.borderColor.Some? && item.borderColor.value != "" && Same(region, container)
    requires Shown(region, item.geometry)(x, y) && !Interior(Shown(region, item.geometry))(x, y)
    ensures Strokes(item, container, x, y)
         == [Edge(BorderGlyph(item.geometry, x, y), item.borderColor.value)]
            + SeenAll(Filter(item.children, MayPaintOnBorder()), Shown(region, item.geometry), true, x, y)
  {
    StrokesAreSeen(item, container, region, x, y);
    OnlyAllowedOnRim(item.children, Shown(region, item.geometry), x, y);
  }

  /** A cell on the edge of the rectangle is on the rim of what is visible of it. */
  predicate OnEdge(r: Rect, x: int, y: int) {
    r.Contains(x, y) && (x == r.left || x == r.left + r.width - 1 || y == r.top || y == r.top + r.height - 1)
  }

  lemma {:induction false} NobodyPaints(items: seq<Item>, mine: Region, x: int, y: int)
    requires forall i | 0 <= i < |items| && items[i].canRenderOnBorder :: Seen(items[i], mine, x, y) == []
    ensures SeenAll(Filter(items, MayPaintOnBorder()), mine, true, x, y) == []
    decreases items
  {
    if items != [] {
      forall i | 0 <= i < |items[1..]| && items[1..][i].canRenderOnBorder
        ensures Seen(items[1..][i], mine, x, y) == []
      {
        assert items[1..][i] == items[i + 1];
      }
      NobodyPaints(items[1..], mine, x, y);
    }
  }

  /** So every visible cell of a border shows its character in the colour of the border, unless a child that may
      paint there, or an item below it, does. */
  lemma BorderShows(item: Item, container: Rect, region: Region, x: int, y: int, c: Cell)
    requires item.BoxItem? && item.borderColor.Some? && item.borderColor.value != "" && Same(region, container)
    requires container.Contains(x, y) && OnEdge(item.geometry, x, y)
    requires forall i | 0 <= i < |item.children| && item.children[i].canRenderOnBorder ::
               Seen(item.children[i], Shown(region, item.geometry), x, y) == []
    ensures DrawAll(c, Strokes(item, container, x, y))
         == Cell(BorderGlyph(item.geometry, x, y), item.borderColor.value, None, false, c.zIndex)
  {
    RimExactly(item, container, region, x, y);
    NobodyPaints(item.children, Shown(region, item.geometry), x, y);
    var edge := Edge(BorderGlyph(item.geometry, x, y), item.borderColor.value);
    assert [edge] + [] == [edge] && [edge][1..] == [];
  }

  /** The characters of a border, wherever they are: corners, sides and what is between them. */
  lemma BorderCharacters(r: Rect, x: int, y: int)
    requires r.Contains(x, y)
    ensures var right, bottom := r.left + r.width - 1, r.top + r.height - 1;
            && (x == r.left && y == r.top ==> BorderGlyph(r, x, y) == "┌")
            && (x == right && y == r.top && r.width > 1 ==> BorderGlyph(r, x, y) == "┐")
            && (x == r.left && y == bottom && r.height > 1 ==> BorderGlyph(r, x, y) == "└")
            && (x == right && y == bottom && r.width > 1 && r.height > 1 ==> BorderGlyph(r, x, y) == "┘")
            && ((x == r.left || x == right) && r.top < y < bottom ==> BorderGlyph(r, x, y) == "│")
            && ((y == r.top || y == bottom) && r.left < x < right ==> BorderGlyph(r, x, y) == "─")
            && (r.left < x < right && r.top < y < bottom ==> BorderGlyph(r, x, y) == " ")
  {
  }

  /** A box without a colour for its border, or with an empty one, has none: its children may paint wherever it
      can be seen. */
  lemma WithoutBorder(item: Item, container: Rect, region: Region, x: int, y: int)
    requires item.BoxItem? && (item.borderColor.None? || item.borderColor.value == "") && Same(region, container)
    ensures Strokes(item, container, x, y)
         == if container.Contains(x, y) && item.geometry.Contains(x, y)
            then SeenAll(item.children, Shown(region, item.geometry), false, x, y) else []
  {
    StrokesAreSeen(item, container, region, x, y);
    var below := SeenAll(item.children, Shown(region, item.geometry), false, x, y);
    assert [] + below == below;
  }

  // ---- texts

  /** The number of glyphs of the tokens. */
  function Width(tokens: seq<Token>): nat {
    if tokens == [] then 0 else |tokens[0].glyphs| + Width(tokens[1..])
  }

  lemma {:induction false} MarksWidth(tokens: seq<Token>)
    ensures |Marks(tokens)| == Width(tokens)
  {
    if tokens != [] {
      MarksWidth(tokens[1..]);
    }
  }

  lemma {:induction false} MarkOf(tokens: seq<Token>, i: nat, k: nat)
    requires i < |tokens| && k < |tokens[i].glyphs|
    ensures var at := Width(tokens[..i]) + k;
            at < |Marks(tokens)|
            && Marks(tokens)[at] == Mark(tokens[i].glyphs[k], tokens[i].foreground, tokens[i].background)
  {
    if i > 0 {
      MarkOf(tokens[1..], i - 1, k);
      assert tokens[..i][1..] == tokens[1..][..i - 1];
    }
  }

  /** Glyph `k` of token `i` of line `row` goes into the cell as many columns to the right as there are glyphs
      before it, in the colours of its token, else those of the text; it shows where nothing as high is. */
  lemma GlyphShows(item: Item, clip: Rect, row: nat, i: nat, k: nat, c: Cell)
    requires item.TextItem? && row < item.geometry.height && row < |item.lines|
    requires i < |item.lines[row]| && k < |item.lines[row][i].glyphs|
    ensures var token := item.lines[row][i];
            var x, y := item.geometry.left + Width(item.lines[row][..i]) + k, item.geometry.top + row;
            var after := DrawAll(c, TextStrokes(item, clip, x, y));
            if clip.Contains(x, y) && item.zIndex > c.zIndex then
              && after.value == token.glyphs[k] && after.inverse == item.inverse && after.zIndex == item.zIndex
              && (match token.foreground case Some(f) => after.color == f case None => after.color == item.color)
              && (match token.background
                  case Some(b) => after.bgColor == Some(b)
                  case None => after.bgColor == item.bgColor)
            else after == c
  {
    MarkOf(item.lines[row], i, k);
    var x, y := item.geometry.left + Width(item.lines[row][..i]) + k, item.geometry.top + row;
    if clip.Contains(x, y) {
      var ink := InkOf(item, Marks(item.lines[row])[x - item.geometry.left]);
      assert TextStrokes(item, clip, x, y) == [ink] && [ink][1..] == [];
    }
  }

  /** A text does nothing to the cells before, behind, above and below its lines. */
  lemma NoGlyph(item: Item, clip: Rect, x: int, y: int)
    requires item.TextItem?
    requires var row := y - item.geometry.top;
             row < 0 || row >= item.geometry.height || row >= |item.lines| || x < item.geometry.left
             || x >= item.geometry.left + Width(item.lines[row])
    ensures TextStrokes(item, clip, x, y) == []
  {
    var row := y - item.geometry.top;
    if 0 <= row < |item.lines| {
      MarksWidth(item.lines[row]);
    }
  }
}
