/** The renderer object: two buffers that are painted in turn, and the loop that writes what has
    changed (packages/tui/src/render/Renderer.ts). */
module Renderers {
  import opened Basics
  import opened Geometry
  import opened Terminals
  import opened Paint
  import opened Frames

  type Buffer = array2<Cell>

  /** The rows of a buffer. */
  function Rows(a: Buffer): Grid
    reads a
  {
    seq(a.Length0, y requires 0 <= y < a.Length0 reads a =>
      seq(a.Length1, x requires 0 <= x < a.Length1 reads a => a[y, x]))
  }

  lemma RowsShape(a: Buffer)
    ensures Shaped(Rows(a), a.Length1, a.Length0)
    ensures forall y, x | 0 <= y < a.Length0 && 0 <= x < a.Length1 :: Rows(a)[y][x] == a[y, x]
  {
  }

  lemma SameRows(a: Grid, b: Grid, width: nat, height: nat)
    requires Shaped(a, width, height) && Shaped(b, width, height)
    requires forall y, x | 0 <= y < height && 0 <= x < width :: a[y][x] == b[y][x]
    ensures a == b
  {
    forall y | 0 <= y < height ensures a[y] == b[y] {
      assert forall x | 0 <= x < width :: a[y][x] == b[y][x];
    }
  }

  method ClearBuffer(buffer: Buffer, ch: string)
    modifies buffer
    ensures forall y, x | 0 <= y < buffer.Length0 && 0 <= x < buffer.Length1 ::
              buffer[y, x] == Cleared(old(buffer[y, x]), ch)
  {
    for y := 0 to buffer.Length0
      invariant forall v, u | 0 <= v < buffer.Length0 && 0 <= u < buffer.Length1 ::
          buffer[v, u] == if v < y then Cleared(old(buffer[v, u]), ch) else old(buffer[v, u])
    {
      for x := 0 to buffer.Length1
        invariant forall v, u | 0 <= v < buffer.Length0 && 0 <= u < buffer.Length1 ::
            buffer[v, u] == if v < y || (v == y && u < x) then Cleared(old(buffer[v, u]), ch) else old(buffer[v, u])
      {
        buffer[y, x] := buffer[y, x].(value := ch, inverse := false, zIndex := MIN_SAFE_INTEGER);
      }
    }
  }

  // ---- painting in place

  lemma {:induction false} MarksConcat(a: seq<Token>, b: seq<Token>)
    ensures Marks(a + b) == Marks(a) + Marks(b)
  {
    if a == [] {
      assert a + b == b;
    } else {
      assert (a + b)[1..] == a[1..] + b;
      MarksConcat(a[1..], b);
    }
  }

  /** The position in the line of a glyph of a token. */
  lemma MarkAt(tokens: seq<Token>, i: nat, k: nat)
    requires i < |tokens| && k < |tokens[i].glyphs|
    ensures var n := |Marks(tokens[..i])| + k;
            n < |Marks(tokens)|
              && Marks(tokens)[n] == Mark(tokens[i].glyphs[k], tokens[i].foreground, tokens[i].background)
  {
    assert tokens == tokens[..i] + [tokens[i]] + tokens[i + 1..];
    MarksConcat(tokens[..i] + [tokens[i]], tokens[i + 1..]);
    MarksConcat(tokens[..i], [tokens[i]]);
    assert Marks([tokens[i]])
      == Map(tokens[i].glyphs, (v: string) => Mark(v, tokens[i].foreground, tokens[i].background)) + [];
  }

  lemma MarksSnoc(tokens: seq<Token>, i: nat)
    requires i < |tokens|
    ensures |Marks(tokens[..i + 1])| == |Marks(tokens[..i])| + |tokens[i].glyphs|
  {
    assert tokens[..i + 1] == tokens[..i] + [tokens[i]];
    MarksConcat(tokens[..i], [tokens[i]]);
  }

  /** One glyph of a text. */
  method RenderGlyph(buffer: Buffer, item: Item, clip: Rect, token: Token, ch: string, x: int, y: int)
    requires item.TextItem? && 0 <= y < buffer.Length0
    modifies buffer
    ensures forall v, u | 0 <= v < buffer.Length0 && 0 <= u < buffer.Length1 ::
              buffer[v, u] == if v == y && u == x && clip.left <= x < clip.left + clip.width
                              then Draw(old(buffer[v, u]), InkOf(item, Mark(ch, token.foreground, token.background)))
                              else old(buffer[v, u])
  {
    if x >= clip.left && x < clip.left + clip.width {
      if 0 <= x < buffer.Length1 && item.zIndex > buffer[y, x].zIndex {
        buffer[y, x] := Cell(ch,
                             if token.foreground.Some? then token.foreground.value else item.color,
                             if token.background.Some? then token.background else item.bgColor,
                             item.inverse,
                             item.zIndex);
      }
    }
  }

  /** The glyphs of one token, from column `x0` on. */
  method RenderToken(buffer: Buffer, item: Item, clip: Rect, ghost tokens: seq<Token>, ghost i: nat, token: Token,
          x0: int, y: int)
    returns (x: int)
    requires item.TextItem? && 0 <= y - item.geometry.top < item.geometry.height && y - item.geometry.top < |item.lines|
    requires tokens == item.lines[y - item.geometry.top] && i < |tokens| && token == tokens[i]
    requires x0 == item.geometry.left + |Marks(tokens[..i])|
    requires clip.top <= y < clip.top + clip.height && 0 <= y < buffer.Length0
    modifies buffer
    ensures x == item.geometry.left + |Marks(tokens[..i + 1])| && x0 <= x
    ensures forall v, u | 0 <= v < buffer.Length0 && 0 <= u < buffer.Length1 ::
              buffer[v, u] == if v == y && x0 <= u < x then DrawAll(old(buffer[v, u]), TextStrokes(item, clip, u, y))
                              else old(buffer[v, u])
  {
    x := x0;
    for k := 0 to |token.glyphs|
      invariant x == x0 + k
      invariant forall v, u | 0 <= v < buffer.Length0 && 0 <= u < buffer.Length1 ::
          buffer[v, u] == if v == y && x0 <= u < x then DrawAll(old(buffer[v, u]), TextStrokes(item, clip, u, y))
                          else old(buffer[v, u])
    {
      MarkAt(tokens, i, k);
      RenderGlyph(buffer, item, clip, token, token.glyphs[k], x, y);
      x := x + 1;
    }
    MarksSnoc(tokens, i);
  }

  /** One line of a text, into the row of the buffer it falls on. */
  method RenderLine(buffer: Buffer, item: Item, clip: Rect, lineIndex: nat, y: int)
    requires item.TextItem? && y == item.geometry.top + lineIndex && lineIndex < item.geometry.height
    requires clip.top <= y < clip.top + clip.height && 0 <= y < buffer.Length0
    modifies buffer
    ensures forall v, u | 0 <= v < buffer.Length0 && 0 <= u < buffer.Length1 ::
              buffer[v, u] == if v == y then DrawAll(old(buffer[v, u]), TextStrokes(item, clip, u, y))
                else old(buffer[v, u])
  {
    var tokens := if lineIndex < |item.lines| then item.lines[lineIndex] else [];
    var x := item.geometry.left;
    for i := 0 to |tokens|
      invariant x == item.geometry.left + |Marks(tokens[..i])|
      invariant forall v, u | 0 <= v < buffer.Length0 && 0 <= u < buffer.Length1 ::
          buffer[v, u] == if v == y && u < x then DrawAll(old(buffer[v, u]), TextStrokes(item, clip, u, y))
            else old(buffer[v, u])
    {
      x := RenderToken(buffer, item, clip, tokens, i, tokens[i], x, y);
    }
    assert tokens[..|tokens|] == tokens;
  }

  method RenderText(buffer: Buffer, item: Item, clip: Rect)
    requires item.TextItem?
    modifies buffer
    ensures forall v, u | 0 <= v < buffer.Length0 && 0 <= u < buffer.Length1 ::
              buffer[v, u] == DrawAll(old(buffer[v, u]), TextStrokes(item, clip, u, v))
  {
    var y := item.geometry.top;
    var lineIndex := 0;
    while lineIndex < item.geometry.height
      invariant 0 <= lineIndex && y == item.geometry.top + lineIndex
      invariant forall v, u | 0 <= v < buffer.Length0 && 0 <= u < buffer.Length1 ::
          buffer[v, u] == if v < y then DrawAll(old(buffer[v, u]), TextStrokes(item, clip, u, v)) else old(buffer[v, u])
    {
      if clip.top <= y < clip.top + clip.height && 0 <= y < buffer.Length0 {
        RenderLine(buffer, item, clip, lineIndex, y);
      }
      lineIndex, y := lineIndex + 1, y + 1;
    }
  }

  /** The border of a box, and blanks inside it. */
  method RenderBorder(buffer: Buffer, item: Item, clip: Rect)
    requires item.BoxItem? && HasBorder(item)
    modifies buffer
    ensures forall v, u | 0 <= v < buffer.Length0 && 0 <= u < buffer.Length1 ::
              buffer[v, u] == DrawAll(old(buffer[v, u]), BoxStrokes(item, clip, u, v))
  {
    var bottom := item.geometry.top + item.geometry.height;
    var y := item.geometry.top;
    while y < bottom
      invariant item.geometry.top <= y
      invariant forall v, u | 0 <= v < buffer.Length0 && 0 <= u < buffer.Length1 ::
          buffer[v, u] == if v < y then DrawAll(old(buffer[v, u]), BoxStrokes(item, clip, u, v)) else old(buffer[v, u])
    {
      if clip.top <= y < clip.top + clip.height && 0 <= y < buffer.Length0 {
        RenderBorderRow(buffer, item, clip, y);
      }
      y := y + 1;
    }
  }

  method RenderBorderRow(buffer: Buffer, item: Item, clip: Rect, y: int)
    requires item.BoxItem? && HasBorder(item) && item.geometry.top <= y < item.geometry.top + item.geometry.height
    requires clip.top <= y < clip.top + clip.height && 0 <= y < buffer.Length0
    modifies buffer
    ensures forall v, u | 0 <= v < buffer.Length0 && 0 <= u < buffer.Length1 ::
              buffer[v, u] == if v == y then DrawAll(old(buffer[v, u]), BoxStrokes(item, clip, u, v))
                else old(buffer[v, u])
  {
    var right := item.geometry.left + item.geometry.width;
    var x := item.geometry.left;
    while x < right
      invariant item.geometry.left <= x
      invariant forall v, u | 0 <= v < buffer.Length0 && 0 <= u < buffer.Length1 ::
          buffer[v, u] == if v == y && u < x then DrawAll(old(buffer[v, u]), BoxStrokes(item, clip, u, v))
            else old(buffer[v, u])
    {
      if clip.left <= x < clip.left + clip.width && 0 <= x < buffer.Length1 {
        buffer[y, x] := buffer[y, x].(bgColor := None, color := item.borderColor.value, inverse := false,
                                      value := BorderGlyph(item.geometry, x, y));
      }
      x := x + 1;
    }
  }

  method RenderItem(buffer: Buffer, item: Item, container: Rect)
    modifies buffer
    ensures forall v, u | 0 <= v < buffer.Length0 && 0 <= u < buffer.Length1 ::
              buffer[v, u] == DrawAll(old(buffer[v, u]), Strokes(item, container, u, v))
    decreases item, 1
  {
    var clip := RectIntersection(item.geometry, container);
    if clip.None? {
      return;
    }
    match item
    case TextItem(_, _, _, _, _, _, _) => RenderText(buffer, item, clip.value);
    case CursorItem(_, _, _) =>
    case BoxItem(_, _, _, _, _) => RenderBox(buffer, item, clip.value);
  }

  method RenderBox(buffer: Buffer, item: Item, clip: Rect)
    requires item.BoxItem?
    modifies buffer
    ensures forall v, u | 0 <= v < buffer.Length0 && 0 <= u < buffer.Length1 ::
              buffer[v, u] == DrawAll(old(buffer[v, u]),
                                      BoxStrokes(item, clip, u, v)
                                        + ChildStrokes(item.children, clip, Inside(item, clip), u, v))
    decreases item, 0
  {
    ghost var inside := Inside(item, clip);
    if HasBorder(item) {
      RenderBorder(buffer, item, clip);
    }
    var insideBorderContainer :=
      if HasBorder(item) then Rect(clip.left + 1, clip.top + 1, clip.width - 2, clip.height - 2) else clip;
    label bordered:
    for i := 0 to |item.children|
      invariant forall v, u | 0 <= v < buffer.Length0 && 0 <= u < buffer.Length1 ::
          buffer[v, u] == DrawAll(old@bordered(buffer[v, u]), ChildStrokes(item.children[..i], clip, inside, u, v))
    {
      var child := item.children[i];
      label before:
      RenderItem(buffer, child, if child.canRenderOnBorder then clip else insideBorderContainer);
      forall v, u | 0 <= v < buffer.Length0 && 0 <= u < buffer.Length1
        ensures buffer[v, u]
                == DrawAll(old@bordered(buffer[v, u]), ChildStrokes(item.children[..i + 1], clip, inside, u, v))
      {
        ChildStrokesSnoc(item.children, i, clip, inside, u, v);
        DrawConcat(old@bordered(buffer[v, u]), ChildStrokes(item.children[..i], clip, inside, u, v),
                   Strokes(child, if child.canRenderOnBorder then clip else inside, u, v));
      }
    }
    assert item.children[..|item.children|] == item.children;
    forall v, u | 0 <= v < buffer.Length0 && 0 <= u < buffer.Length1
      ensures buffer[v, u] == DrawAll(old(buffer[v, u]),
                                      BoxStrokes(item, clip, u, v) + ChildStrokes(item.children, clip, inside, u, v))
    {
      DrawConcat(old(buffer[v, u]), BoxStrokes(item, clip, u, v), ChildStrokes(item.children, clip, inside, u, v));
    }
  }

  // ---- writing what changed

  lemma {:induction false} EmitSnoc(e: Emitter, js: seq<Job>, j: Job)
    ensures var (e1, c1) := EmitAll(e, js);
            EmitAll(e, js + [j]) == (EmitOne(e1, j).0, c1 + EmitOne(e1, j).1)
    decreases |js|
  {
    if js == [] {
      assert [] + [j] == [j] && [j][1..] == [];
      assert EmitOne(e, j).1 + [] == EmitOne(e, j).1 && [] + EmitOne(e, j).1 == EmitOne(e, j).1;
    } else {
      assert (js + [j])[1..] == js[1..] + [j];
      EmitSnoc(EmitOne(e, js[0]).0, js[1..], j);
      var (e2, c2) := EmitAll(EmitOne(e, js[0]).0, js[1..]);
      ConcatAssoc(EmitOne(e, js[0]).1, c2, EmitOne(e2, j).1);
    }
  }

  /** The local variables are those of an emitter that has done these jobs; at the end of a row the
      column is forgotten. */
  ghost predicate Emitted(done: seq<Job>, out: seq<Command>, v: Emitter, y: int) {
    var (e, cs) := EmitAll(NewEmitter, done);
    && out == cs && v.nextY == e.nextY && v.lastKey == e.lastKey && v.lastStyle == e.lastStyle && v.cache == e.cache
    && e.nextY <= y && (v.nextX == e.nextX || (v.nextX == -1 && e.nextY < y))
  }

  lemma EmittedStep(done: seq<Job>, out: seq<Command>, v: Emitter, j: Job)
    requires Emitted(done, out, v, j.y)
    ensures Emitted(done + [j], out + EmitOne(v, j).1, EmitOne(v, j).0, j.y)
  {
    EmitSnoc(NewEmitter, done, j);
    var e := EmitAll(NewEmitter, done).0;
    assert EmitOne(v, j) == EmitOne(e, j);
  }

  /** One character, written with the local variables `v`. */
  method WriteCharacter(v: Emitter, ch: Cell, x: nat, y: nat) returns (v': Emitter, out: seq<Command>)
    ensures (v', out) == EmitOne(v, Job(x, y, ch))
  {
    out := [];
    v' := v;
    if y != v.nextY || x != v.nextX {
      out := out + [CursorTo(x, y)];
      v' := v'.(nextY := y);
    }
    var key := ColorKey(ch);
    if key != v.lastKey {
      if v.lastStyle.Some? {
        out := out + [Close(v.lastStyle.value)];
      }
      if key !in v'.cache {
        v' := v'.(cache := v'.cache[key := StyleOf(ch)]);
      }
      out := out + [Open(v'.cache[key])];
      v' := v'.(lastStyle := Some(v'.cache[key]), lastKey := key);
    }
    out := out + [Write(ch.value)];
    v' := v'.(nextX := x + 1);
    assert out == EmitOne(v, Job(x, y, ch)).1;
  }

  method RenderBuffer(buffer: Buffer, lastBuffer: Buffer) returns (out: seq<Command>)
    ensures out == Output(JobsFrom(Rows(buffer), Some(Rows(lastBuffer)), 0))
  {
    ghost var g, last := Rows(buffer), Some(Rows(lastBuffer));
    RowsShape(buffer);
    ghost var done: seq<Job> := [];
    var v := NewEmitter;
    out := [];
    for y := 0 to buffer.Length0
      invariant Emitted(done, out, v, y) && done + JobsFrom(g, last, y) == JobsFrom(g, last, 0)
    {
      ConcatAssoc(done, RowJobs(g, last, y, 0), JobsFrom(g, last, y + 1));
      v, out := RenderRow(buffer, lastBuffer, y, v, out, done);
      done := done + RowJobs(g, last, y, 0);
      v := v.(nextX := -1);
    }
    assert done + [] == done;
    if v.lastStyle.Some? {
      out := out + [Close(v.lastStyle.value)];
    } else {
      assert out + [] == out;
    }
  }

  method RenderRow(buffer: Buffer, lastBuffer: Buffer, y: nat, v0: Emitter, out0: seq<Command>, ghost done0: seq<Job>)
    returns (v: Emitter, out: seq<Command>)
    requires y < buffer.Length0 && |Rows(buffer)| > y && Emitted(done0, out0, v0, y)
    ensures Emitted(done0 + RowJobs(Rows(buffer), Some(Rows(lastBuffer)), y, 0), out, v, y)
  {
    ghost var g, last := Rows(buffer), Some(Rows(lastBuffer));
    RowsShape(buffer);
    RowsShape(lastBuffer);
    ghost var done := done0;
    v, out := v0, out0;
    for x := 0 to buffer.Length1
      invariant Emitted(done, out, v, y) && done + RowJobs(g, last, y, x) == done0 + RowJobs(g, last, y, 0)
    {
      if y == buffer.Length0 - 1 && x == buffer.Length1 - 1 {
        assert done + [] == done;
        return;
      }
      var ch := buffer[y, x];
      RowJobsStep(g, last, y, x, done);
      if y >= lastBuffer.Length0 || x >= lastBuffer.Length1 || !SameCharacter(ch, lastBuffer[y, x]) {
        EmittedStep(done, out, v, Job(x, y, ch));
        var written: seq<Command>;
        v, written := WriteCharacter(v, ch, x, y);
        out, done := out + written, done + [Job(x, y, ch)];
      }
    }
    assert done + [] == done;
  }

  lemma RowJobsStep(g: Grid, last: Option<Grid>, y: nat, x: nat, done: seq<Job>)
    requires y < |g| && x < |g[y]| && !LastCell(g, x, y)
    ensures done + RowJobs(g, last, y, x)
         == (if Changed(g, last, x, y) then done + [Job(x, y, g[y][x])] else done) + RowJobs(g, last, y, x + 1)
  {
    if Changed(g, last, x, y) {
      ConcatAssoc(done, [Job(x, y, g[y][x])], RowJobs(g, last, y, x + 1));
    } else {
      assert [] + RowJobs(g, last, y, x + 1) == RowJobs(g, last, y, x + 1);
    }
  }

  // ---- the renderer

  method CreateBuffer(width: nat, height: nat) returns (buffer: Buffer)
    ensures fresh(buffer) && Rows(buffer) == Blank(width, height)
  {
    buffer := new Cell[height, width]((y, x) => BlankCell);
    RowsShape(buffer);
    SameRows(Rows(buffer), Blank(width, height), width, height);
  }

  method PaintBuffer(buffer: Buffer, root: Item)
    modifies buffer
    ensures Rows(buffer) == Painted(old(Rows(buffer)), root)
  {
    ghost var g := Rows(buffer);
    RowsShape(buffer);
    ClearBuffer(buffer, " ");
    var placed := Placed(root);
    RenderItem(buffer, placed, placed.geometry);
    MapGridCells(g, Painting(root), buffer.Length1, buffer.Length0);
    RowsShape(buffer);
    SameRows(Rows(buffer), Painted(g, root), buffer.Length1, buffer.Length0);
  }

  method WipeBuffer(buffer: Buffer)
    modifies buffer
    ensures Rows(buffer) == Wiped(old(Rows(buffer)))
  {
    ghost var g := Rows(buffer);
    RowsShape(buffer);
    ClearBuffer(buffer, "");
    MapGridCells(g, Wiping(""), buffer.Length1, buffer.Length0);
    RowsShape(buffer);
    SameRows(Rows(buffer), Wiped(g), buffer.Length1, buffer.Length0);
  }

  /** `findRenderItem` for the cursor, in the order of the tree. */
  method FindCursorItem(start: Item) returns (found: Option<Item>)
    ensures found == FindCursor(start)
    decreases start
  {
    match start
    case TextItem(_, _, _, _, _, _, _) => return None;
    case CursorItem(_, _, _) => return Some(start);
    case BoxItem(_, _, _, _, children) =>
      for i := 0 to |children|
        invariant FindCursorAmong(children) == FindCursorAmong(children[i..])
      {
        assert children[i..][0] == children[i] && children[i..][1..] == children[i + 1..];
        var foundItem := FindCursorItem(children[i]);
        if foundItem.Some? {
          return foundItem;
        }
      }
      return None;
  }

  method PlaceCursor(root: Item) returns (out: seq<Command>)
    ensures out == CursorOutput(root)
  {
    var cursorRenderItem := FindCursorItem(Placed(root));
    if cursorRenderItem.Some? {
      var geometry := cursorRenderItem.value.geometry;
      out := [ShowCursor, CursorTo(geometry.left, geometry.top)];
    } else {
      out := [HideCursor];
    }
  }

  /** The index of the other of the two buffers, the next one modulo two. */
  function Other(bufferIndex: nat): nat
    requires bufferIndex < 2
  {
    1 - bufferIndex
  }

  /** Paints one buffer, writes what differs from the other, and places the cursor. */
  method PaintAndWrite(buffer: Buffer, lastBuffer: Buffer, root: Item) returns (out: seq<Command>)
    requires buffer != lastBuffer
    modifies buffer
    ensures Rows(buffer) == Painted(old(Rows(buffer)), root) && Rows(lastBuffer) == old(Rows(lastBuffer))
    ensures out == Written(Rows(buffer), Rows(lastBuffer), root)
  {
    PaintBuffer(buffer, root);
    var written := RenderBuffer(buffer, lastBuffer);
    var cursor := PlaceCursor(root);
    out := written + cursor;
  }

  class Renderer {
    var width: nat
    var height: nat
    var previousWidth: nat
    var previousHeight: nat
    var buffers: seq<Buffer>
    var bufferIndex: nat

    ghost predicate Valid()
      reads this
    {
      && bufferIndex < 2 && width == previousWidth && height == previousHeight
      && (buffers == [] ==> width == 0 && height == 0)
      && (buffers != [] ==> |buffers| == 2 && buffers[0] != buffers[1])
    }

    ghost function View(): View
      reads this, buffers
      requires Valid()
    {
      if buffers == [] then NoView
      else Frames.View(width, height, Rows(buffers[bufferIndex]), Rows(buffers[1 - bufferIndex]))
    }

    constructor ()
      ensures Valid() && View() == NoView && buffers == []
    {
      width, height, previousWidth, previousHeight, bufferIndex := 0, 0, 0, 0, 0;
      buffers := [];
    }

    /** One frame on a terminal of this size; `root` is the laid out tree. A first frame of no size at
        all finds no buffer and throws. */
    method Render(root: Item, columns: nat, rows: nat) returns (out: Option<seq<Command>>)
      requires Valid()
      modifies this, buffers
      ensures Valid() && (buffers == old(buffers) || fresh(set b | b in buffers))
      ensures out == if old(buffers) == [] && columns == 0 && rows == 0 then None
                     else Some(FrameOutput(old(View()), columns, rows, root))
      ensures View() == if out.None? then old(View()) else Frame(old(View()), columns, rows, root)
    {
      hide Frame, FrameOutput;
      ghost var v := View();
      var ready := Resize(columns, rows, v);
      if ready {
        out := ShowFrame(root, columns, rows, v);
      } else {
        out := None;
      }
    }

    /** The frame after the change of size. */
    method ShowFrame(root: Item, columns: nat, rows: nat, ghost v: View) returns (out: Option<seq<Command>>)
      requires bufferIndex < 2 && |buffers| == 2 && buffers[0] != buffers[1] && width == columns && height == rows
      requires Rows(buffers[bufferIndex]) == (if Resized(v, columns, rows) then Blank(columns, rows) else v.next)
      requires Rows(buffers[1 - bufferIndex]) == Compared(v, columns, rows)
      modifies this`previousWidth, this`previousHeight, this`bufferIndex, buffers[bufferIndex]
      ensures Valid() && View() == Frame(v, columns, rows, root) && out == Some(FrameOutput(v, columns, rows, root))
    {
      var written := Show(root, Rows(buffers[bufferIndex]), Rows(buffers[1 - bufferIndex]));
      out := Some(written);
    }

    /** Takes the new size; after a change of size both buffers are new. */
    method Resize(columns: nat, rows: nat, ghost v: View) returns (ready: bool)
      requires Valid() && v == View()
      modifies this`width, this`height, this`buffers
      ensures bufferIndex < 2 && width == columns && height == rows
      ensures buffers == old(buffers) || fresh(set b | b in buffers)
      ensures ready <==> buffers != []
      ensures !ready <==> old(buffers) == [] && columns == 0 && rows == 0
      ensures ready ==> |buffers| == 2 && buffers[0] != buffers[1]
      ensures ready ==>
                Rows(buffers[bufferIndex]) == (if Resized(v, columns, rows) then Blank(columns, rows) else v.next)
      ensures ready ==> Rows(buffers[1 - bufferIndex]) == Compared(v, columns, rows)
    {
      width, height := columns, rows;
      if width != previousWidth || height != previousHeight {
        CreateBuffers();
      }
      ready := buffers != [];
    }

    /** Paints the one buffer, writes what differs from the other and places the cursor; then the two
        change places. */
    method Show(root: Item, ghost g: Grid, ghost last: Grid) returns (out: seq<Command>)
      requires bufferIndex < 2 && |buffers| == 2 && buffers[0] != buffers[1]
      requires Rows(buffers[bufferIndex]) == g && Rows(buffers[1 - bufferIndex]) == last
      modifies this`previousWidth, this`previousHeight, this`bufferIndex, buffers[bufferIndex]
      ensures Valid()
      ensures Rows(buffers[bufferIndex]) == last && Rows(buffers[1 - bufferIndex]) == Painted(g, root)
      ensures out == Written(Painted(g, root), last, root)
    {
      var buffer, lastBuffer := buffers[bufferIndex], buffers[Other(bufferIndex)];
      out := PaintAndWrite(buffer, lastBuffer, root);
      ChangePlaces();
    }

    /** The frame is done: the buffers change places. */
    method ChangePlaces()
      requires bufferIndex < 2 && |buffers| == 2 && buffers[0] != buffers[1]
      modifies this`previousWidth, this`previousHeight, this`bufferIndex
      ensures Valid() && bufferIndex == 1 - old(bufferIndex)
      ensures buffers[bufferIndex] == old(buffers[1 - bufferIndex])
              && buffers[1 - bufferIndex] == old(buffers[bufferIndex])
    {
      previousWidth, previousHeight := width, height;
      bufferIndex := Other(bufferIndex);
    }

    /** Both buffers are new, and the one compared with shows nothing. */
    method CreateBuffers()
      requires bufferIndex < 2
      modifies this`buffers
      ensures |buffers| == 2 && buffers[0] != buffers[1] && fresh(set b | b in buffers)
      ensures Rows(buffers[bufferIndex]) == Blank(width, height)
      ensures Rows(buffers[1 - bufferIndex]) == Wiped(Blank(width, height))
    {
      var first := CreateBuffer(width, height);
      var second := CreateBuffer(width, height);
      buffers := [first, second];
      WipeBuffer(buffers[Other(bufferIndex)]);
    }
  }
}
