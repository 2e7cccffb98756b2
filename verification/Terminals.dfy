/** A terminal, the output written to it, and the full and the differential way to show a
    buffer of characters on it (packages/tui/src/render/Renderer.ts). */
module Terminals {
  import opened Basics

  // ---- characters and buffers

  const MIN_SAFE_INTEGER := -9007199254740991

  datatype Cell = Cell(value: string, color: string, bgColor: Option<string>, inverse: bool, zIndex: int)

  type Grid = seq<seq<Cell>>

  predicate Shaped(g: Grid, width: nat, height: nat) {
    |g| == height && forall y | 0 <= y < height :: |g[y]| == width
  }

  /** `isCharacterEqual`: the z-index does not count. */
  predicate SameCharacter(a: Cell, b: Cell) {
    a.value == b.value && a.bgColor == b.bgColor && a.color == b.color && a.inverse == b.inverse
  }

  /** What an opening escape sequence sets. */
  datatype Style = Style(foreground: Option<string>, background: Option<string>, inverse: bool)

  const Plain := Style(None, None, false)

  /** The style of a character: where there is a background, the foreground colour is dropped. */
  function StyleOf(ch: Cell): Style {
    if ch.bgColor.Some? && ch.bgColor.value != "" then Style(None, ch.bgColor, ch.inverse)
    else Style(Some(ch.color), None, ch.inverse)
  }

  /** The text under which the style of a character is cached; colours are put together without a
      separator. */
  function ColorKey(ch: Cell): (key: string)
    ensures key != ""
  {
    ch.color + (if ch.bgColor.Some? then ch.bgColor.value else "undefined") + (if ch.inverse then "t" else "f")
  }

  // ---- the terminal

  type Pos = (int, int)

  datatype Glyph = Glyph(value: string, style: Style)

  datatype Command =
    | CursorTo(x: int, y: int)
    | ShowCursor
    | HideCursor
    | Open(style: Style)
    | Close(style: Style)
    | Write(value: string)

  /** `cursor` is unknown after the last column, and `lost` once something was written there;
      `written` lists the cells written to, in order. */
  datatype Terminal = Terminal(
    width: nat, height: nat,
    screen: map<Pos, Glyph>,
    cursor: Option<Pos>,
    cursorShown: bool,
    style: Style,
    written: seq<Pos>,
    lost: bool)

  /** The current style under an opening sequence. */
  function Over(s: Style, on: Style): Style {
    Style(if s.foreground.Some? then s.foreground else on.foreground,
          if s.background.Some? then s.background else on.background,
          s.inverse || on.inverse)
  }

  /** A closing sequence takes back what the opening one set. */
  function Without(on: Style, s: Style): Style {
    Style(if s.foreground.Some? then None else on.foreground,
          if s.background.Some? then None else on.background,
          on.inverse && !s.inverse)
  }

  function Exec(t: Terminal, c: Command): Terminal {
    match c
    case CursorTo(x, y) => t.(cursor := if 0 <= x < t.width && 0 <= y < t.height then Some((x, y)) else None)
    case ShowCursor => t.(cursorShown := true)
    case HideCursor => t.(cursorShown := false)
    case Open(s) => t.(style := Over(s, t.style))
    case Close(s) => t.(style := Without(t.style, s))
    case Write(v) =>
      if t.cursor.None? then t.(lost := true)
      else
        var p := t.cursor.value;
        t.(screen := t.screen[p := Glyph(v, t.style)],
           cursor := if p.0 + 1 < t.width then Some((p.0 + 1, p.1)) else None,
           written := t.written + [p])
  }

  function ExecAll(t: Terminal, cs: seq<Command>): Terminal
    decreases |cs|
  {
    if cs == [] then t else ExecAll(Exec(t, cs[0]), cs[1..])
  }

  lemma {:induction false} ExecConcat(t: Terminal, a: seq<Command>, b: seq<Command>)
    ensures ExecAll(t, a + b) == ExecAll(ExecAll(t, a), b)
    decreases |a|
  {
    if a == [] {
      assert a + b == b;
    } else {
      assert (a + b)[1..] == a[1..] + b;
      ExecConcat(Exec(t, a[0]), a[1..], b);
    }
  }

  // ---- what to write

  /** A character to be shown at a position. */
  datatype Job = Job(x: nat, y: nat, ch: Cell)

  /** The bottom right cell is never written: the terminal might scroll. */
  predicate LastCell(g: Grid, x: nat, y: nat)
    requires y < |g|
  {
    y == |g| - 1 && x == |g[y]| - 1
  }

  /** The cell is written when the previous buffer shows something else there, or nothing is known. */
  predicate Changed(g: Grid, last: Option<Grid>, x: nat, y: nat)
    requires y < |g| && x < |g[y]|
  {
    last.None? || y >= |last.value| || x >= |last.value[y]| || !SameCharacter(g[y][x], last.value[y][x])
  }

  function RowJobs(g: Grid, last: Option<Grid>, y: nat, x: nat): seq<Job>
    requires y < |g| && x <= |g[y]|
    decreases |g[y]| - x
  {
    if x == |g[y]| || LastCell(g, x, y) then []
    else (if Changed(g, last, x, y) then [Job(x, y, g[y][x])] else []) + RowJobs(g, last, y, x + 1)
  }

  /** The changed cells from row `y` on, row by row. Without a previous buffer these are all cells. */
  function JobsFrom(g: Grid, last: Option<Grid>, y: nat): seq<Job>
    requires y <= |g|
    decreases |g| - y
  {
    if y == |g| then [] else RowJobs(g, last, y, 0) + JobsFrom(g, last, y + 1)
  }

  // ---- how it is written

  /** The local variables of `renderBuffer`. */
  datatype Emitter = Emitter(
    nextX: int,
    nextY: int,
    lastKey: string,
    lastStyle: Option<Style>,
    cache: map<string, Style>)

  const NewEmitter := Emitter(-1, -1, "", None, map[])

  function Cached(cache: map<string, Style>, ch: Cell): map<string, Style> {
    if ColorKey(ch) in cache then cache else cache[ColorKey(ch) := StyleOf(ch)]
  }

  function EmitOne(e: Emitter, j: Job): (Emitter, seq<Command>) {
    var move := if j.y != e.nextY || j.x != e.nextX then [CursorTo(j.x, j.y)] else [];
    var key := ColorKey(j.ch);
    if key != e.lastKey then
      var cache := Cached(e.cache, j.ch);
      (Emitter(j.x + 1, j.y, key, Some(cache[key]), cache),
       move + (if e.lastStyle.Some? then [Close(e.lastStyle.value)] else []) + [Open(cache[key])] + [Write(j.ch.value)])
    else
      (e.(nextX := j.x + 1, nextY := j.y), move + [Write(j.ch.value)])
  }

  function EmitAll(e: Emitter, js: seq<Job>): (Emitter, seq<Command>)
    decreases |js|
  {
    if js == [] then (e, [])
    else
      var (e1, c1) := EmitOne(e, js[0]);
      var (e2, c2) := EmitAll(e1, js[1..]);
      (e2, c1 + c2)
  }

  function Closing(e: Emitter): seq<Command> {
    if e.lastStyle.Some? then [Close(e.lastStyle.value)] else []
  }

  /** The output for one list of jobs. */
  function Output(js: seq<Job>): seq<Command> {
    var (e, cs) := EmitAll(NewEmitter, js);
    cs + Closing(e)
  }
}
