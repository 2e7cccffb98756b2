/** The differential output refines a full redraw: it leaves the terminal showing the buffer,
    writes exactly the changed cells, each once, and skips cursor moves and style switches only
    where they make no difference. */
module DiffRender {
  import opened Basics
  import opened Terminals

  // ---- one job

  /** The local variables of `renderBuffer` know the state of the terminal. */
  ghost predicate Agrees(e: Emitter, t: Terminal) {
    && !t.lost
    && t.style == (if e.lastStyle.Some? then e.lastStyle.value else Plain)
    && (0 <= e.nextX < t.width ==> t.cursor == Some((e.nextX, e.nextY)))
    && (if e.lastStyle.Some? then e.lastKey in e.cache && e.cache[e.lastKey] == e.lastStyle.value else e.lastKey == "")
  }

  lemma CloseAndOpen(before: Style, s: Style)
    ensures Without(before, before) == Plain && Over(s, Plain) == s
  {
  }

  lemma MoveEffect(e: Emitter, j: Job, t: Terminal)
    requires Agrees(e, t) && j.x < t.width && j.y < t.height
    ensures var move := if j.y != e.nextY || j.x != e.nextX then [CursorTo(j.x, j.y)] else [];
            ExecAll(t, move) == t.(cursor := Some((j.x, j.y)))
  {
  }

  function Switch(e: Emitter, s: Style): seq<Command> {
    (if e.lastStyle.Some? then [Close(e.lastStyle.value)] else []) + [Open(s)]
  }

  lemma StyleEffect(e: Emitter, ch: Cell, t: Terminal)
    requires Agrees(e, t) && ColorKey(ch) != e.lastKey
    ensures var s := Cached(e.cache, ch)[ColorKey(ch)]; ExecAll(t, Switch(e, s)) == t.(style := s)
  {
    var s := Cached(e.cache, ch)[ColorKey(ch)];
    if e.lastStyle.Some? {
      CloseAndOpen(e.lastStyle.value, s);
      ExecConcat(t, [Close(e.lastStyle.value)], [Open(s)]);
    } else {
      CloseAndOpen(Plain, s);
      assert [] + [Open(s)] == [Open(s)];
    }
  }

  /** The terminal after one job. */
  function Wrote(t: Terminal, j: Job, s: Style): Terminal {
    t.(screen := t.screen[(j.x, j.y) := Glyph(j.ch.value, s)],
       cursor := if j.x + 1 < t.width then Some((j.x + 1, j.y)) else None,
       style := s,
       written := t.written + [(j.x, j.y)])
  }

  lemma WriteEffect(t: Terminal, j: Job)
    requires t.cursor == Some((j.x, j.y))
    ensures ExecAll(t, [Write(j.ch.value)]) == Wrote(t, j, t.style)
  {
  }

  function Moves(e: Emitter, j: Job): seq<Command> {
    if j.y != e.nextY || j.x != e.nextX then [CursorTo(j.x, j.y)] else []
  }

  lemma EmitOneParts(e: Emitter, j: Job)
    ensures ColorKey(j.ch) != e.lastKey ==>
              EmitOne(e, j).1 == Moves(e, j) + Switch(e, Cached(e.cache, j.ch)[ColorKey(j.ch)]) + [Write(j.ch.value)]
    ensures ColorKey(j.ch) == e.lastKey ==> EmitOne(e, j).1 == Moves(e, j) + [Write(j.ch.value)]
  {
  }

  lemma EmitOneEffect(e: Emitter, j: Job, t: Terminal)
    requires Agrees(e, t) && j.x < t.width && j.y < t.height
    ensures var (e1, cs) := EmitOne(e, j);
            && e1.cache == Cached(e.cache, j.ch)
            && ExecAll(t, cs) == Wrote(t, j, e1.cache[ColorKey(j.ch)])
            && Agrees(e1, ExecAll(t, cs))
  {
    var t1 := t.(cursor := Some((j.x, j.y)));
    var write := [Write(j.ch.value)];
    MoveEffect(e, j, t);
    EmitOneParts(e, j);
    if ColorKey(j.ch) != e.lastKey {
      var s := Cached(e.cache, j.ch)[ColorKey(j.ch)];
      StyleEffect(e.(nextX := -1), j.ch, t1);
      ExecConcat(t, Moves(e, j), Switch(e, s));
      ExecConcat(t, Moves(e, j) + Switch(e, s), write);
      WriteEffect(t1.(style := s), j);
      assert ExecAll(t, EmitOne(e, j).1) == Wrote(t, j, s);
    } else {
      ExecConcat(t, Moves(e, j), write);
      WriteEffect(t1, j);
    }
  }

  // ---- a list of jobs

  ghost predicate InRange(js: seq<Job>, width: nat, height: nat) {
    forall i | 0 <= i < |js| :: js[i].x < width && js[i].y < height
  }

  function FinalCache(cache: map<string, Style>, js: seq<Job>): map<string, Style>
    decreases |js|
  {
    if js == [] then cache else FinalCache(Cached(cache, js[0].ch), js[1..])
  }

  /** The style a character is shown in when the cache is as given. */
  function ShownStyle(cache: map<string, Style>, ch: Cell): Style {
    if ColorKey(ch) in cache then cache[ColorKey(ch)] else StyleOf(ch)
  }

  function PutAll(screen: map<Pos, Glyph>, js: seq<Job>, cache: map<string, Style>): map<Pos, Glyph>
    decreases |js|
  {
    if js == [] then screen
    else PutAll(screen[(js[0].x, js[0].y) := Glyph(js[0].ch.value, ShownStyle(cache, js[0].ch))], js[1..], cache)
  }

  function Positions(js: seq<Job>): seq<Pos> {
    Map(js, (j: Job) => (j.x, j.y))
  }

  lemma {:induction false} CacheGrows(cache: map<string, Style>, js: seq<Job>)
    ensures forall k | k in cache :: k in FinalCache(cache, js) && FinalCache(cache, js)[k] == cache[k]
    ensures forall j | j in js :: ColorKey(j.ch) in FinalCache(cache, js)
    decreases |js|
  {
    if js != [] {
      CacheGrows(Cached(cache, js[0].ch), js[1..]);
      assert js == [js[0]] + js[1..];
    }
  }

  /** Where a cached style comes from. */
  lemma {:induction false} CacheOrigin(cache: map<string, Style>, js: seq<Job>, k: string)
    requires k in FinalCache(cache, js) && k !in cache
    ensures exists j | j in js :: ColorKey(j.ch) == k && FinalCache(cache, js)[k] == StyleOf(j.ch)
    decreases |js|
  {
    assert js[0] in js;
    if ColorKey(js[0].ch) == k {
      CacheGrows(Cached(cache, js[0].ch), js[1..]);
    } else {
      CacheOrigin(Cached(cache, js[0].ch), js[1..], k);
      var j :| j in js[1..] && ColorKey(j.ch) == k && FinalCache(cache, js)[k] == StyleOf(j.ch);
      assert j in js;
    }
  }

  /** What the jobs make of the terminal, and of the local variables. */
  ghost predicate Performed(e: Emitter, t: Terminal, js: seq<Job>, e2: Emitter, t2: Terminal) {
    && Agrees(e2, t2) && e2.cache == FinalCache(e.cache, js)
    && t2.screen == PutAll(t.screen, js, FinalCache(e.cache, js))
    && t2.written == t.written + Positions(js) && t2.width == t.width && t2.height == t.height
  }

  lemma PerformedCons(e: Emitter, t: Terminal, js: seq<Job>, e1: Emitter, e2: Emitter, t2: Terminal)
    requires js != [] && e1.cache == Cached(e.cache, js[0].ch)
    requires Performed(e1, Wrote(t, js[0], e1.cache[ColorKey(js[0].ch)]), js[1..], e2, t2)
    ensures Performed(e, t, js, e2, t2)
  {
    CacheGrows(e1.cache, js[1..]);
    assert Positions(js) == [(js[0].x, js[0].y)] + Positions(js[1..]);
    ConcatAssoc(t.written, [(js[0].x, js[0].y)], Positions(js[1..]));
  }

  lemma {:induction false} EmitAllEffect(e: Emitter, js: seq<Job>, t: Terminal)
    requires Agrees(e, t) && InRange(js, t.width, t.height)
    ensures Performed(e, t, js, EmitAll(e, js).0, ExecAll(t, EmitAll(e, js).1))
    decreases |js|
  {
    if js == [] {
      assert t.written + Positions(js) == t.written;
    } else {
      var (e1, c1) := EmitOne(e, js[0]);
      var (e2, c2) := EmitAll(e1, js[1..]);
      EmitOneEffect(e, js[0], t);
      EmitAllEffect(e1, js[1..], ExecAll(t, c1));
      ExecConcat(t, c1, c2);
      PerformedCons(e, t, js, e1, e2, ExecAll(t, c1 + c2));
    }
  }

  /** The whole output of a frame: afterwards the style is plain again. */
  lemma OutputEffect(js: seq<Job>, t: Terminal)
    requires t.style == Plain && !t.lost && InRange(js, t.width, t.height)
    ensures var t' := ExecAll(t, Output(js));
            && t'.style == Plain && !t'.lost && t'.width == t.width && t'.height == t.height
            && t'.screen == PutAll(t.screen, js, FinalCache(map[], js))
            && t'.written == t.written + Positions(js)
  {
    var (e, cs) := EmitAll(NewEmitter, js);
    EmitAllEffect(NewEmitter, js, t);
    ExecConcat(t, cs, Closing(e));
    if e.lastStyle.Some? {
      CloseAndOpen(e.lastStyle.value, Plain);
    }
  }

  // ---- which cells are written

  /** Row by row, and in each row from left to right. */
  ghost predicate Before(a: Job, b: Job) {
    a.y < b.y || (a.y == b.y && a.x < b.x)
  }

  ghost predicate Ordered(js: seq<Job>) {
    forall i, k | 0 <= i < k < |js| :: Before(js[i], js[k])
  }

  lemma OrderedConcat(a: seq<Job>, b: seq<Job>)
    requires Ordered(a) && Ordered(b) && forall j, k | j in a && k in b :: Before(j, k)
    ensures Ordered(a + b)
  {
    var js := a + b;
    forall i, k | 0 <= i < k < |js| ensures Before(js[i], js[k]) {
      if k < |a| {
        assert Before(a[i], a[k]);
      } else if i >= |a| {
        assert Before(b[i - |a|], b[k - |a|]);
      } else {
        assert a[i] in a && b[k - |a|] in b;
      }
    }
  }

  lemma {:induction false} RowJobsExactly(g: Grid, last: Option<Grid>, y: nat, x0: nat)
    requires y < |g| && x0 <= |g[y]|
    ensures forall j | j in RowJobs(g, last, y, x0) ::
              j.y == y && x0 <= j.x < |g[y]| && j.ch == g[y][j.x] && !LastCell(g, j.x, y) && Changed(g, last, j.x, y)
    ensures forall x | x0 <= x < |g[y]| && !LastCell(g, x, y) && Changed(g, last, x, y) ::
              Job(x, y, g[y][x]) in RowJobs(g, last, y, x0)
    ensures Ordered(RowJobs(g, last, y, x0))
    decreases |g[y]| - x0
  {
    if x0 < |g[y]| && !LastCell(g, x0, y) {
      RowJobsExactly(g, last, y, x0 + 1);
      OrderedConcat(if Changed(g, last, x0, y) then [Job(x0, y, g[y][x0])] else [], RowJobs(g, last, y, x0 + 1));
    }
  }

  /** The cell is not the bottom right one, and there is none before it to compare with, or they differ in
      text, colours or inversion. */
  ghost predicate IsJob(g: Grid, last: Option<Grid>, x: nat, y: nat) {
    && y < |g| && x < |g[y]| && !(y == |g| - 1 && x == |g[y]| - 1)
    && (last.Some? && y < |last.value| && x < |last.value[y]| ==>
          var a, b := g[y][x], last.value[y][x];
          a.value != b.value || a.color != b.color || a.bgColor != b.bgColor || a.inverse != b.inverse)
  }

  lemma {:induction false} JobsExactly(g: Grid, last: Option<Grid>, y0: nat)
    requires y0 <= |g|
    ensures forall j | j in JobsFrom(g, last, y0) :: y0 <= j.y && IsJob(g, last, j.x, j.y) && j.ch == g[j.y][j.x]
    ensures forall x: nat, y: nat | y0 <= y && IsJob(g, last, x, y) :: Job(x, y, g[y][x]) in JobsFrom(g, last, y0)
    decreases |g| - y0
  {
    if y0 < |g| {
      RowJobsExactly(g, last, y0, 0);
      JobsExactly(g, last, y0 + 1);
    }
  }

  lemma {:induction false} JobsInOrder(g: Grid, last: Option<Grid>, y0: nat)
    requires y0 <= |g|
    ensures Ordered(JobsFrom(g, last, y0))
    decreases |g| - y0
  {
    if y0 < |g| {
      RowJobsExactly(g, last, y0, 0);
      JobsInOrder(g, last, y0 + 1);
      JobsExactly(g, last, y0 + 1);
      OrderedConcat(RowJobs(g, last, y0, 0), JobsFrom(g, last, y0 + 1));
    }
  }

  lemma {:induction false} PutAllMiss(screen: map<Pos, Glyph>, js: seq<Job>, cache: map<string, Style>, p: Pos)
    requires forall j | j in js :: (j.x, j.y) != p
    ensures p in PutAll(screen, js, cache) <==> p in screen
    ensures p in screen ==> PutAll(screen, js, cache)[p] == screen[p]
    decreases |js|
  {
    if js != [] {
      assert js == [js[0]] + js[1..];
      PutAllMiss(screen[(js[0].x, js[0].y) := Glyph(js[0].ch.value, ShownStyle(cache, js[0].ch))], js[1..], cache, p);
    }
  }

  lemma {:induction false} PutAllHit(screen: map<Pos, Glyph>, js: seq<Job>, cache: map<string, Style>, p: Pos, ch: Cell)
    requires forall j | j in js :: (j.x, j.y) == p ==> j.ch == ch
    requires (exists j | j in js :: (j.x, j.y) == p)
             || (p in screen && screen[p] == Glyph(ch.value, ShownStyle(cache, ch)))
    ensures p in PutAll(screen, js, cache) && PutAll(screen, js, cache)[p] == Glyph(ch.value, ShownStyle(cache, ch))
    decreases |js|
  {
    if js != [] {
      assert js == [js[0]] + js[1..];
      PutAllHit(screen[(js[0].x, js[0].y) := Glyph(js[0].ch.value, ShownStyle(cache, js[0].ch))], js[1..], cache, p,
                ch);
    }
  }

  // ---- frames

  /** The terminal shows the buffer in every cell but the bottom right one. */
  ghost predicate Shows(t: Terminal, g: Grid) {
    forall x: nat, y: nat | y < |g| && x < |g[y]| && !LastCell(g, x, y) :: ShowsAt(t, g, x, y)
  }

  ghost predicate ShowsAt(t: Terminal, g: Grid, x: nat, y: nat)
    requires y < |g| && x < |g[y]|
  {
    (x, y) in t.screen && t.screen[(x, y)] == Glyph(g[y][x].value, StyleOf(g[y][x]))
  }

  /** Characters cached under one text have one style. */
  ghost predicate Faithful(js: seq<Job>) {
    forall a, b | a in js && b in js && ColorKey(a.ch) == ColorKey(b.ch) :: StyleOf(a.ch) == StyleOf(b.ch)
  }

  ghost predicate Ready(t: Terminal, width: nat, height: nat) {
    t.style == Plain && !t.lost && t.width == width && t.height == height
  }

  /** The cells that are written show their value, in the style first cached under their text. */
  lemma JobShown(t: Terminal, js: seq<Job>, g: Grid, last: Option<Grid>, j: Job)
    requires js == JobsFrom(g, last, 0) && j in js && Ready(t, t.width, t.height) && InRange(js, t.width, t.height)
    ensures var t', c := ExecAll(t, Output(js)), FinalCache(map[], js);
            && ColorKey(j.ch) in c && (j.x, j.y) in t'.screen
            && t'.screen[(j.x, j.y)] == Glyph(j.ch.value, c[ColorKey(j.ch)])
  {
    OutputEffect(js, t);
    JobsExactly(g, last, 0);
    CacheGrows(map[], js);
    PutAllHit(t.screen, js, FinalCache(map[], js), (j.x, j.y), j.ch);
  }

  lemma UnwrittenStays(t: Terminal, js: seq<Job>, p: Pos)
    requires Ready(t, t.width, t.height) && InRange(js, t.width, t.height) && forall j | j in js :: (j.x, j.y) != p
    ensures var t' := ExecAll(t, Output(js));
            && (p in t'.screen <==> p in t.screen)
            && (p in t.screen ==> t'.screen[p] == t.screen[p])
  {
    OutputEffect(js, t);
    PutAllMiss(t.screen, js, FinalCache(map[], js), p);
  }

  lemma JobsInRange(g: Grid, last: Option<Grid>, width: nat, height: nat)
    requires Shaped(g, width, height)
    ensures InRange(JobsFrom(g, last, 0), width, height)
  {
    JobsExactly(g, last, 0);
    var js := JobsFrom(g, last, 0);
    forall i | 0 <= i < |js| ensures js[i].x < width && js[i].y < height {
      assert js[i] in js;
    }
  }

  /** Each frame writes exactly the changed cells, each once, never the bottom right one, and leaves
      the terminal ready for the next. */
  lemma FrameWrites(t: Terminal, g: Grid, last: Option<Grid>, width: nat, height: nat)
    requires Shaped(g, width, height) && Ready(t, width, height)
    ensures var js := JobsFrom(g, last, 0); var t' := ExecAll(t, Output(js));
            && Ready(t', width, height) && t'.written == t.written + Positions(js)
            && (forall i, k | 0 <= i < k < |js| :: Positions(js)[i] != Positions(js)[k])
            && (forall x: nat, y: nat :: (x, y) in Positions(js) <==> IsJob(g, last, x, y))
  {
    var js := JobsFrom(g, last, 0);
    JobsInRange(g, last, width, height);
    OutputEffect(js, t);
    JobsInOrder(g, last, 0);
    JobsExactly(g, last, 0);
    forall i, k | 0 <= i < k < |js| ensures Positions(js)[i] != Positions(js)[k] {
      assert Before(js[i], js[k]);
    }
    forall x: nat, y: nat ensures (x, y) in Positions(js) <==> IsJob(g, last, x, y) {
      PositionOf(js, x, y);
    }
  }

  lemma PositionOf(js: seq<Job>, x: nat, y: nat)
    ensures (x, y) in Positions(js) <==> exists j | j in js :: j.x == x && j.y == y
  {
    if (x, y) in Positions(js) {
      var i :| 0 <= i < |js| && Positions(js)[i] == (x, y);
      assert js[i] in js;
    }
    if j :| j in js && j.x == x && j.y == y {
      var i :| 0 <= i < |js| && js[i] == j;
      assert Positions(js)[i] == (x, y);
    }
  }

  lemma FaithfulStyle(js: seq<Job>, j: Job)
    requires Faithful(js) && j in js
    ensures ColorKey(j.ch) in FinalCache(map[], js) && FinalCache(map[], js)[ColorKey(j.ch)] == StyleOf(j.ch)
  {
    CacheGrows(map[], js);
    CacheOrigin(map[], js, ColorKey(j.ch));
  }

  lemma FaithfulShows(t: Terminal, g: Grid, last: Option<Grid>, width: nat, height: nat)
    requires Shaped(g, width, height) && Ready(t, width, height)
    requires last.Some? ==> Shaped(last.value, width, height) && Shows(t, last.value)
    requires Faithful(JobsFrom(g, last, 0))
    ensures Shows(ExecAll(t, Output(JobsFrom(g, last, 0))), g)
  {
    var js := JobsFrom(g, last, 0);
    var t' := ExecAll(t, Output(js));
    JobsInRange(g, last, width, height);
    JobsExactly(g, last, 0);
    forall x: nat, y: nat | y < |g| && x < |g[y]| && !LastCell(g, x, y) ensures ShowsAt(t', g, x, y) {
      if Changed(g, last, x, y) {
        var j := Job(x, y, g[y][x]);
        JobShown(t, js, g, last, j);
        FaithfulStyle(js, j);
      } else {
        UnwrittenStays(t, js, (x, y));
        assert ShowsAt(t, last.value, x, y);
      }
    }
  }

  lemma ShownIsFaithful(t: Terminal, g: Grid, last: Option<Grid>, width: nat, height: nat)
    requires Shaped(g, width, height) && Ready(t, width, height)
    requires Shows(ExecAll(t, Output(JobsFrom(g, last, 0))), g)
    ensures Faithful(JobsFrom(g, last, 0))
  {
    var js := JobsFrom(g, last, 0);
    var t' := ExecAll(t, Output(js));
    JobsInRange(g, last, width, height);
    JobsExactly(g, last, 0);
    forall a, b | a in js && b in js && ColorKey(a.ch) == ColorKey(b.ch) ensures StyleOf(a.ch) == StyleOf(b.ch) {
      JobShown(t, js, g, last, a);
      JobShown(t, js, g, last, b);
      assert ShowsAt(t', g, a.x, a.y) && ShowsAt(t', g, b.x, b.y);
    }
  }

  /** A frame leaves the terminal showing its buffer exactly when no two characters it writes share
      a cache text without sharing their style. */
  lemma FrameShowsExactly(t: Terminal, g: Grid, last: Option<Grid>, width: nat, height: nat)
    requires Shaped(g, width, height) && Ready(t, width, height)
    requires last.Some? ==> Shaped(last.value, width, height) && Shows(t, last.value)
    ensures Shows(ExecAll(t, Output(JobsFrom(g, last, 0))), g) <==> Faithful(JobsFrom(g, last, 0))
  {
    if Faithful(JobsFrom(g, last, 0)) {
      FaithfulShows(t, g, last, width, height);
    } else if Shows(ExecAll(t, Output(JobsFrom(g, last, 0))), g) {
      ShownIsFaithful(t, g, last, width, height);
    }
  }

  /** Over what the terminal showed before, the differential output has the effect of a full redraw
      on every cell of the screen. */
  lemma DiffRefinesRedraw(t: Terminal, g: Grid, last: Grid, width: nat, height: nat)
    requires Shaped(g, width, height) && Ready(t, width, height)
    requires Shaped(last, width, height) && Shows(t, last) && Faithful(JobsFrom(g, None, 0))
    ensures ExecAll(t, Output(JobsFrom(g, Some(last), 0))).screen == ExecAll(t, Output(JobsFrom(g, None, 0))).screen
  {
    var diff, full := JobsFrom(g, Some(last), 0), JobsFrom(g, None, 0);
    JobsExactly(g, Some(last), 0);
    JobsExactly(g, None, 0);
    JobsInRange(g, Some(last), width, height);
    JobsInRange(g, None, width, height);
    assert Faithful(diff) by {
      assert forall j | j in diff :: j in full;
    }
    FaithfulShows(t, g, Some(last), width, height);
    FaithfulShows(t, g, None, width, height);
    var a, b := ExecAll(t, Output(diff)), ExecAll(t, Output(full));
    forall p: Pos ensures (p in a.screen <==> p in b.screen) && (p in a.screen ==> a.screen[p] == b.screen[p]) {
      if 0 <= p.1 < height && 0 <= p.0 < width && !LastCell(g, p.0, p.1) {
        assert ShowsAt(a, g, p.0, p.1) && ShowsAt(b, g, p.0, p.1);
      } else {
        UnwrittenStays(t, diff, p);
        UnwrittenStays(t, full, p);
      }
    }
  }
}
