/** Rectangles of terminal cells (packages/tui/src/render/Geometry.ts). */
module Geometry {
  import opened Basics

  datatype Rect = Rect(left: int, top: int, width: int, height: int)
  {
    predicate Contains(x: int, y: int) {
      left <= x < left + width && top <= y < top + height
    }
  }

  function Max(a: int, b: int): int { if a >= b then a else b }

  function Min(a: int, b: int): int { if a <= b then a else b }

  /** Exactly the cells in both rectangles; undefined exactly when there is none. */
  function RectIntersection(rect1: Rect, rect2: Rect): (r: Option<Rect>)
    ensures r.None? <==> forall x, y :: !(rect1.Contains(x, y) && rect2.Contains(x, y))
    ensures r.Some? ==> forall x, y :: r.value.Contains(x, y) <==> rect1.Contains(x, y) && rect2.Contains(x, y)
  {
    var x1 := Max(rect1.left, rect2.left);
    var y1 := Max(rect1.top, rect2.top);
    var x2 := Min(rect1.left + rect1.width, rect2.left + rect2.width);
    var y2 := Min(rect1.top + rect1.height, rect2.top + rect2.height);
    if x2 - x1 <= 0 || y2 - y1 <= 0 then None
    else
      assert rect1.Contains(x1, y1) && rect2.Contains(x1, y1);
      Some(Rect(x1, y1, x2 - x1, y2 - y1))
  }
}
