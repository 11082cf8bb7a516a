/** The integer rectangle of `android.graphics.Rect`, with the members the thumb hit test uses. */
module Graphics {
  import JavaArith

  datatype Rect = Rect(left: int, top: int, right: int, bottom: int)

  function Width(r: Rect): int { r.right - r.left }

  function Height(r: Rect): int { r.bottom - r.top }

  /** `Rect.inset(dx, dy)`: moves every side inward by `dx` horizontally, `dy` vertically. */
  function Inset(r: Rect, dx: int, dy: int): Rect
  {
    Rect(r.left + dx, r.top + dy, r.right - dx, r.bottom - dy)
  }

  /** `Rect.centerX()`: `(left + right) >> 1`, an arithmetic shift, so it rounds down. */
  function CenterX(r: Rect): (c: int)
    ensures 2 * c <= r.left + r.right < 2 * c + 2
  {
    (r.left + r.right) / 2
  }

  /** `Rect.contains(x, y)`: half-open on the right and bottom, and false for an empty rectangle. */
  predicate Contains(r: Rect, x: int, y: int)
  {
    r.left < r.right && r.top < r.bottom && r.left <= x < r.right && r.top <= y < r.bottom
  }

  /** The hit area of a thumb: its bounds inset by a quarter of their width and height. */
  function HitArea(r: Rect): (h: Rect)
    ensures var dx, dy := JavaArith.Div(Width(r), 4), JavaArith.Div(Height(r), 4);
      h.left == r.left + dx && h.right == r.right - dx && h.top == r.top + dy && h.bottom == r.bottom - dy
    ensures CenterX(h) == CenterX(r)
    ensures forall x, y :: Contains(h, x, y) ==> Contains(r, x, y)
  {
    var h := Inset(r, JavaArith.Div(Width(r), 4), JavaArith.Div(Height(r), 4));
    QuarterInsetShrinks(Width(r));
    QuarterInsetShrinks(Height(r));
    h
  }

  /**
   * Taking a truncated quarter off both sides never widens an extent: an extent that is
   * empty stays empty, and a non-empty one loses a non-negative amount on each side.
   */
  lemma QuarterInsetShrinks(w: int)
    ensures w >= 0 ==> 0 <= JavaArith.Div(w, 4) && 2 * JavaArith.Div(w, 4) <= w
    ensures w < 0 ==> w - 2 * JavaArith.Div(w, 4) < 0
  {
    var q := JavaArith.Div(w, 4);
    assert w == 4 * q + JavaArith.Rem(w, 4);
  }
}
