/** Points and closed rectangles, after Bevy's `Vec2` and `Rect`, over exact reals. */
module Geometry {
  datatype Vec2 = Vec2(x: real, y: real)

  datatype Rect = Rect(min: Vec2, max: Vec2)

  datatype Quadrant = NW | NE | SW | SE

  function FromCenterSize(center: Vec2, size: Vec2): Rect {
    Rect(Vec2(center.x - size.x / 2.0, center.y - size.y / 2.0),
         Vec2(center.x + size.x / 2.0, center.y + size.y / 2.0))
  }

  function Width(r: Rect): real { r.max.x - r.min.x }

  function Height(r: Rect): real { r.max.y - r.min.y }

  function Center(r: Rect): Vec2 {
    Vec2((r.min.x + r.max.x) / 2.0, (r.min.y + r.max.y) / 2.0)
  }

  predicate Proper(r: Rect) {
    r.min.x <= r.max.x && r.min.y <= r.max.y
  }

  /** Inclusive on all four sides. */
  predicate Contains(r: Rect, p: Vec2) {
    r.min.x <= p.x <= r.max.x && r.min.y <= p.y <= r.max.y
  }

  predicate StrictlyInside(r: Rect, p: Vec2) {
    r.min.x < p.x < r.max.x && r.min.y < p.y < r.max.y
  }

  predicate RectsOverlap(a: Rect, b: Rect) {
    a.min.x <= b.max.x && a.max.x >= b.min.x && a.min.y <= b.max.y && a.max.y >= b.min.y
  }

  /** The square of half-width `margin` around `pos`: what a player can see. */
  function MarginBox(pos: Vec2, margin: real): Rect {
    FromCenterSize(pos, Vec2(margin * 2.0, margin * 2.0))
  }

  /** The bounds `split` computes for one of the four children. */
  function QuadrantBounds(b: Rect, q: Quadrant): Rect {
    var halfW := Width(b) / 2.0;
    var halfH := Height(b) / 2.0;
    var c := Center(b);
    var center :=
      match q
      case NW => Vec2(c.x - halfW / 2.0, c.y + halfH / 2.0)
      case NE => Vec2(c.x + halfW / 2.0, c.y + halfH / 2.0)
      case SW => Vec2(c.x - halfW / 2.0, c.y - halfH / 2.0)
      case SE => Vec2(c.x + halfW / 2.0, c.y - halfH / 2.0);
    FromCenterSize(center, Vec2(halfW, halfH))
  }

  /** The four quadrants in coordinates: equal quarters, y pointing up, so that NW is the upper left one. */
  lemma {:induction false} QuadrantCorners(b: Rect)
    ensures var x, y := (b.min.x + b.max.x) / 2.0, (b.min.y + b.max.y) / 2.0;
            && Center(b) == Vec2(x, y)
            && QuadrantBounds(b, NW) == Rect(Vec2(b.min.x, y), Vec2(x, b.max.y))
            && QuadrantBounds(b, NE) == Rect(Vec2(x, y), Vec2(b.max.x, b.max.y))
            && QuadrantBounds(b, SW) == Rect(Vec2(b.min.x, b.min.y), Vec2(x, y))
            && QuadrantBounds(b, SE) == Rect(Vec2(x, b.min.y), Vec2(b.max.x, y))
  {
  }

  /** The four quadrants cover their parent, stay inside it, and share no interior point. */
  lemma {:induction false} QuadrantsTile(b: Rect, p: Vec2)
    requires Proper(b)
    ensures forall q: Quadrant :: Proper(QuadrantBounds(b, q))
    ensures Contains(b, p) <==> exists q :: Contains(QuadrantBounds(b, q), p)
    ensures forall q, r :: StrictlyInside(QuadrantBounds(b, q), p) && StrictlyInside(QuadrantBounds(b, r), p) ==> q == r
  {
    QuadrantCorners(b);
    if Contains(b, p) {
      var c := Center(b);
      var q := if p.x <= c.x then (if p.y >= c.y then NW else SW) else (if p.y >= c.y then NE else SE);
      assert Contains(QuadrantBounds(b, q), p);
    }
  }

  /** A proper box meets a rectangle exactly when it meets one of the rectangle's quadrants. */
  lemma {:induction false} QuadrantsOverlap(b: Rect, box: Rect)
    requires Proper(b) && Proper(box)
    ensures RectsOverlap(b, box) <==> exists q :: RectsOverlap(QuadrantBounds(b, q), box)
  {
    QuadrantCorners(b);
    if RectsOverlap(b, box) {
      var c := Center(b);
      var q := if box.min.x <= c.x then (if box.max.y >= c.y then NW else SW)
          else (if box.max.y >= c.y then NE else SE);
      assert RectsOverlap(QuadrantBounds(b, q), box);
    }
  }

  /** The point lies in the closed rectangle and at most `margin` away from `pos` on either axis. */
  ghost predicate Reaches(b: Rect, pos: Vec2, margin: real, p: Vec2) {
    && b.min.x <= p.x <= b.max.x && b.min.y <= p.y <= b.max.y
    && -margin <= p.x - pos.x <= margin && -margin <= p.y - pos.y <= margin
  }

  /** A rectangle meets the margin box exactly when it has a point within the margin. */
  lemma {:induction false} MarginBoxReaches(b: Rect, pos: Vec2, margin: real)
    requires Proper(b) && margin >= 0.0
    ensures RectsOverlap(b, MarginBox(pos, margin)) <==> exists p :: Reaches(b, pos, margin, p)
  {
    if RectsOverlap(b, MarginBox(pos, margin)) {
      var x := if pos.x < b.min.x then b.min.x else if pos.x > b.max.x then b.max.x else pos.x;
      var y := if pos.y < b.min.y then b.min.y else if pos.y > b.max.y then b.max.y else pos.y;
      assert Reaches(b, pos, margin, Vec2(x, y));
    }
  }
}
