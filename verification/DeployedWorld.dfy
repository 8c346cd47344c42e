/** The world the deployed server starts with, and why exact arithmetic describes its bounds. */
module DeployedWorld {
  import opened Geometry
  import opened Trees
  import opened TreeSurgery
  import opened Spatial
  import opened SpatialInvariant

  /** A 2000 x 2000 world around the origin, four levels of splits, a view margin of 50. */
  const DEPLOYED: World := World(FromCenterSize(Vec2(0.0, 0.0), Vec2(2000.0, 2000.0)), 4, 50.0)

  /** How many cells of the finest level a cell of the given depth spans. */
  function Span(depth: nat): nat {
    if depth == 0 then 16 else if depth == 1 then 8 else if depth == 2 then 4 else if depth == 3 then 2 else 1
  }

  /** The square whose lower left corner is `i`, `j` on a grid of 125, counted from the corner of the world. */
  function GridSquare(i: nat, j: nat, depth: nat): Rect {
    var x, y, side := 125.0 * (i as real) - 1000.0, 125.0 * (j as real) - 1000.0, 125.0 * (Span(depth) as real);
    Rect(Vec2(x, y), Vec2(x + side, y + side))
  }

  ghost predicate OnGrid(c: Cell) {
    && c.max == 4
    && exists i: nat, j: nat ::
         i + Span(c.depth) <= 16 && j + Span(c.depth) <= 16 && c.bounds == GridSquare(i, j, c.depth)
  }

  lemma {:induction false} QuadrantOnGrid(i: nat, j: nat, depth: nat, q: Quadrant)
    requires depth < 4
    ensures var k := Span(depth + 1);
            QuadrantBounds(GridSquare(i, j, depth), q) ==
            GridSquare(if q == NW || q == SW then i else i + k, if q == SW || q == SE then j else j + k, depth + 1)
    ensures Span(depth) == 2 * Span(depth + 1)
  {
    QuadrantCorners(GridSquare(i, j, depth));
  }

  lemma {:induction false} ChildOnGrid(c: Cell, q: Quadrant)
    requires OnGrid(c) && c.depth < 4
    ensures OnGrid(ChildCell(c, q))
  {
    hide GridSquare, QuadrantBounds, Span;
    var i: nat, j: nat :| i + Span(c.depth) <= 16 && j + Span(c.depth) <= 16 && c.bounds == GridSquare(i, j, c.depth);
    QuadrantOnGrid(i, j, c.depth, q);
  }

  lemma {:induction false} BelowTheTop(t: Tree)
    requires Shaped(t) && t.Node? && OnGrid(t.cell)
    ensures t.cell.depth < 4
  {
    assert Shaped(t.nw);
  }

  lemma {:induction false} TreeOnGrid(t: Tree, n: Tree)
    requires Shaped(t) && OnGrid(t.cell) && n in PostOrder(t)
    ensures OnGrid(n.cell)
  {
    hide OnGrid, Proper, ChildCell;
    if n != t {
      BelowTheTop(t);
      ChildOnGrid(t.cell, NW); ChildOnGrid(t.cell, NE); ChildOnGrid(t.cell, SW); ChildOnGrid(t.cell, SE);
      if n in PostOrder(t.nw) { TreeOnGrid(t.nw, n); }
      else if n in PostOrder(t.ne) { TreeOnGrid(t.ne, n); }
      else if n in PostOrder(t.sw) { TreeOnGrid(t.sw, n); }
      else { assert n in PostOrder(t.se); TreeOnGrid(t.se, n); }
    }
  }

  lemma {:induction false} DeployedTree(s: Server)
    requires Inv(DEPLOYED, s)
    ensures Shaped(s.svc.tree) && s.svc.tree.cell == Cell(DEPLOYED.bounds, 0, 4)
  {
    hide Shaped, Unique, Numbered, ReadyInv, ClientInv, GroupInv;
  }

  lemma {:induction false} DeployedStart()
    ensures Sound(DEPLOYED) && OnGrid(Cell(DEPLOYED.bounds, 0, 4)) && Contains(DEPLOYED.bounds, Vec2(0.0, 0.0))
  {
    assert DEPLOYED.bounds == GridSquare(0, 0, 0);
  }

  /**
   * Whatever happens, every shard of the deployed world, leaf or interior, is a square of a fixed grid
   * of 125, sixteen squares wide. All corners are therefore integers of at most four digits, which
   * single-precision floats hold exactly.
   */
  lemma {:induction false} DeployedShardsOnGrid(events: seq<Event>, n: Tree)
    requires n in PostOrder(After(DEPLOYED, events).svc.tree)
    ensures OnGrid(n.cell)
  {
    hide After, OnGrid, PostOrder;
    DeployedStart();
    ReachableInv(DEPLOYED, events);
    DeployedTree(After(DEPLOYED, events));
    TreeOnGrid(After(DEPLOYED, events).svc.tree, n);
  }

  // ---------------------------------------------------------------- the values in between

  function Notch(i: int): real {
    62.5 * (i as real)
  }

  /** A multiple of 62.5 that single precision holds exactly: at most twelve significant bits. */
  ghost predicate Exact(x: real) {
    exists i: int :: -32 <= i <= 32 && x == Notch(i)
  }

  lemma {:induction false} ExactAt(x: real, i: int)
    requires -32 <= i <= 32 && x == 62.5 * (i as real)
    ensures Exact(x)
  {
    assert x == Notch(i);
  }

  /** What a split computes along one axis from `lo` to `hi`: sizes, sums, the centre and the child centres. */
  ghost function SplitValues(lo: real, hi: real): seq<real> {
    var size, centre := hi - lo, (lo + hi) / 2.0;
    [size, size / 2.0, size / 2.0 / 2.0, lo + hi, centre, centre - size / 2.0 / 2.0, centre + size / 2.0 / 2.0]
  }

  lemma {:induction false} AxisExact(i: nat, depth: nat)
    requires depth < 4 && i + Span(depth) <= 16
    ensures var lo := 125.0 * (i as real) - 1000.0;
            forall v :: v in SplitValues(lo, lo + 125.0 * (Span(depth) as real)) ==> Exact(v)
  {
    var k := Span(depth);
    var half := k / 2;
    assert k == 2 * half;
    var lo := 125.0 * (i as real) - 1000.0;
    var hi := lo + 125.0 * (k as real);
    var values := SplitValues(lo, hi);
    ExactAt(values[0], 2 * k);
    ExactAt(values[1], k);
    ExactAt(values[2], half);
    ExactAt(values[3], 2 * (2 * i + k - 16));
    ExactAt(values[4], 2 * i + k - 16);
    ExactAt(values[5], 2 * i + k - 16 - half);
    ExactAt(values[6], 2 * i + k - 16 + half);
  }

  /**
   * Every number that a split of a shard of the deployed world computes on the way to the bounds of the
   * children, on either axis, is exact in single precision, so no rounding happens anywhere in it.
   */
  lemma {:induction false} DeployedSplitsExact(events: seq<Event>, n: Tree)
    requires n in PostOrder(After(DEPLOYED, events).svc.tree) && n.cell.depth < 4
    ensures var b := n.cell.bounds;
            forall v :: v in SplitValues(b.min.x, b.max.x) + SplitValues(b.min.y, b.max.y) ==> Exact(v)
  {
    hide After, PostOrder, SplitValues, Exact;
    DeployedShardsOnGrid(events, n);
    var c := n.cell;
    var i: nat, j: nat :| i + Span(c.depth) <= 16 && j + Span(c.depth) <= 16 && c.bounds == GridSquare(i, j, c.depth);
    AxisExact(i, c.depth);
    AxisExact(j, c.depth);
  }
}
