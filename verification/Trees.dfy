/**
 * The quadtree as a value: its search, split, merge and collapse operations, branch for branch as
 * the source writes them, and what they mean. The mutable tree of `QuadTrees` refines this one.
 */
module Trees {
  import opened Geometry
  import opened Options

  /** What a node knows about its place: `max` is the depth at which splitting stops. */
  datatype Cell = Cell(bounds: Rect, depth: nat, max: nat)

  datatype Tree =
    | Leaf(cell: Cell, id: nat)
    | Node(cell: Cell, id: nat, nw: Tree, ne: Tree, sw: Tree, se: Tree)

  datatype Merged = Merged(tree: Tree, parent: nat, children: seq<nat>)

  datatype Collapsed = Collapsed(tree: Tree, hit: bool)

  function ChildCell(c: Cell, q: Quadrant): Cell {
    Cell(QuadrantBounds(c.bounds, q), c.depth + 1, c.max)
  }

  function Kids(t: Tree): seq<Tree> {
    if t.Leaf? then [] else [t.nw, t.ne, t.sw, t.se]
  }

  // ---------------------------------------------------------------- operations

  /** A leaf that became a node with four fresh leaves. */
  function Fork(cell: Cell, id: nat, next: nat): Tree {
    Node(cell, id,
         Leaf(ChildCell(cell, NW), next), Leaf(ChildCell(cell, NE), next + 1),
         Leaf(ChildCell(cell, SW), next + 2), Leaf(ChildCell(cell, SE), next + 3))
  }

  function SplitLeaf(t: Tree, target: nat, next: nat): Option<Tree> {
    match t
    case Leaf(cell, id) =>
      if id == target && cell.depth < cell.max then Some(Fork(cell, id, next)) else None
    case Node(cell, id, nw, ne, sw, se) =>
      var a := SplitLeaf(nw, target, next);
      if a.Some? then Some(Node(cell, id, a.value, ne, sw, se)) else
      var b := SplitLeaf(ne, target, next);
      if b.Some? then Some(Node(cell, id, nw, b.value, sw, se)) else
      var c := SplitLeaf(sw, target, next);
      if c.Some? then Some(Node(cell, id, nw, ne, c.value, se)) else
      var d := SplitLeaf(se, target, next);
      if d.Some? then Some(Node(cell, id, nw, ne, sw, d.value)) else None
  }

  function ShardFor(t: Tree, pos: Vec2): Option<nat> {
    if !Contains(t.cell.bounds, pos) then None else
    match t
    case Leaf(_, id) => Some(id)
    case Node(_, _, nw, ne, sw, se) =>
      var a := ShardFor(nw, pos);
      if a.Some? then a else
      var b := ShardFor(ne, pos);
      if b.Some? then b else
      var c := ShardFor(sw, pos);
      if c.Some? then c else ShardFor(se, pos)
  }

  /** The list `shards_near_impl` pushes, before sorting. */
  function NearList(t: Tree, pos: Vec2, margin: real): seq<nat> {
    if !RectsOverlap(t.cell.bounds, MarginBox(pos, margin)) then [] else
    match t
    case Leaf(_, id) => [id]
    case Node(_, _, nw, ne, sw, se) =>
      NearList(nw, pos, margin) + NearList(ne, pos, margin) + NearList(sw, pos, margin) + NearList(se, pos, margin)
  }

  function Population(pop: map<nat, nat>, id: nat): nat {
    if id in pop then pop[id] else 0
  }

  /** Four sibling leaves that together hold at most `maxPop` clients. */
  predicate Eligible(t: Tree, pop: map<nat, nat>, maxPop: nat) {
    && t.Node? && t.nw.Leaf? && t.ne.Leaf? && t.sw.Leaf? && t.se.Leaf?
    && Population(pop, t.nw.id) + Population(pop, t.ne.id) + Population(pop, t.sw.id)
        + Population(pop, t.se.id) <= maxPop
  }

  function TryMerge(t: Tree, pop: map<nat, nat>, maxPop: nat): Option<Merged> {
    match t
    case Leaf(_, _) => None
    case Node(cell, id, nw, ne, sw, se) =>
      var a := TryMerge(nw, pop, maxPop);
      if a.Some? then Some(a.value.(tree := Node(cell, id, a.value.tree, ne, sw, se))) else
      var b := TryMerge(ne, pop, maxPop);
      if b.Some? then Some(b.value.(tree := Node(cell, id, nw, b.value.tree, sw, se))) else
      var c := TryMerge(sw, pop, maxPop);
      if c.Some? then Some(c.value.(tree := Node(cell, id, nw, ne, c.value.tree, se))) else
      var d := TryMerge(se, pop, maxPop);
      if d.Some? then Some(d.value.(tree := Node(cell, id, nw, ne, sw, d.value.tree))) else
      if Eligible(t, pop, maxPop) then Some(Merged(Leaf(cell, id), id, [nw.id, ne.id, sw.id, se.id])) else None
  }

  function ForceCollapse(t: Tree, crashed: seq<nat>): Collapsed {
    match t
    case Leaf(_, _) => Collapsed(t, false)
    case Node(cell, id, nw, ne, sw, se) =>
      var a := ForceCollapse(nw, crashed);
      var b := ForceCollapse(ne, crashed);
      var c := ForceCollapse(sw, crashed);
      var d := ForceCollapse(se, crashed);
      if a.hit || b.hit || c.hit || d.hit || nw.id in crashed || ne.id in crashed || sw.id in crashed
          || se.id in crashed
      then Collapsed(Leaf(cell, id), true)
      else Collapsed(Node(cell, id, a.tree, b.tree, c.tree, d.tree), false)
  }

  function FindParentOf(t: Tree, target: nat): Option<nat> {
    match t
    case Leaf(_, _) => None
    case Node(_, id, nw, ne, sw, se) =>
      if nw.id == target then Some(id) else
      var a := FindParentOf(nw, target);
      if a.Some? then a else
      if ne.id == target then Some(id) else
      var b := FindParentOf(ne, target);
      if b.Some? then b else
      if sw.id == target then Some(id) else
      var c := FindParentOf(sw, target);
      if c.Some? then c else
      if se.id == target then Some(id) else FindParentOf(se, target)
  }

  // ---------------------------------------------------------------- shape and identity

  ghost function Ids(t: Tree): set<nat> {
    match t
    case Leaf(_, id) => {id}
    case Node(_, id, nw, ne, sw, se) => {id} + Ids(nw) + Ids(ne) + Ids(sw) + Ids(se)
  }

  ghost function InnerIds(t: Tree): set<nat> {
    match t
    case Leaf(_, _) => {}
    case Node(_, id, nw, ne, sw, se) => {id} + InnerIds(nw) + InnerIds(ne) + InnerIds(sw) + InnerIds(se)
  }

  /** Every node but the root. */
  ghost function ProperIds(t: Tree): set<nat> {
    match t
    case Leaf(_, _) => {}
    case Node(_, _, nw, ne, sw, se) => Ids(nw) + Ids(ne) + Ids(sw) + Ids(se)
  }

  /** Children tile their parent, one level deeper, and nothing is deeper than `max`. */
  ghost predicate Shaped(t: Tree) {
    && Proper(t.cell.bounds) && t.cell.depth <= t.cell.max
    && match t
       case Leaf(_, _) => true
       case Node(cell, _, nw, ne, sw, se) =>
         && nw.cell == ChildCell(cell, NW) && ne.cell == ChildCell(cell, NE)
         && sw.cell == ChildCell(cell, SW) && se.cell == ChildCell(cell, SE)
         && Shaped(nw) && Shaped(ne) && Shaped(sw) && Shaped(se)
  }

  /** No id occurs twice, on leaves and interior nodes alike. */
  ghost predicate Unique(t: Tree) {
    match t
    case Leaf(_, _) => true
    case Node(_, id, nw, ne, sw, se) =>
      && Unique(nw) && Unique(ne) && Unique(sw) && Unique(se)
      && id !in Ids(nw) && id !in Ids(ne) && id !in Ids(sw) && id !in Ids(se)
      && Ids(nw) !! Ids(ne) && Ids(nw) !! Ids(sw) && Ids(nw) !! Ids(se)
      && Ids(ne) !! Ids(sw) && Ids(ne) !! Ids(se) && Ids(sw) !! Ids(se)
  }

  /** Four siblings carry consecutive ids, all larger than their parent's. */
  ghost predicate Numbered(t: Tree) {
    match t
    case Leaf(_, _) => true
    case Node(_, id, nw, ne, sw, se) =>
      && id < nw.id && ne.id == nw.id + 1 && sw.id == nw.id + 2 && se.id == nw.id + 3
      && Numbered(nw) && Numbered(ne) && Numbered(sw) && Numbered(se)
  }

  ghost predicate WellFormed(t: Tree) {
    Shaped(t) && Unique(t) && Numbered(t)
  }

  ghost function Inner(t: Tree): nat {
    match t
    case Leaf(_, _) => 0
    case Node(_, _, nw, ne, sw, se) => 1 + Inner(nw) + Inner(ne) + Inner(sw) + Inner(se)
  }

  ghost function LeafCount(t: Tree): nat {
    match t
    case Leaf(_, _) => 1
    case Node(_, _, nw, ne, sw, se) => LeafCount(nw) + LeafCount(ne) + LeafCount(sw) + LeafCount(se)
  }

  lemma {:induction false} LeavesFromInner(t: Tree)
    ensures LeafCount(t) == 1 + 3 * Inner(t)
  {
    if t.Node? {
      LeavesFromInner(t.nw);
      LeavesFromInner(t.ne);
      LeavesFromInner(t.sw);
      LeavesFromInner(t.se);
    }
  }

  lemma {:induction false} IdsSplitUp(t: Tree)
    ensures Ids(t) == {t.id} + ProperIds(t)
    ensures InnerIds(t) <= Ids(t)
    ensures Unique(t) ==> t.id !in ProperIds(t)
  {
    match t
    case Leaf(_, _) =>
    case Node(_, _, nw, ne, sw, se) => IdsSplitUp(nw); IdsSplitUp(ne); IdsSplitUp(sw); IdsSplitUp(se);
  }
}
