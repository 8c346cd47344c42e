/** What splitting, merging and collapsing do to the tree, and that merging undoes splitting. */
module TreeSurgery {
  import opened Geometry
  import opened Options
  import opened Trees
  import opened TreeSearch

  ghost function Four(n: nat): set<nat> {
    {n, n + 1, n + 2, n + 3}
  }

  ghost predicate IsLeaf(t: Tree, k: nat) {
    t.Leaf? && t.id == k
  }

  /** The leaf `k` hangs directly below the node `p`. */
  ghost predicate LeafUnder(t: Tree, k: nat, p: nat) {
    && t.Node?
    && (|| (t.id == p && (IsLeaf(t.nw, k) || IsLeaf(t.ne, k) || IsLeaf(t.sw, k) || IsLeaf(t.se, k)))
        || LeafUnder(t.nw, k, p) || LeafUnder(t.ne, k, p) || LeafUnder(t.sw, k, p) || LeafUnder(t.se, k, p))
  }

  ghost predicate HasLeaf(t: Tree, k: nat) {
    match t
    case Leaf(_, id) => id == k
    case Node(_, _, nw, ne, sw, se) => HasLeaf(nw, k) || HasLeaf(ne, k) || HasLeaf(sw, k) || HasLeaf(se, k)
  }

  lemma {:induction false} LeafOrInner(t: Tree, k: nat)
    ensures k in Ids(t) <==> HasLeaf(t, k) || k in InnerIds(t)
    ensures Unique(t) ==> !(HasLeaf(t, k) && k in InnerIds(t))
  {
    if t.Node? {
      LeafOrInner(t.nw, k);
      LeafOrInner(t.ne, k);
      LeafOrInner(t.sw, k);
      LeafOrInner(t.se, k);
      IdsSplitUp(t.nw); IdsSplitUp(t.ne); IdsSplitUp(t.sw); IdsSplitUp(t.se);
    }
  }

  lemma {:induction false} LeafUnderIds(t: Tree, k: nat, p: nat)
    requires LeafUnder(t, k, p)
    ensures HasLeaf(t, k) && p in InnerIds(t)
  {
    if LeafUnder(t.nw, k, p) { LeafUnderIds(t.nw, k, p); }
    else if LeafUnder(t.ne, k, p) { LeafUnderIds(t.ne, k, p); }
    else if LeafUnder(t.sw, k, p) { LeafUnderIds(t.sw, k, p); }
    else if LeafUnder(t.se, k, p) { LeafUnderIds(t.se, k, p); }
  }

  /** The child subtree that holds a leaf also holds its parent link, unless it is that leaf. */
  lemma {:induction false} LeafBelow(t: Tree, k: nat, p: nat)
    requires Unique(t) && LeafUnder(t, k, p)
    ensures k in Ids(t.nw) ==> if t.nw.Leaf? then t.id == p else LeafUnder(t.nw, k, p)
    ensures k in Ids(t.ne) ==> if t.ne.Leaf? then t.id == p else LeafUnder(t.ne, k, p)
    ensures k in Ids(t.sw) ==> if t.sw.Leaf? then t.id == p else LeafUnder(t.sw, k, p)
    ensures k in Ids(t.se) ==> if t.se.Leaf? then t.id == p else LeafUnder(t.se, k, p)
    ensures k in Ids(t.nw) || k in Ids(t.ne) || k in Ids(t.sw) || k in Ids(t.se)
  {
    if LeafUnder(t.nw, k, p) { LeafUnderIds(t.nw, k, p); LeafOrInner(t.nw, k); }
    if LeafUnder(t.ne, k, p) { LeafUnderIds(t.ne, k, p); LeafOrInner(t.ne, k); }
    if LeafUnder(t.sw, k, p) { LeafUnderIds(t.sw, k, p); LeafOrInner(t.sw, k); }
    if LeafUnder(t.se, k, p) { LeafUnderIds(t.se, k, p); LeafOrInner(t.se, k); }
  }

  /** A leaf has one parent. */
  lemma {:induction false} LeafUnderUnique(t: Tree, k: nat, p: nat, q: nat)
    requires Unique(t) && LeafUnder(t, k, p) && LeafUnder(t, k, q)
    ensures p == q
  {
    LeafBelow(t, k, p);
    LeafBelow(t, k, q);
    if k in Ids(t.nw) && t.nw.Node? { LeafUnderUnique(t.nw, k, p, q); }
    else if k in Ids(t.ne) && t.ne.Node? { LeafUnderUnique(t.ne, k, p, q); }
    else if k in Ids(t.sw) && t.sw.Node? { LeafUnderUnique(t.sw, k, p, q); }
    else if k in Ids(t.se) && t.se.Node? { LeafUnderUnique(t.se, k, p, q); }
  }

  // ---------------------------------------------------------------- splitting

  /** `split_leaf` succeeds exactly on the id of a leaf that is not at the maximum depth. */
  lemma {:induction false} SplitDefined(t: Tree, p: nat, next: nat)
    ensures SplitLeaf(t, p, next).Some? <==> exists l :: l in Leaves(t) && l.id == p && l.cell.depth < l.cell.max
    ensures SplitLeaf(t, p, next).Some? ==> HasLeaf(t, p)
  {
    if t.Leaf? {
      assert t in Leaves(t);
    } else {
      SplitDefined(t.nw, p, next);
      SplitDefined(t.ne, p, next);
      SplitDefined(t.sw, p, next);
      SplitDefined(t.se, p, next);
      assert forall l ::
          l in Leaves(t) <==> l in Leaves(t.nw) || l in Leaves(t.ne) || l in Leaves(t.sw) || l in Leaves(t.se);
    }
  }

  lemma {:induction false} SplitIds(t: Tree, p: nat, next: nat)
    requires SplitLeaf(t, p, next).Some?
    ensures var u := SplitLeaf(t, p, next).value;
            u.cell == t.cell && u.id == t.id && u.Node? && Ids(u) == Ids(t) + Four(next) && p in Ids(t)
  {
    if t.Node? {
      if SplitLeaf(t.nw, p, next).Some? { SplitIds(t.nw, p, next); }
      else if SplitLeaf(t.ne, p, next).Some? { SplitIds(t.ne, p, next); }
      else if SplitLeaf(t.sw, p, next).Some? { SplitIds(t.sw, p, next); }
      else { SplitIds(t.se, p, next); }
    }
  }

  lemma {:induction false} SplitInner(t: Tree, p: nat, next: nat)
    requires SplitLeaf(t, p, next).Some?
    ensures var u := SplitLeaf(t, p, next).value;
            InnerIds(u) == InnerIds(t) + {p} && Inner(u) == Inner(t) + 1
  {
    if t.Node? {
      if SplitLeaf(t.nw, p, next).Some? { SplitInner(t.nw, p, next); }
      else if SplitLeaf(t.ne, p, next).Some? { SplitInner(t.ne, p, next); }
      else if SplitLeaf(t.sw, p, next).Some? { SplitInner(t.sw, p, next); }
      else { SplitInner(t.se, p, next); }
    }
  }

  lemma {:induction false} SplitShaped(t: Tree, p: nat, next: nat)
    requires Shaped(t) && SplitLeaf(t, p, next).Some?
    ensures Shaped(SplitLeaf(t, p, next).value) && SplitLeaf(t, p, next).value.cell == t.cell
  {
    if t.Leaf? {
      QuadrantsTile(t.cell.bounds, t.cell.bounds.min);
    } else {
      hide QuadrantBounds, Proper;
      if SplitLeaf(t.nw, p, next).Some? { SplitShaped(t.nw, p, next); }
      else if SplitLeaf(t.ne, p, next).Some? { SplitShaped(t.ne, p, next); }
      else if SplitLeaf(t.sw, p, next).Some? { SplitShaped(t.sw, p, next); }
      else { SplitShaped(t.se, p, next); }
    }
  }

  lemma {:induction false} SplitUnique(t: Tree, p: nat, next: nat)
    requires Unique(t) && SplitLeaf(t, p, next).Some? && Ids(t) !! Four(next)
    ensures Unique(SplitLeaf(t, p, next).value)
  {
    if t.Node? {
      if SplitLeaf(t.nw, p, next).Some? { SplitUnique(t.nw, p, next); SplitIds(t.nw, p, next); }
      else if SplitLeaf(t.ne, p, next).Some? { SplitUnique(t.ne, p, next); SplitIds(t.ne, p, next); }
      else if SplitLeaf(t.sw, p, next).Some? { SplitUnique(t.sw, p, next); SplitIds(t.sw, p, next); }
      else { SplitUnique(t.se, p, next); SplitIds(t.se, p, next); }
    }
  }

  lemma {:induction false} SplitNumbered(t: Tree, p: nat, next: nat)
    requires Numbered(t) && SplitLeaf(t, p, next).Some? && p < next
    ensures Numbered(SplitLeaf(t, p, next).value) && SplitLeaf(t, p, next).value.id == t.id
  {
    if t.Node? {
      if SplitLeaf(t.nw, p, next).Some? { SplitNumbered(t.nw, p, next); }
      else if SplitLeaf(t.ne, p, next).Some? { SplitNumbered(t.ne, p, next); }
      else if SplitLeaf(t.sw, p, next).Some? { SplitNumbered(t.sw, p, next); }
      else { SplitNumbered(t.se, p, next); }
    }
  }

  /** A split keeps the tree well formed. */
  lemma {:induction false} SplitWellFormed(t: Tree, p: nat, next: nat)
    requires WellFormed(t) && SplitLeaf(t, p, next).Some?
    requires Ids(t) !! Four(next) && p < next
    ensures WellFormed(SplitLeaf(t, p, next).value)
  {
    hide Shaped, Unique, Numbered, SplitLeaf;
    SplitShaped(t, p, next);
    SplitUnique(t, p, next);
    SplitNumbered(t, p, next);
  }

  lemma {:induction false} SplitHangs(t: Tree, p: nat, next: nat, k: nat)
    requires SplitLeaf(t, p, next).Some? && k in Four(next)
    ensures LeafUnder(SplitLeaf(t, p, next).value, k, p)
  {
    if t.Node? {
      if SplitLeaf(t.nw, p, next).Some? { SplitHangs(t.nw, p, next, k); }
      else if SplitLeaf(t.ne, p, next).Some? { SplitHangs(t.ne, p, next, k); }
      else if SplitLeaf(t.sw, p, next).Some? { SplitHangs(t.sw, p, next, k); }
      else { SplitHangs(t.se, p, next, k); }
    }
  }

  /** A split keeps the tree well formed and hangs exactly four new leaves below the split shard. */
  lemma {:induction false} SplitShape(t: Tree, p: nat, next: nat)
    requires WellFormed(t) && SplitLeaf(t, p, next).Some?
    requires Ids(t) !! Four(next) && p < next
    ensures var u := SplitLeaf(t, p, next).value;
            && WellFormed(u) && u.cell == t.cell && u.id == t.id && u.Node?
            && Ids(u) == Ids(t) + Four(next)
            && InnerIds(u) == InnerIds(t) + {p} && p in Ids(t) && p !in InnerIds(t)
            && Inner(u) == Inner(t) + 1
            && forall k :: k in Four(next) ==> LeafUnder(u, k, p)
  {
    hide Shaped, Unique, Numbered, LeafUnder, SplitLeaf, Leaves, HasLeaf;
    SplitIds(t, p, next);
    SplitInner(t, p, next);
    SplitWellFormed(t, p, next);
    SplitDefined(t, p, next);
    LeafOrInner(t, p);
    forall k | k in Four(next) {
      SplitHangs(t, p, next, k);
    }
  }

  /** Forget a split: the four new ids stand for the shard they came from. */
  ghost function Rename(p: nat, next: nat, s: nat): nat {
    if s in Four(next) then p else s
  }

  lemma {:induction false} ForkRenamesShardFor(t: Tree, p: nat, next: nat, pos: Vec2)
    requires t.Leaf? && Shaped(t) && SplitLeaf(t, p, next).Some?
    ensures var r := ShardFor(SplitLeaf(t, p, next).value, pos);
            && (r.Some? <==> ShardFor(t, pos).Some?)
            && (r.Some? ==> r.value in Four(next))
  {
    QuadrantsTile(t.cell.bounds, pos);
  }

  lemma {:induction false} SplitRenamesShardFor(t: Tree, p: nat, next: nat, pos: Vec2)
    requires Shaped(t) && SplitLeaf(t, p, next).Some? && Ids(t) !! Four(next)
    ensures var r := ShardFor(SplitLeaf(t, p, next).value, pos);
            && (r.Some? <==> ShardFor(t, pos).Some?)
            && (r.Some? ==> Rename(p, next, r.value) == ShardFor(t, pos).value)
  {
    if t.Leaf? {
      ForkRenamesShardFor(t, p, next, pos);
    } else if Contains(t.cell.bounds, pos) {
      ShardForDefined(t.nw, pos);
      ShardForDefined(t.ne, pos);
      ShardForDefined(t.sw, pos);
      ShardForDefined(t.se, pos);
      if SplitLeaf(t.nw, p, next).Some? { SplitRenamesShardFor(t.nw, p, next, pos); }
      else if SplitLeaf(t.ne, p, next).Some? { SplitRenamesShardFor(t.ne, p, next, pos); }
      else if SplitLeaf(t.sw, p, next).Some? { SplitRenamesShardFor(t.sw, p, next, pos); }
      else { SplitRenamesShardFor(t.se, p, next, pos); }
    }
  }

  ghost function Renamed(p: nat, next: nat, l: seq<nat>): set<nat> {
    set s | s in l :: Rename(p, next, s)
  }

  lemma {:induction false} NearListIds(t: Tree, pos: Vec2, margin: real)
    ensures forall s :: s in NearList(t, pos, margin) ==> s in Ids(t)
  {
    if t.Node? {
      NearListIds(t.nw, pos, margin);
      NearListIds(t.ne, pos, margin);
      NearListIds(t.sw, pos, margin);
      NearListIds(t.se, pos, margin);
    }
  }

  lemma {:induction false} RenamedUnchanged(t: Tree, p: nat, next: nat, pos: Vec2, margin: real)
    requires Ids(t) !! Four(next)
    ensures Renamed(p, next, NearList(t, pos, margin)) == set s | s in NearList(t, pos, margin)
  {
    NearListIds(t, pos, margin);
    var l := NearList(t, pos, margin);
    assert forall s :: s in l ==> Rename(p, next, s) == s;
    assert forall s :: s in l ==> Rename(p, next, s) in Renamed(p, next, l);
  }

  lemma {:induction false} RenamedAppend(p: nat, next: nat, a: seq<nat>, b: seq<nat>)
    ensures Renamed(p, next, a + b) == Renamed(p, next, a) + Renamed(p, next, b)
  {
    assert forall s :: s in a + b <==> s in a || s in b;
  }

  lemma {:induction false} RenamedFour(p: nat, next: nat, t: Tree, pos: Vec2, margin: real)
    requires t.Node? && RectsOverlap(t.cell.bounds, MarginBox(pos, margin))
    ensures Renamed(p, next, NearList(t, pos, margin)) ==
            Renamed(p, next, NearList(t.nw, pos, margin)) + Renamed(p, next, NearList(t.ne, pos, margin))
            + Renamed(p, next, NearList(t.sw, pos, margin)) + Renamed(p, next, NearList(t.se, pos, margin))
  {
    hide Renamed, RectsOverlap;
    var a, b, c, d := NearList(t.nw, pos, margin), NearList(t.ne, pos, margin), NearList(t.sw, pos, margin),
        NearList(t.se, pos, margin);
    RenamedAppend(p, next, a + b + c, d);
    RenamedAppend(p, next, a + b, c);
    RenamedAppend(p, next, a, b);
  }

  lemma {:induction false} ForkRenamesNear(t: Tree, p: nat, next: nat, pos: Vec2, margin: real)
    requires t.Leaf? && Shaped(t) && SplitLeaf(t, p, next).Some? && margin >= 0.0
    ensures Renamed(p, next, NearList(SplitLeaf(t, p, next).value, pos, margin))
        == set s | s in NearList(t, pos, margin)
  {
    var u := SplitLeaf(t, p, next).value;
    var box := MarginBox(pos, margin);
    QuadrantsOverlap(t.cell.bounds, box);
    if RectsOverlap(t.cell.bounds, box) {
      var a, b, c, d := NearList(u.nw, pos, margin), NearList(u.ne, pos, margin), NearList(u.sw, pos, margin),
          NearList(u.se, pos, margin);
      assert (forall s :: s in a ==> s == next) && (forall s :: s in b ==> s == next + 1);
      assert (forall s :: s in c ==> s == next + 2) && (forall s :: s in d ==> s == next + 3);
      var l := NearList(u, pos, margin);
      assert l == a + b + c + d;
      assert forall s :: s in l ==> s in Four(next);
      assert l != [] && l[0] in l;
      assert Rename(p, next, l[0]) in Renamed(p, next, l);
    }
  }

  lemma {:induction false} SplitRenamesAlike(t: Tree, p: nat, next: nat, pos: Vec2, margin: real)
    requires Shaped(t) && SplitLeaf(t, p, next).Some? && Ids(t) !! Four(next) && margin >= 0.0
    ensures Renamed(p, next, NearList(SplitLeaf(t, p, next).value, pos, margin))
        == Renamed(p, next, NearList(t, pos, margin))
  {
    hide Renamed, RectsOverlap, MarginBox;
    var u := SplitLeaf(t, p, next).value;
    SplitIds(t, p, next);
    if t.Leaf? {
      ForkRenamesNear(t, p, next, pos, margin);
      RenamedUnchanged(t, p, next, pos, margin);
    } else if RectsOverlap(t.cell.bounds, MarginBox(pos, margin)) {
      RenamedFour(p, next, t, pos, margin);
      RenamedFour(p, next, u, pos, margin);
      if SplitLeaf(t.nw, p, next).Some? { SplitRenamesAlike(t.nw, p, next, pos, margin); }
      else if SplitLeaf(t.ne, p, next).Some? { SplitRenamesAlike(t.ne, p, next, pos, margin); }
      else if SplitLeaf(t.sw, p, next).Some? { SplitRenamesAlike(t.sw, p, next, pos, margin); }
      else { SplitRenamesAlike(t.se, p, next, pos, margin); }
    }
  }

  /** A split renames the nearby leaves: forgetting it gives the same set of shards. */
  lemma {:induction false} SplitRenamesNear(t: Tree, p: nat, next: nat, pos: Vec2, margin: real)
    requires Shaped(t) && SplitLeaf(t, p, next).Some? && Ids(t) !! Four(next) && margin >= 0.0
    ensures Renamed(p, next, NearList(SplitLeaf(t, p, next).value, pos, margin))
        == set s | s in NearList(t, pos, margin)
  {
    SplitRenamesAlike(t, p, next, pos, margin);
    RenamedUnchanged(t, p, next, pos, margin);
  }

  /** A split leaves every other leaf where it hangs. */
  lemma {:induction false} SplitKeepsLeaf(t: Tree, p: nat, next: nat, k: nat, q: nat)
    requires SplitLeaf(t, p, next).Some? && LeafUnder(t, k, q) && k != p
    ensures LeafUnder(SplitLeaf(t, p, next).value, k, q)
  {
    if t.Node? {
      if LeafUnder(t.nw, k, q) && SplitLeaf(t.nw, p, next).Some? { SplitKeepsLeaf(t.nw, p, next, k, q); }
      if LeafUnder(t.ne, k, q) && SplitLeaf(t.ne, p, next).Some? { SplitKeepsLeaf(t.ne, p, next, k, q); }
      if LeafUnder(t.sw, k, q) && SplitLeaf(t.sw, p, next).Some? { SplitKeepsLeaf(t.sw, p, next, k, q); }
      if LeafUnder(t.se, k, q) && SplitLeaf(t.se, p, next).Some? { SplitKeepsLeaf(t.se, p, next, k, q); }
    }
  }

  // ---------------------------------------------------------------- merging

  /** All nodes, children before their parent, in the order NW, NE, SW, SE. */
  ghost function PostOrder(t: Tree): seq<Tree> {
    (if t.Leaf? then [] else PostOrder(t.nw) + PostOrder(t.ne) + PostOrder(t.sw) + PostOrder(t.se)) + [t]
  }

  ghost function FirstEligible(l: seq<Tree>, pop: map<nat, nat>, maxPop: nat): Option<Tree> {
    if l == [] then None
    else if Eligible(l[0], pop, maxPop) then Some(l[0])
    else FirstEligible(l[1..], pop, maxPop)
  }

  lemma {:induction false} FirstEligibleAppend(a: seq<Tree>, b: seq<Tree>, pop: map<nat, nat>, maxPop: nat)
    ensures FirstEligible(a + b, pop, maxPop)
         == if FirstEligible(a, pop, maxPop).Some? then FirstEligible(a, pop, maxPop) else FirstEligible(b, pop, maxPop)
  {
    if a == [] {
      assert a + b == b;
    } else {
      assert (a + b)[1..] == a[1..] + b;
      FirstEligibleAppend(a[1..], b, pop, maxPop);
    }
  }

  lemma {:induction false} FirstEligibleExact(l: seq<Tree>, pop: map<nat, nat>, maxPop: nat)
    ensures FirstEligible(l, pop, maxPop).Some? <==> exists n :: n in l && Eligible(n, pop, maxPop)
    ensures FirstEligible(l, pop, maxPop).Some? ==>
              FirstEligible(l, pop, maxPop).value in l && Eligible(FirstEligible(l, pop, maxPop).value, pop, maxPop)
  {
    if l != [] {
      FirstEligibleExact(l[1..], pop, maxPop);
      assert forall n :: n in l <==> n == l[0] || n in l[1..];
    }
  }

  /** Cut everything below the node `p`. */
  ghost function Prune(t: Tree, p: nat): Tree {
    match t
    case Leaf(_, _) => t
    case Node(cell, id, nw, ne, sw, se) =>
      if id == p then Leaf(cell, id) else Node(cell, id, Prune(nw, p), Prune(ne, p), Prune(sw, p), Prune(se, p))
  }

  lemma {:induction false} PruneAbsent(t: Tree, p: nat)
    requires p !in Ids(t)
    ensures Prune(t, p) == t
  {
    if t.Node? {
      PruneAbsent(t.nw, p);
      PruneAbsent(t.ne, p);
      PruneAbsent(t.sw, p);
      PruneAbsent(t.se, p);
    }
  }

  lemma {:induction false} PostOrderIds(t: Tree, n: Tree)
    requires n in PostOrder(t)
    ensures n.id in Ids(t)
  {
    if t.Node? && n != t {
      if n in PostOrder(t.nw) { PostOrderIds(t.nw, n); }
      else if n in PostOrder(t.ne) { PostOrderIds(t.ne, n); }
      else if n in PostOrder(t.sw) { PostOrderIds(t.sw, n); }
      else { assert n in PostOrder(t.se); PostOrderIds(t.se, n); }
    }
  }

  lemma {:induction false} FourEligible(t: Tree, pop: map<nat, nat>, maxPop: nat)
    requires t.Node?
    ensures FirstEligible(PostOrder(t), pop, maxPop) ==
            if FirstEligible(PostOrder(t.nw), pop, maxPop).Some? then FirstEligible(PostOrder(t.nw), pop, maxPop) else
            if FirstEligible(PostOrder(t.ne), pop, maxPop).Some? then FirstEligible(PostOrder(t.ne), pop, maxPop) else
            if FirstEligible(PostOrder(t.sw), pop, maxPop).Some? then FirstEligible(PostOrder(t.sw), pop, maxPop) else
            if FirstEligible(PostOrder(t.se), pop, maxPop).Some? then FirstEligible(PostOrder(t.se), pop, maxPop) else
            if Eligible(t, pop, maxPop) then Some(t) else None
  {
    var a, b, c, d := PostOrder(t.nw), PostOrder(t.ne), PostOrder(t.sw), PostOrder(t.se);
    FirstEligibleAppend(a + b + c + d, [t], pop, maxPop);
    FirstEligibleAppend(a + b + c, d, pop, maxPop);
    FirstEligibleAppend(a + b, c, pop, maxPop);
    FirstEligibleAppend(a, b, pop, maxPop);
  }

  /** What merging at the node `n` of `t` yields. */
  ghost function MergedAt(t: Tree, n: Tree): Merged
    requires n.Node?
  {
    Merged(Prune(t, n.id), n.id, [n.nw.id, n.ne.id, n.sw.id, n.se.id])
  }

  /** Below a node, `Prune` only touches the child that holds the pruned id. */
  lemma {:induction false} PruneChild(t: Tree, n: Tree)
    requires t.Node? && Unique(t)
    ensures n in PostOrder(t.nw) ==> Prune(t, n.id) == Node(t.cell, t.id, Prune(t.nw, n.id), t.ne, t.sw, t.se)
    ensures n in PostOrder(t.ne) ==> Prune(t, n.id) == Node(t.cell, t.id, t.nw, Prune(t.ne, n.id), t.sw, t.se)
    ensures n in PostOrder(t.sw) ==> Prune(t, n.id) == Node(t.cell, t.id, t.nw, t.ne, Prune(t.sw, n.id), t.se)
    ensures n in PostOrder(t.se) ==> Prune(t, n.id) == Node(t.cell, t.id, t.nw, t.ne, t.sw, Prune(t.se, n.id))
  {
    if n in PostOrder(t.nw) { PostOrderIds(t.nw, n); }
    if n in PostOrder(t.ne) { PostOrderIds(t.ne, n); }
    if n in PostOrder(t.sw) { PostOrderIds(t.sw, n); }
    if n in PostOrder(t.se) { PostOrderIds(t.se, n); }
    if n.id !in Ids(t.nw) { PruneAbsent(t.nw, n.id); }
    if n.id !in Ids(t.ne) { PruneAbsent(t.ne, n.id); }
    if n.id !in Ids(t.sw) { PruneAbsent(t.sw, n.id); }
    if n.id !in Ids(t.se) { PruneAbsent(t.se, n.id); }
  }

  /** `try_merge` cuts below the first eligible node in post-order, and does nothing when there is none. */
  lemma {:induction false} TryMergeIsFirstEligible(t: Tree, pop: map<nat, nat>, maxPop: nat)
    requires Unique(t)
    ensures var f := FirstEligible(PostOrder(t), pop, maxPop);
            && (f.Some? ==> f.value in PostOrder(t) && Eligible(f.value, pop, maxPop))
            && TryMerge(t, pop, maxPop) == if f.Some? then Some(MergedAt(t, f.value)) else None
  {
    FirstEligibleExact(PostOrder(t), pop, maxPop);
    if t.Node? {
      FourEligible(t, pop, maxPop);
      TryMergeIsFirstEligible(t.nw, pop, maxPop);
      TryMergeIsFirstEligible(t.ne, pop, maxPop);
      TryMergeIsFirstEligible(t.sw, pop, maxPop);
      TryMergeIsFirstEligible(t.se, pop, maxPop);
      var f := FirstEligible(PostOrder(t), pop, maxPop);
      if f.Some? {
        PruneChild(t, f.value);
      }
    } else {
      assert PostOrder(t) == [t];
    }
  }

  /** A merge happens exactly when some four sibling leaves are sparsely enough populated. */
  lemma {:induction false} TryMergeSoundComplete(t: Tree, pop: map<nat, nat>, maxPop: nat)
    requires Unique(t)
    ensures TryMerge(t, pop, maxPop).Some? <==> exists n :: n in PostOrder(t) && Eligible(n, pop, maxPop)
  {
    TryMergeIsFirstEligible(t, pop, maxPop);
    FirstEligibleExact(PostOrder(t), pop, maxPop);
  }

  /** Four sibling leaves, whatever their population. */
  ghost predicate Group(n: Tree) {
    n.Node? && n.nw.Leaf? && n.ne.Leaf? && n.sw.Leaf? && n.se.Leaf?
  }

  lemma {:induction false} SubtreeWellFormed(t: Tree, n: Tree)
    requires WellFormed(t) && n in PostOrder(t)
    ensures WellFormed(n) && Ids(n) <= Ids(t) && InnerIds(n) <= InnerIds(t) && ProperIds(n) <= ProperIds(t)
  {
    if t.Node? && n != t {
      IdsSplitUp(n);
      if n in PostOrder(t.nw) { SubtreeWellFormed(t.nw, n); }
      else if n in PostOrder(t.ne) { SubtreeWellFormed(t.ne, n); }
      else if n in PostOrder(t.sw) { SubtreeWellFormed(t.sw, n); }
      else { assert n in PostOrder(t.se); SubtreeWellFormed(t.se, n); }
    }
  }

  lemma {:induction false} GroupInside(n: Tree)
    requires Group(n) && Numbered(n)
    ensures Four(n.nw.id) <= ProperIds(n) && n.id in InnerIds(n)
  {
  }

  lemma {:induction false} GroupIds(t: Tree, n: Tree)
    requires WellFormed(t) && n in PostOrder(t) && Group(n)
    ensures Four(n.nw.id) <= ProperIds(t) && n.id in InnerIds(t) && n.id < n.nw.id
    ensures [n.nw.id, n.ne.id, n.sw.id, n.se.id] == [n.nw.id, n.nw.id + 1, n.nw.id + 2, n.nw.id + 3]
  {
    hide Shaped, Unique, PostOrder, InnerIds;
    SubtreeWellFormed(t, n);
    GroupInside(n);
  }

  lemma {:induction false} PruneCount(t: Tree, n: Tree)
    requires Unique(t) && n in PostOrder(t) && Group(n)
    ensures var u := Prune(t, n.id);
            && u.cell == t.cell && u.id == t.id && Inner(u) == Inner(t) - 1 && HasLeaf(u, n.id)
  {
    if t != n {
      PruneChild(t, n);
      if n in PostOrder(t.nw) { PruneCount(t.nw, n); }
      else if n in PostOrder(t.ne) { PruneCount(t.ne, n); }
      else if n in PostOrder(t.sw) { PruneCount(t.sw, n); }
      else { assert n in PostOrder(t.se); PruneCount(t.se, n); }
    }
  }

  lemma {:induction false} FourDifference(root: nat, a: set<nat>, b: set<nat>, c: set<nat>, d: set<nat>, f: set<nat>)
    requires f <= a && a !! b && a !! c && a !! d && root !in a
    ensures {root} + (a - f) + b + c + d == {root} + a + b + c + d - f
    ensures {root} + b + (a - f) + c + d == {root} + b + a + c + d - f
    ensures {root} + b + c + (a - f) + d == {root} + b + c + a + d - f
    ensures {root} + b + c + d + (a - f) == {root} + b + c + d + a - f
  {
  }

  lemma {:induction false} PruneIds(t: Tree, n: Tree)
    requires WellFormed(t) && n in PostOrder(t) && Group(n)
    ensures Ids(Prune(t, n.id)) == Ids(t) - Four(n.nw.id)
  {
    var f := Four(n.nw.id);
    if t == n {
      assert Ids(t) == {t.id} + f;
    } else {
      PruneChild(t, n);
      var a, b, c, d := Ids(t.nw), Ids(t.ne), Ids(t.sw), Ids(t.se);
      if n in PostOrder(t.nw) {
        PruneIds(t.nw, n); GroupIds(t.nw, n); IdsSplitUp(t.nw);
        FourDifference(t.id, a, b, c, d, f);
      } else if n in PostOrder(t.ne) {
        PruneIds(t.ne, n); GroupIds(t.ne, n); IdsSplitUp(t.ne);
        FourDifference(t.id, b, a, c, d, f);
      } else if n in PostOrder(t.sw) {
        PruneIds(t.sw, n); GroupIds(t.sw, n); IdsSplitUp(t.sw);
        FourDifference(t.id, c, a, b, d, f);
      } else {
        assert n in PostOrder(t.se);
        PruneIds(t.se, n); GroupIds(t.se, n); IdsSplitUp(t.se);
        FourDifference(t.id, d, a, b, c, f);
      }
    }
  }

  lemma {:induction false} PruneShaped(t: Tree, p: nat)
    requires Shaped(t)
    ensures Shaped(Prune(t, p)) && Prune(t, p).cell == t.cell
  {
    hide ChildCell, Proper;
    if t.Node? { PruneShaped(t.nw, p); PruneShaped(t.ne, p); PruneShaped(t.sw, p); PruneShaped(t.se, p); }
  }

  lemma {:induction false} PruneUnique(t: Tree, p: nat)
    requires Unique(t)
    ensures Unique(Prune(t, p)) && Ids(Prune(t, p)) <= Ids(t)
  {
    if t.Node? { PruneUnique(t.nw, p); PruneUnique(t.ne, p); PruneUnique(t.sw, p); PruneUnique(t.se, p); }
  }

  lemma {:induction false} PruneNumbered(t: Tree, p: nat)
    requires Numbered(t)
    ensures Numbered(Prune(t, p)) && Prune(t, p).id == t.id
  {
    if t.Node? { PruneNumbered(t.nw, p); PruneNumbered(t.ne, p); PruneNumbered(t.sw, p); PruneNumbered(t.se, p); }
  }

  lemma {:induction false} NoSplitElsewhere(t: Tree, p: nat, next: nat)
    requires p !in Ids(t)
    ensures SplitLeaf(t, p, next) == None
  {
    SplitDefined(t, p, next);
    LeafOrInner(t, p);
  }

  lemma {:induction false} SplitUndoesPrune(t: Tree, n: Tree)
    requires WellFormed(t) && n in PostOrder(t) && Group(n)
    ensures SplitLeaf(Prune(t, n.id), n.id, n.nw.id) == Some(t)
  {
    if t == n {
      assert t == Fork(t.cell, t.id, t.nw.id);
      assert Shaped(t.nw) && t.nw.cell.depth <= t.nw.cell.max;
    } else {
      PruneChild(t, n);
      if n in PostOrder(t.nw) {
        SplitUndoesPrune(t.nw, n);
      } else if n in PostOrder(t.ne) {
        SplitUndoesPrune(t.ne, n);
        PostOrderIds(t.ne, n);
        NoSplitElsewhere(t.nw, n.id, n.nw.id);
      } else if n in PostOrder(t.sw) {
        SplitUndoesPrune(t.sw, n);
        PostOrderIds(t.sw, n);
        NoSplitElsewhere(t.nw, n.id, n.nw.id);
        NoSplitElsewhere(t.ne, n.id, n.nw.id);
      } else {
        assert n in PostOrder(t.se);
        SplitUndoesPrune(t.se, n);
        PostOrderIds(t.se, n);
        NoSplitElsewhere(t.nw, n.id, n.nw.id);
        NoSplitElsewhere(t.ne, n.id, n.nw.id);
        NoSplitElsewhere(t.sw, n.id, n.nw.id);
      }
    }
  }

  /** `u` is `t` without the four leaves `first` .. `first + 3` below `p`. */
  ghost predicate Lighter(t: Tree, u: Tree, p: nat, first: nat) {
    && WellFormed(u) && u.cell == t.cell && u.id == t.id
    && Inner(u) == Inner(t) - 1
    && p < first && p in InnerIds(t) && HasLeaf(u, p)
    && Ids(u) == Ids(t) - Four(first) && Four(first) <= ProperIds(t)
  }

  /**
   * `m` undoes one split of `t`: it removes one interior node, keeps the tree well formed, and
   * splitting the merged parent with the old ids gives the tree back.
   */
  ghost predicate Undoes(m: Merged, t: Tree) {
    && |m.children| == 4
    && m.children == [m.children[0], m.children[0] + 1, m.children[0] + 2, m.children[0] + 3]
    && SplitLeaf(m.tree, m.parent, m.children[0]) == Some(t)
    && Lighter(t, m.tree, m.parent, m.children[0])
  }

  lemma {:induction false} GroupMergeLighter(t: Tree, n: Tree)
    requires WellFormed(t) && n in PostOrder(t) && Group(n)
    ensures Lighter(t, Prune(t, n.id), n.id, n.nw.id)
  {
    hide Prune, Shaped, Unique, Numbered, PostOrder, Group;
    GroupIds(t, n);
    PruneCount(t, n);
    PruneIds(t, n);
    PruneShaped(t, n.id);
    PruneUnique(t, n.id);
    PruneNumbered(t, n.id);
  }

  lemma {:induction false} GroupMergeUndoes(t: Tree, n: Tree)
    requires WellFormed(t) && n in PostOrder(t) && Group(n)
    ensures Undoes(MergedAt(t, n), t)
  {
    hide Prune, SplitLeaf, WellFormed, PostOrder, Group, Lighter, Ids, InnerIds, ProperIds;
    GroupIds(t, n);
    GroupMergeLighter(t, n);
    SplitUndoesPrune(t, n);
  }

  /** A merge is the inverse of a split. */
  lemma {:induction false} MergeUndoesSplit(t: Tree, pop: map<nat, nat>, maxPop: nat)
    requires WellFormed(t) && TryMerge(t, pop, maxPop).Some?
    ensures Undoes(TryMerge(t, pop, maxPop).value, t)
  {
    TryMergeIsFirstEligible(t, pop, maxPop);
    GroupMergeUndoes(t, FirstEligible(PostOrder(t), pop, maxPop).value);
  }

  lemma {:induction false} SameFour(s: set<nat>, a: nat, b: nat)
    requires s !! Four(a) && s !! Four(b) && s + Four(a) == s + Four(b)
    ensures a == b
  {
    assert a in s + Four(a) && a in s + Four(b) && b in s + Four(b) && b in s + Four(a);
    assert a in Four(b) && b in Four(a);
  }

  lemma {:induction false} PruneUndoesSplit(t: Tree, p: nat, next: nat)
    requires Unique(t) && SplitLeaf(t, p, next).Some?
    ensures Prune(SplitLeaf(t, p, next).value, p) == t
  {
    SplitDefined(t, p, next);
    LeafOrInner(t, p);
    if t.Node? {
      SplitDefined(t.nw, p, next); SplitDefined(t.ne, p, next);
      SplitDefined(t.sw, p, next); SplitDefined(t.se, p, next);
      LeafOrInner(t.nw, p); LeafOrInner(t.ne, p); LeafOrInner(t.sw, p); LeafOrInner(t.se, p);
      if SplitLeaf(t.nw, p, next).Some? { PruneUndoesSplit(t.nw, p, next); }
          else if p !in Ids(t.nw) { PruneAbsent(t.nw, p); }
      if SplitLeaf(t.ne, p, next).Some? { PruneUndoesSplit(t.ne, p, next); }
          else if p !in Ids(t.ne) { PruneAbsent(t.ne, p); }
      if SplitLeaf(t.sw, p, next).Some? { PruneUndoesSplit(t.sw, p, next); }
          else if p !in Ids(t.sw) { PruneAbsent(t.sw, p); }
      if SplitLeaf(t.se, p, next).Some? { PruneUndoesSplit(t.se, p, next); }
          else if p !in Ids(t.se) { PruneAbsent(t.se, p); }
    }
  }

  /** When the group just split is the one that is merged, the tree is restored exactly. */
  lemma {:induction false} MergeRestoresSplit(t: Tree, p: nat, next: nat, pop: map<nat, nat>, maxPop: nat)
    requires WellFormed(t) && SplitLeaf(t, p, next).Some? && Ids(t) !! Four(next) && p < next
    requires var m := TryMerge(SplitLeaf(t, p, next).value, pop, maxPop); m.Some? && m.value.parent == p
    ensures TryMerge(SplitLeaf(t, p, next).value, pop, maxPop)
        == Some(Merged(t, p, [next, next + 1, next + 2, next + 3]))
  {
    hide SplitLeaf, Prune, Shaped, Unique, Numbered, PostOrder, TryMerge, FirstEligible;
    var u := SplitLeaf(t, p, next).value;
    SplitWellFormed(t, p, next);
    TryMergeIsFirstEligible(u, pop, maxPop);
    var n := FirstEligible(PostOrder(u), pop, maxPop).value;
    GroupMergeUndoes(u, n);
    PruneUndoesSplit(t, p, next);
    SplitIds(t, p, next);
    SplitIds(t, p, n.nw.id);
    SameFour(Ids(t), next, n.nw.id);
  }

  lemma {:induction false} SplitReflectsLeaf(t: Tree, p: nat, next: nat, k: nat, q: nat)
    requires SplitLeaf(t, p, next).Some? && k !in Four(next)
    requires LeafUnder(SplitLeaf(t, p, next).value, k, q)
    ensures LeafUnder(t, k, q)
  {
    var u := SplitLeaf(t, p, next).value;
    if t.Node? {
      if LeafUnder(u.nw, k, q) && u.nw != t.nw { SplitReflectsLeaf(t.nw, p, next, k, q); }
      if LeafUnder(u.ne, k, q) && u.ne != t.ne { SplitReflectsLeaf(t.ne, p, next, k, q); }
      if LeafUnder(u.sw, k, q) && u.sw != t.sw { SplitReflectsLeaf(t.sw, p, next, k, q); }
      if LeafUnder(u.se, k, q) && u.se != t.se { SplitReflectsLeaf(t.se, p, next, k, q); }
    }
  }

  /** A leaf that survives a merge keeps its parent. */
  lemma {:induction false} MergeKeepsLeaf(t: Tree, pop: map<nat, nat>, maxPop: nat, k: nat, q: nat)
    requires WellFormed(t) && TryMerge(t, pop, maxPop).Some? && LeafUnder(t, k, q)
    requires k in Ids(TryMerge(t, pop, maxPop).value.tree)
    ensures LeafUnder(TryMerge(t, pop, maxPop).value.tree, k, q)
  {
    var m := TryMerge(t, pop, maxPop).value;
    MergeUndoesSplit(t, pop, maxPop);
    LeafUnderIds(t, k, q);
    LeafOrInner(t, k);
    SplitReflectsLeaf(m.tree, m.parent, m.children[0], k, q);
  }

  /** A merge changes the searches only by giving the parent's id to what its children held. */
  lemma {:induction false} MergeRenames(t: Tree, pop: map<nat, nat>, maxPop: nat, pos: Vec2, margin: real)
    requires WellFormed(t) && TryMerge(t, pop, maxPop).Some? && margin >= 0.0
    ensures var m := TryMerge(t, pop, maxPop).value;
            && |m.children| == 4
            && (ShardFor(m.tree, pos).Some? <==> ShardFor(t, pos).Some?)
            && (ShardFor(t, pos).Some? ==> ShardFor(m.tree, pos).value == Rename(m.parent, m.children[0],
                ShardFor(t, pos).value))
            && (set s | s in ShardsNear(m.tree, pos, margin))
                == Renamed(m.parent, m.children[0], ShardsNear(t, pos, margin))
  {
    var m := TryMerge(t, pop, maxPop).value;
    MergeUndoesSplit(t, pop, maxPop);
    SplitRenamesShardFor(m.tree, m.parent, m.children[0], pos);
    SplitRenamesNear(m.tree, m.parent, m.children[0], pos, margin);
    assert Renamed(m.parent, m.children[0], ShardsNear(t, pos, margin))
        == Renamed(m.parent, m.children[0], NearList(t, pos, margin));
    assert forall s :: s in ShardsNear(m.tree, pos, margin) <==> s in NearList(m.tree, pos, margin);
  }

  // ---------------------------------------------------------------- collapsing

  /** Some node below the root of `t` crashed. */
  ghost predicate Struck(t: Tree, crashed: seq<nat>) {
    exists k :: k in ProperIds(t) && k in crashed
  }

  lemma {:induction false} ProperOfNode(t: Tree, k: nat)
    requires t.Node?
    ensures k in ProperIds(t) <==>
            || k == t.nw.id || k == t.ne.id || k == t.sw.id || k == t.se.id
            || k in ProperIds(t.nw) || k in ProperIds(t.ne) || k in ProperIds(t.sw) || k in ProperIds(t.se)
  {
    hide Ids;
    IdsSplitUp(t.nw); IdsSplitUp(t.ne); IdsSplitUp(t.sw); IdsSplitUp(t.se);
  }

  lemma {:induction false} StruckNode(t: Tree, crashed: seq<nat>)
    requires t.Node?
    ensures Struck(t, crashed) <==>
            || t.nw.id in crashed || t.ne.id in crashed || t.sw.id in crashed || t.se.id in crashed
            || Struck(t.nw, crashed) || Struck(t.ne, crashed) || Struck(t.sw, crashed) || Struck(t.se, crashed)
  {
    hide ProperIds;
    forall k ensures k in ProperIds(t) <==>
            || k == t.nw.id || k == t.ne.id || k == t.sw.id || k == t.se.id
            || k in ProperIds(t.nw) || k in ProperIds(t.ne) || k in ProperIds(t.sw) || k in ProperIds(t.se)
    {
      ProperOfNode(t, k);
    }
  }

  /** Collapsing is all or nothing: any crashed descendant turns the whole node back into a leaf. */
  lemma {:induction false} CollapseAllOrNothing(t: Tree, crashed: seq<nat>)
    ensures ForceCollapse(t, crashed) ==
            if Struck(t, crashed) then Collapsed(Leaf(t.cell, t.id), true) else Collapsed(t, false)
  {
    if t.Node? {
      StruckNode(t, crashed);
      CollapseAllOrNothing(t.nw, crashed);
      CollapseAllOrNothing(t.ne, crashed);
      CollapseAllOrNothing(t.sw, crashed);
      CollapseAllOrNothing(t.se, crashed);
    }
  }

  /** `find_parent_of` answers exactly for the ids below the root. */
  lemma {:induction false} FindParentDefined(t: Tree, k: nat)
    ensures FindParentOf(t, k).Some? <==> k in ProperIds(t)
  {
    if t.Node? {
      FindParentDefined(t.nw, k);
      FindParentDefined(t.ne, k);
      FindParentDefined(t.sw, k);
      FindParentDefined(t.se, k);
      ProperOfNode(t, k);
      hide ProperIds;
    }
  }

  ghost predicate HasKid(n: Tree, k: nat) {
    n.Node? && (n.nw.id == k || n.ne.id == k || n.sw.id == k || n.se.id == k)
  }

  lemma {:induction false} KidIsProper(t: Tree, n: Tree, k: nat)
    requires n in PostOrder(t) && HasKid(n, k)
    ensures k in ProperIds(t)
  {
    ProperOfNode(t, k);
    if n != t {
      hide ProperIds, HasKid;
      if n in PostOrder(t.nw) { KidIsProper(t.nw, n, k); }
      else if n in PostOrder(t.ne) { KidIsProper(t.ne, n, k); }
      else if n in PostOrder(t.sw) { KidIsProper(t.sw, n, k); }
      else { assert n in PostOrder(t.se); KidIsProper(t.se, n, k); }
    }
  }

  /** Some node `p` of the tree has the child `k`. */
  ghost predicate ParentIn(t: Tree, k: nat, p: nat) {
    exists n :: n in PostOrder(t) && n.id == p && HasKid(n, k)
  }

  lemma {:induction false} ParentInNode(t: Tree, k: nat, p: nat)
    requires t.Node?
    ensures ParentIn(t, k, p) <==>
            || (t.id == p && HasKid(t, k))
            || ParentIn(t.nw, k, p) || ParentIn(t.ne, k, p) || ParentIn(t.sw, k, p) || ParentIn(t.se, k, p)
  {
    hide HasKid;
    assert forall n :: n in PostOrder(t) <==>
      n == t || n in PostOrder(t.nw) || n in PostOrder(t.ne) || n in PostOrder(t.sw) || n in PostOrder(t.se);
  }

  lemma {:induction false} ParentIsProper(t: Tree, k: nat, p: nat)
    requires ParentIn(t, k, p)
    ensures k in ProperIds(t)
  {
    hide ProperIds, HasKid, PostOrder;
    var n :| n in PostOrder(t) && n.id == p && HasKid(n, k);
    KidIsProper(t, n, k);
  }

  /** The id `k` belongs to the subtree `t`. */
  ghost predicate Below(t: Tree, k: nat) {
    k == t.id || k in ProperIds(t)
  }

  /** An id below the root is in exactly one child subtree, and not both at its root and further down. */
  lemma {:induction false} OneKidHolds(t: Tree, k: nat)
    requires t.Node? && Unique(t)
    ensures Below(t.nw, k) ==> !Below(t.ne, k) && !Below(t.sw, k) && !Below(t.se, k)
    ensures Below(t.ne, k) ==> !Below(t.sw, k) && !Below(t.se, k)
    ensures Below(t.sw, k) ==> !Below(t.se, k)
    ensures k in ProperIds(t.nw) ==> k != t.nw.id
    ensures k in ProperIds(t.ne) ==> k != t.ne.id
    ensures k in ProperIds(t.sw) ==> k != t.sw.id
    ensures k in ProperIds(t.se) ==> k != t.se.id
  {
    IdsSplitUp(t.nw); IdsSplitUp(t.ne); IdsSplitUp(t.sw); IdsSplitUp(t.se);
    hide Ids, ProperIds;
  }

  /** `find_parent_of` finds the parent: it answers `p` exactly when the node `p` has the child `k`. */
  lemma {:induction false} FindParentExact(t: Tree, k: nat, p: nat)
    requires Unique(t)
    ensures FindParentOf(t, k) == Some(p) <==> ParentIn(t, k, p)
  {
    if t.Leaf? {
      assert PostOrder(t) == [t];
    } else {
      FindParentExact(t.nw, k, p); FindParentExact(t.ne, k, p);
      FindParentExact(t.sw, k, p); FindParentExact(t.se, k, p);
      FindParentDefined(t.nw, k); FindParentDefined(t.ne, k); FindParentDefined(t.sw, k); FindParentDefined(t.se, k);
      OneKidHolds(t, k);
      ParentInNode(t, k, p);
      if ParentIn(t.nw, k, p) { ParentIsProper(t.nw, k, p); }
      if ParentIn(t.ne, k, p) { ParentIsProper(t.ne, k, p); }
      if ParentIn(t.sw, k, p) { ParentIsProper(t.sw, k, p); }
      if ParentIn(t.se, k, p) { ParentIsProper(t.se, k, p); }
      hide ParentIn, ProperIds;
    }
  }

  /** After a collapse no crashed shard has a parent any more, so the rescue lookup always falls back to the root. */
  lemma {:induction false} RescueLookupFails(t: Tree, crashed: seq<nat>, k: nat)
    requires k in crashed
    ensures FindParentOf(ForceCollapse(t, crashed).tree, k) == None
  {
    CollapseAllOrNothing(t, crashed);
    FindParentDefined(ForceCollapse(t, crashed).tree, k);
  }
}
