/** The quadtree as the server holds it: nodes on the heap, split, merged and collapsed in place. */
module QuadTrees {
  import opened Geometry
  import opened Options
  import opened SortedIds
  import Trees
  import TreeSearch

  ghost function SumPopulations(l: seq<Trees.Tree>, pop: map<nat, nat>): nat {
    if l == [] then 0 else SumPopulations(l[..|l| - 1], pop) + Trees.Population(pop, l[|l| - 1].id)
  }

  lemma {:induction false} SumSnoc(l: seq<Trees.Tree>, x: Trees.Tree, pop: map<nat, nat>)
    ensures SumPopulations(l + [x], pop) == SumPopulations(l, pop) + Trees.Population(pop, x.id)
  {
    assert (l + [x])[..|l + [x]| - 1] == l;
  }

  ghost function FourPopulations(t: Trees.Tree, pop: map<nat, nat>): nat
    requires t.Node?
  {
    Trees.Population(pop, t.nw.id) + Trees.Population(pop, t.ne.id) + Trees.Population(pop, t.sw.id)
        + Trees.Population(pop, t.se.id)
  }

  lemma {:induction false} SumFour(t: Trees.Tree, pop: map<nat, nat>)
    requires t.Node?
    ensures SumPopulations(Trees.Kids(t)[..4], pop) == FourPopulations(t, pop)
  {
    SumSnoc([], t.nw, pop);
    SumSnoc([t.nw], t.ne, pop);
    SumSnoc([t.nw, t.ne], t.sw, pop);
    SumSnoc([t.nw, t.ne, t.sw], t.se, pop);
    assert [] + [t.nw] == [t.nw] && [t.nw] + [t.ne] == [t.nw, t.ne] && [t.nw, t.ne] + [t.sw] == [t.nw, t.ne, t.sw];
    assert Trees.Kids(t)[..4] == [t.nw, t.ne, t.sw] + [t.se];
  }

  ghost predicate KidStruck(t: Trees.Tree, j: nat, crashed: seq<nat>)
    requires t.Node? && j < 4
  {
    Trees.ForceCollapse(Trees.Kids(t)[j], crashed).hit || Trees.Kids(t)[j].id in crashed
  }

  lemma {:induction false} CollapseMiss(t: Trees.Tree, crashed: seq<nat>)
    ensures !Trees.ForceCollapse(t, crashed).hit ==> Trees.ForceCollapse(t, crashed).tree == t
  {
    if t.Node? {
      CollapseMiss(t.nw, crashed);
      CollapseMiss(t.ne, crashed);
      CollapseMiss(t.sw, crashed);
      CollapseMiss(t.se, crashed);
    }
  }

  lemma {:induction false} CollapseByKids(t: Trees.Tree, crashed: seq<nat>)
    requires t.Node?
    ensures Trees.ForceCollapse(t, crashed).hit <==> exists j :: 0 <= j < 4 && KidStruck(t, j, crashed)
    ensures Trees.ForceCollapse(t, crashed).tree == if Trees.ForceCollapse(t, crashed).hit
        then Trees.Leaf(t.cell, t.id) else t
  {
    var kids := Trees.Kids(t);
    assert KidStruck(t, 0, crashed) || KidStruck(t, 1, crashed) || KidStruck(t, 2, crashed) || KidStruck(t, 3, crashed)
      <==> exists j :: 0 <= j < 4 && KidStruck(t, j, crashed);
    CollapseMiss(t.nw, crashed);
    CollapseMiss(t.ne, crashed);
    CollapseMiss(t.sw, crashed);
    CollapseMiss(t.se, crashed);
    assert kids == [t.nw, t.ne, t.sw, t.se];
  }

  ghost function WithKid(t: Trees.Tree, i: nat, u: Trees.Tree): Trees.Tree
    requires t.Node? && i < 4
  {
    if i == 0 then t.(nw := u) else if i == 1 then t.(ne := u) else if i == 2 then t.(sw := u) else t.(se := u)
  }

  /** The first child that can be split is the one that is. */
  lemma {:induction false} SplitAtKid(t: Trees.Tree, i: nat, target: nat, next: nat)
    requires t.Node? && i < 4
    requires forall j :: 0 <= j < i ==> Trees.SplitLeaf(Trees.Kids(t)[j], target, next) == None
    requires Trees.SplitLeaf(Trees.Kids(t)[i], target, next).Some?
    ensures Trees.SplitLeaf(t, target, next)
        == Some(WithKid(t, i, Trees.SplitLeaf(Trees.Kids(t)[i], target, next).value))
  {
    var kids := Trees.Kids(t);
    assert kids == [t.nw, t.ne, t.sw, t.se];
    assert i > 0 ==> Trees.SplitLeaf(kids[0], target, next) == None;
    assert i > 1 ==> Trees.SplitLeaf(kids[1], target, next) == None;
    assert i > 2 ==> Trees.SplitLeaf(kids[2], target, next) == None;
  }

  lemma {:induction false} SplitNowhere(t: Trees.Tree, target: nat, next: nat)
    requires t.Node?
    requires forall j :: 0 <= j < 4 ==> Trees.SplitLeaf(Trees.Kids(t)[j], target, next) == None
    ensures Trees.SplitLeaf(t, target, next) == None
  {
    var kids := Trees.Kids(t);
    assert Trees.SplitLeaf(kids[0], target, next) == None && Trees.SplitLeaf(kids[1], target, next) == None;
    assert Trees.SplitLeaf(kids[2], target, next) == None && Trees.SplitLeaf(kids[3], target, next) == None;
  }

  lemma {:induction false} LeafStays(t: Trees.Tree, pop: map<nat, nat>, maxPop: nat)
    requires t.Leaf?
    ensures Trees.TryMerge(t, pop, maxPop) == None
  {
  }

  lemma {:induction false} MergeAtKid(t: Trees.Tree, i: nat, pop: map<nat, nat>, maxPop: nat)
    requires t.Node? && i < 4
    requires forall j :: 0 <= j < i ==> Trees.TryMerge(Trees.Kids(t)[j], pop, maxPop) == None
    requires Trees.TryMerge(Trees.Kids(t)[i], pop, maxPop).Some?
    ensures var m := Trees.TryMerge(Trees.Kids(t)[i], pop, maxPop).value;
            Trees.TryMerge(t, pop, maxPop) == Some(Trees.Merged(WithKid(t, i, m.tree), m.parent, m.children))
  {
    var kids := Trees.Kids(t);
    assert kids == [t.nw, t.ne, t.sw, t.se];
    assert i > 0 ==> Trees.TryMerge(kids[0], pop, maxPop) == None;
    assert i > 1 ==> Trees.TryMerge(kids[1], pop, maxPop) == None;
    assert i > 2 ==> Trees.TryMerge(kids[2], pop, maxPop) == None;
  }

  lemma {:induction false} MergeHere(t: Trees.Tree, pop: map<nat, nat>, maxPop: nat)
    requires t.Node?
    requires forall j :: 0 <= j < 4 ==> Trees.TryMerge(Trees.Kids(t)[j], pop, maxPop) == None
    ensures Trees.TryMerge(t, pop, maxPop) ==
            if t.nw.Leaf? && t.ne.Leaf? && t.sw.Leaf? && t.se.Leaf? && FourPopulations(t, pop) <= maxPop
            then Some(Trees.Merged(Trees.Leaf(t.cell, t.id), t.id, [t.nw.id, t.ne.id, t.sw.id, t.se.id])) else None
  {
    var kids := Trees.Kids(t);
    assert Trees.TryMerge(kids[0], pop, maxPop) == None && Trees.TryMerge(kids[1], pop, maxPop) == None;
    assert Trees.TryMerge(kids[2], pop, maxPop) == None && Trees.TryMerge(kids[3], pop, maxPop) == None;
  }

  /** What the first `i` children contribute to the nearby list. */
  ghost function NearUpTo(t: Trees.Tree, i: nat, pos: Vec2, margin: real): seq<nat>
    requires t.Node? && i <= 4
  {
    if i == 0 then [] else NearUpTo(t, i - 1, pos, margin) + Trees.NearList(Trees.Kids(t)[i - 1], pos, margin)
  }

  lemma {:induction false} NearApart(t: Trees.Tree, pos: Vec2, margin: real)
    requires !RectsOverlap(t.cell.bounds, MarginBox(pos, margin))
    ensures Trees.NearList(t, pos, margin) == []
  {
  }

  lemma {:induction false} NearLeaf(t: Trees.Tree, pos: Vec2, margin: real)
    requires t.Leaf? && RectsOverlap(t.cell.bounds, MarginBox(pos, margin))
    ensures Trees.NearList(t, pos, margin) == [t.id]
  {
  }

  lemma {:induction false} NearNode(t: Trees.Tree, pos: Vec2, margin: real)
    requires t.Node? && RectsOverlap(t.cell.bounds, MarginBox(pos, margin))
    ensures Trees.NearList(t, pos, margin) == NearUpTo(t, 4, pos, margin)
  {
    assert NearUpTo(t, 1, pos, margin) == Trees.NearList(t.nw, pos, margin) by { assert NearUpTo(t, 0, pos, margin)
        == []; }
    assert NearUpTo(t, 2, pos, margin) == NearUpTo(t, 1, pos, margin) + Trees.NearList(t.ne, pos, margin);
    assert NearUpTo(t, 3, pos, margin) == NearUpTo(t, 2, pos, margin) + Trees.NearList(t.sw, pos, margin);
    assert NearUpTo(t, 4, pos, margin) == NearUpTo(t, 3, pos, margin) + Trees.NearList(t.se, pos, margin);
  }

  class QuadTree {
    var bounds: Rect
    var depth: nat
    var maxDepth: nat
    var shardId: nat
    var children: seq<QuadTree>  // none, or NW, NE, SW, SE

    ghost var Repr: set<object>

    ghost predicate Valid()
      reads this, Repr
      decreases Repr
    {
      && this in Repr
      && (|children| == 0 || |children| == 4)
      && (forall i :: 0 <= i < |children| ==>
            children[i] in Repr && children[i].Repr <= Repr && this !in children[i].Repr && children[i].Valid())
      && (forall i, j :: 0 <= i < j < |children| ==> children[i].Repr !! children[j].Repr)
    }

    /** The tree of values this node stands for. */
    ghost function Model(): Trees.Tree
      requires Valid()
      reads this, Repr
      decreases Repr
    {
      var cell := Trees.Cell(bounds, depth, maxDepth);
      if children == [] then Trees.Leaf(cell, shardId)
      else Trees.Node(cell, shardId, children[0].Model(), children[1].Model(), children[2].Model(), children[3].Model())
    }

    constructor (bounds: Rect, depth: nat, maxDepth: nat)
      ensures Valid() && fresh(Repr) && Repr == {this}
      ensures Model() == Trees.Leaf(Trees.Cell(bounds, depth, maxDepth), 0)
    {
      this.bounds, this.depth, this.maxDepth := bounds, depth, maxDepth;
      shardId := 0;
      children := [];
      Repr := {this};
    }

    /** A childless node that owns nothing but itself. */
    ghost predicate LoneLeaf(cell: Trees.Cell, id: nat)
      reads this
    {
      Repr == {this} && children == [] && bounds == cell.bounds && depth == cell.depth && maxDepth == cell.max
          && shardId == id
    }

    lemma {:induction false} ForkModel(a: nat, b: nat, c: nat, d: nat)
      requires this in Repr && |children| == 4
      requires forall i :: 0 <= i < 4 ==> children[i] in Repr && children[i] != this
      requires forall i, j :: 0 <= i < j < 4 ==> children[i] != children[j]
      requires var cell := Trees.Cell(bounds, depth, maxDepth);
               && children[0].LoneLeaf(Trees.ChildCell(cell, NW), a)
                   && children[1].LoneLeaf(Trees.ChildCell(cell, NE), b)
               && children[2].LoneLeaf(Trees.ChildCell(cell, SW), c)
                   && children[3].LoneLeaf(Trees.ChildCell(cell, SE), d)
      ensures Valid()
      ensures var cell := Trees.Cell(bounds, depth, maxDepth);
              Model() == Trees.Node(cell, shardId, Trees.Leaf(Trees.ChildCell(cell, NW), a),
                  Trees.Leaf(Trees.ChildCell(cell, NE), b),
                                                   Trees.Leaf(Trees.ChildCell(cell, SW), c),
                                                       Trees.Leaf(Trees.ChildCell(cell, SE), d))
    {
      hide QuadrantBounds;
    }

    /** Give a leaf above the maximum depth four children, all numbered 0; anything else stays as it is. */
    method Split()
      modifies this
      ensures shardId == old(shardId) && bounds == old(bounds) && depth == old(depth) && maxDepth == old(maxDepth)
      ensures if depth < maxDepth && old(children) == []
              then var cell := Trees.Cell(bounds, depth, maxDepth);
                   && |children| == 4 && Repr == old(Repr) + {children[0], children[1], children[2], children[3]}
                   && (forall i :: 0 <= i < 4 ==> fresh(children[i]))
                   && (forall i, j :: 0 <= i < j < 4 ==> children[i] != children[j])
                   && children[0].LoneLeaf(Trees.ChildCell(cell, NW), 0)
                       && children[1].LoneLeaf(Trees.ChildCell(cell, NE), 0)
                   && children[2].LoneLeaf(Trees.ChildCell(cell, SW), 0)
                       && children[3].LoneLeaf(Trees.ChildCell(cell, SE), 0)
              else unchanged(this)
    {
      hide QuadrantBounds;
      if depth >= maxDepth || children != [] {
        return;
      }
      var nw := new QuadTree(QuadrantBounds(bounds, NW), depth + 1, maxDepth);
      var ne := new QuadTree(QuadrantBounds(bounds, NE), depth + 1, maxDepth);
      var sw := new QuadTree(QuadrantBounds(bounds, SW), depth + 1, maxDepth);
      var se := new QuadTree(QuadrantBounds(bounds, SE), depth + 1, maxDepth);
      children := [nw, ne, sw, se];
      Repr := Repr + {nw, ne, sw, se};
    }

    /** The leaf case of `SplitLeaf`: split, then number the children from `next`. */
    method SplitHere(next: nat) returns (ids: Option<seq<nat>>, nextId: nat)
      requires Valid() && children == []
      modifies this
      ensures Valid() && fresh(Repr - old(Repr))
      ensures if depth < maxDepth
              then && Model() == Trees.Fork(old(Model()).cell, old(shardId), next)
                   && ids == Some([next, next + 1, next + 2, next + 3]) && nextId == next + 4
              else Model() == old(Model()) && ids == None && nextId == next
      ensures depth == old(depth) && maxDepth == old(maxDepth)
      ensures ids.None? ==> unchanged(this)
    {
      hide QuadrantBounds;
      Split();
      if children != [] {
        children[0].shardId := next;
        children[1].shardId := next + 1;
        children[2].shardId := next + 2;
        children[3].shardId := next + 3;
        ForkModel(next, next + 1, next + 2, next + 3);
        return Some([next, next + 1, next + 2, next + 3]), next + 4;
      } else {
        return None, next;
      }
    }

    /** Only the subtree of child `i` changed, and its new nodes were added to `Repr`. */
    twostate predicate OnlyKid(i: nat)
      requires old(Valid()) && old(|children|) == 4 && i < 4
      reads this, Repr
    {
      && children == old(children) && bounds == old(bounds) && depth == old(depth) && maxDepth == old(maxDepth)
          && shardId == old(shardId)
      && children[i] in Repr
      && Repr == old(Repr) + children[i].Repr && fresh(children[i].Repr - old(children[i].Repr))
      && (forall o :: o in old(Repr) && o != this && o !in old(children[i].Repr) ==> o in Repr && unchanged(o))
    }

    twostate lemma {:induction false} KidReplaced(i: nat)
      requires old(Valid()) && old(|children|) == 4 && i < 4 && OnlyKid(i) && children[i].Valid()
      ensures Valid() && forall j :: 0 <= j < 4 && j != i ==> children[j].Model() == old(children[j].Model())
    {
      assert forall j, k :: 0 <= j < k < 4 ==> old(children[j].Repr) !! old(children[k].Repr);
      assert forall j, o :: 0 <= j < 4 && j != i && o in old(children[j].Repr) ==> unchanged(o);
      assert forall j :: 0 <= j < 4 && j != i ==>
        children[j].Valid() && children[j].Model() == old(children[j].Model());
    }

    twostate lemma {:induction false} KidReplacedModel(i: nat)
      requires old(Valid()) && old(|children|) == 4 && i < 4 && OnlyKid(i) && children[i].Valid()
      ensures Valid() && Model() == WithKid(old(Model()), i, children[i].Model())
    {
      hide Valid;
      KidReplaced(i);
    }

    lemma {:induction false} KidOwned(i: nat)
      requires Valid() && i < |children|
      ensures |children| == 4 && children[i] in Repr && children[i].Repr < Repr && this in Repr
          && this !in children[i].Repr && children[i].Valid()
      ensures Model().Node? && Trees.Kids(Model())[i] == children[i].Model()
    {
    }

    /** Run `SplitLeaf` on one child, keeping the rest of this node as it is. */
    method SplitChild(i: nat, target: nat, next: nat) returns (ids: Option<seq<nat>>, nextId: nat)
      requires Valid() && |children| == 4 && i < 4
      modifies Repr
      decreases Repr, 0
      ensures Valid() && fresh(Repr - old(Repr))
      ensures var u := Trees.SplitLeaf(old(children[i].Model()), target, next);
              if u.Some? then && old(Model()).Node? && Model() == WithKid(old(Model()), i, u.value)
                              && ids == Some([next, next + 1, next + 2, next + 3]) && nextId == next + 4
              else Model() == old(Model()) && ids == None && nextId == next
      ensures ids.None? ==> forall o :: o in old(Repr) ==> unchanged(o)
    {
      hide Trees.SplitLeaf, Valid, Model, WithKid;
      KidOwned(i);
      ids, nextId := children[i].SplitLeaf(target, next);
      if ids.Some? {
        Repr := Repr + children[i].Repr;
        KidReplacedModel(i);
      }
    }

    /** Split the leaf `target`, numbering its children from `next`. */
    method SplitLeaf(target: nat, next: nat) returns (ids: Option<seq<nat>>, nextId: nat)
      requires Valid()
      modifies Repr
      decreases Repr, 1
      ensures Valid() && fresh(Repr - old(Repr))
      ensures var u := Trees.SplitLeaf(old(Model()), target, next);
              if u.Some? then Model() == u.value && ids == Some([next, next + 1, next + 2, next + 3]) && nextId
                  == next + 4
              else Model() == old(Model()) && ids == None && nextId == next
      ensures ids.None? ==> forall o :: o in old(Repr) ==> unchanged(o)
    {
      hide Trees.Fork, WithKid;
      if children != [] {
        hide Trees.SplitLeaf, Model, Valid;
        KidOwned(0);
        ghost var t := Model();
        for i := 0 to 4
          invariant forall o :: o in old(Repr) ==> unchanged(o)
          invariant Valid() && |children| == 4 && Model() == t && t.Node?
          invariant forall j :: 0 <= j < i ==> Trees.SplitLeaf(Trees.Kids(t)[j], target, next) == None
        {
          KidOwned(i);
          ids, nextId := SplitChild(i, target, next);
          if ids.Some? {
            SplitAtKid(t, i, target, next);
            return;
          }
        }
        SplitNowhere(t, target, next);
        return None, next;
      } else if shardId == target {
        ids, nextId := SplitHere(next);
      } else {
        return None, next;
      }
    }

    // -------------------------------------------------------------- searching

    /** The id of the leaf that contains the point. */
    function ShardFor(pos: Vec2): (r: Option<nat>)
      requires Valid()
      reads this, Repr
      decreases Repr
      ensures r == Trees.ShardFor(Model(), pos)
    {
      if !Contains(bounds, pos) then None
      else if children == [] then Some(shardId)
      else
        var a := children[0].ShardFor(pos);
        if a.Some? then a else
        var b := children[1].ShardFor(pos);
        if b.Some? then b else
        var c := children[2].ShardFor(pos);
        if c.Some? then c else children[3].ShardFor(pos)
    }

    /** The id of the node one of whose children is `target`. */
    function FindParentOf(target: nat): (r: Option<nat>)
      requires Valid()
      reads this, Repr
      decreases Repr
      ensures r == Trees.FindParentOf(Model(), target)
    {
      if children == [] then None else
      if children[0].shardId == target then Some(shardId) else
      var a := children[0].FindParentOf(target);
      if a.Some? then a else
      if children[1].shardId == target then Some(shardId) else
      var b := children[1].FindParentOf(target);
      if b.Some? then b else
      if children[2].shardId == target then Some(shardId) else
      var c := children[2].FindParentOf(target);
      if c.Some? then c else
      if children[3].shardId == target then Some(shardId) else children[3].FindParentOf(target)
    }

    /** Append the ids of the leaves near the point to the buffer. */
    method ShardsNearImpl(pos: Vec2, margin: real, result: seq<nat>) returns (r: seq<nat>)
      requires Valid()
      decreases Repr
      ensures r == result + Trees.NearList(Model(), pos, margin)
    {
      hide Valid, Model, Trees.NearList;
      RootFacts();
      r := result;
      ghost var t := Model();
      if !RectsOverlap(bounds, MarginBox(pos, margin)) {
        NearApart(t, pos, margin);
        return;
      }
      if children == [] {
        r := r + [shardId];
        NearLeaf(t, pos, margin);
      } else {
        KidOwned(0);
        for i := 0 to 4
          invariant r == result + NearUpTo(t, i, pos, margin)
        {
          KidOwned(i);
          r := children[i].ShardsNearImpl(pos, margin, r);
        }
        NearNode(t, pos, margin);
      }
    }

    /** The ids of the nearby leaves, sorted and without repeats. */
    method ShardsNear(pos: Vec2, margin: real) returns (r: seq<nat>)
      requires Valid()
      ensures r == TreeSearch.ShardsNear(Model(), pos, margin)
    {
      hide Valid, Model, Trees.NearList;
      r := ShardsNearImpl(pos, margin, []);
      assert [] + Trees.NearList(Model(), pos, margin) == Trees.NearList(Model(), pos, margin);
      r := SortDedup(r);
    }

    // -------------------------------------------------------------- merging

    lemma {:induction false} RootFacts()
      requires Valid()
      ensures this in Repr && Model().id == shardId && Model().cell == Trees.Cell(bounds, depth, maxDepth)
      ensures Model().Leaf? <==> children == []
    {
    }

    lemma {:induction false} LeafModel()
      requires this in Repr && children == []
      ensures Valid() && Model() == Trees.Leaf(Trees.Cell(bounds, depth, maxDepth), shardId)
    {
    }

    method TryMergeChild(i: nat, pop: map<nat, nat>, maxPop: nat) returns (res: Option<Siblings>)
      requires Valid() && |children| == 4 && i < 4
      modifies Repr
      decreases Repr, 0
      ensures Valid() && fresh(Repr - old(Repr))
      ensures var m := Trees.TryMerge(old(children[i].Model()), pop, maxPop);
              if m.Some? then && old(Model()).Node? && Model() == WithKid(old(Model()), i, m.value.tree)
                              && res == Some(Siblings(m.value.parent, m.value.children))
              else Model() == old(Model()) && res == None
      ensures res.None? ==> forall o :: o in old(Repr) ==> unchanged(o)
    {
      hide Trees.TryMerge, Valid, Model, WithKid;
      KidOwned(i);
      res := children[i].TryMerge(pop, maxPop);
      if res.Some? {
        Repr := Repr + children[i].Repr;
        KidReplacedModel(i);
      }
    }

    /** The ids and the total population of the four children. */
    method CountChildren(pop: map<nat, nat>) returns (total: nat, ids: seq<nat>)
      requires Valid() && |children| == 4
      ensures Model().Node? && total == FourPopulations(Model(), pop)
      ensures ids == [Model().nw.id, Model().ne.id, Model().sw.id, Model().se.id]
    {
      hide Valid, Model;
      total, ids := 0, [];
      ghost var t := Model();
      KidOwned(0);
      for i := 0 to 4
        invariant |ids| == i && forall j :: 0 <= j < i ==> ids[j] == Trees.Kids(t)[j].id
        invariant total == SumPopulations(Trees.Kids(t)[..i], pop)
      {
        KidOwned(i);
        children[i].RootFacts();
        var cid := children[i].shardId;
        total := total + Trees.Population(pop, cid);
        ids := ids + [cid];
        SumSnoc(Trees.Kids(t)[..i], Trees.Kids(t)[i], pop);
        assert Trees.Kids(t)[..i + 1] == Trees.Kids(t)[..i] + [Trees.Kids(t)[i]];
      }
      SumFour(t, pop);
    }

    /** Merge the first four sibling leaves, bottom up, that hold at most `maxPop` clients. */
    method TryMerge(pop: map<nat, nat>, maxPop: nat) returns (res: Option<Siblings>)
      requires Valid()
      modifies Repr
      decreases Repr, 1
      ensures Valid() && fresh(Repr - old(Repr))
      ensures var m := Trees.TryMerge(old(Model()), pop, maxPop);
              if m.Some? then Model() == m.value.tree && res == Some(Siblings(m.value.parent, m.value.children))
              else Model() == old(Model()) && res == None
      ensures res.None? ==> forall o :: o in old(Repr) ==> unchanged(o)
    {
      hide WithKid, Trees.TryMerge, Model, Valid;
      RootFacts();
      if children != [] {
        KidOwned(0);
        ghost var t := Model();
        for i := 0 to 4
          invariant forall o :: o in old(Repr) ==> unchanged(o)
          invariant Valid() && |children| == 4 && Model() == t && t.Node?
          invariant forall j :: 0 <= j < i ==> Trees.TryMerge(Trees.Kids(t)[j], pop, maxPop) == None
        {
          KidOwned(i);
          res := TryMergeChild(i, pop, maxPop);
          if res.Some? {
            MergeAtKid(t, i, pop, maxPop);
            return;
          }
        }
        MergeHere(t, pop, maxPop);
        res := MergeSelf(pop, maxPop);
      } else {
        LeafStays(Model(), pop, maxPop);
        return None;
      }
    }

    /** Drop the children of this node if they are sparsely populated leaves. */
    method MergeSelf(pop: map<nat, nat>, maxPop: nat) returns (res: Option<Siblings>)
      requires Valid() && |children| == 4
      modifies this
      ensures Valid() && fresh(Repr - old(Repr))
      ensures old(Model()).Node?
      ensures var t := old(Model());
              if t.nw.Leaf? && t.ne.Leaf? && t.sw.Leaf? && t.se.Leaf? && FourPopulations(t, pop) <= maxPop
              then Model() == Trees.Leaf(t.cell, t.id) && res
                  == Some(Siblings(t.id, [t.nw.id, t.ne.id, t.sw.id, t.se.id]))
              else unchanged(this) && Model() == t && res == None
    {
      hide Model, Valid;
      RootFacts();
      var allLeaves := LeafChildren();
      if allLeaves {
        var total, ids := CountChildren(pop);
        if total <= maxPop {
          children := [];
          LeafModel();
          return Some(Siblings(shardId, ids));
        }
      }
      return None;
    }

    /** Whether none of the four children is split. */
    method LeafChildren() returns (all: bool)
      requires Valid() && |children| == 4
      ensures Model().Node?
      ensures all <==> Model().nw.Leaf? && Model().ne.Leaf? && Model().sw.Leaf? && Model().se.Leaf?
    {
      hide Valid, Model;
      KidOwned(0); KidOwned(1); KidOwned(2); KidOwned(3);
      children[0].RootFacts(); children[1].RootFacts(); children[2].RootFacts(); children[3].RootFacts();
      all := children[0].children == [] && children[1].children == [] && children[2].children == []
          && children[3].children == [];
    }

    // -------------------------------------------------------------- collapsing

    twostate lemma {:induction false} KidUntouched(i: nat)
      requires old(Valid()) && unchanged(this) && i < |children|
      requires forall o :: o in old(children[i].Repr) ==> unchanged(o)
      ensures |children| == 4 && children[i].Valid() && children[i].Repr == old(children[i].Repr)
          && children[i].Repr < Repr && this in Repr
      ensures old(Model()).Node? && Trees.Kids(old(Model()))[i] == children[i].Model()
      ensures this !in children[i].Repr && forall j :: i < j < 4 ==> old(children[j].Repr) !! children[i].Repr
    {
    }

    /** Collapse every child, and tell whether a child was hit or is itself in the list. */
    method CollapseChildren(crashed: seq<nat>) returns (collapse: bool)
      requires Valid() && |children| == 4
      modifies Repr - {this}
      decreases Repr, 0
      ensures old(Model()).Node? && collapse == Trees.ForceCollapse(old(Model()), crashed).hit
      ensures !collapse ==> forall o :: o in old(Repr) ==> unchanged(o)
    {
      hide Trees.ForceCollapse, Model, Valid;
      KidOwned(0);
      ghost var t := Model();
      collapse := false;
      for i := 0 to 4
        invariant unchanged(this)
        invariant !collapse ==> forall o :: o in old(Repr) ==> unchanged(o)
        invariant forall j, o :: i <= j < 4 && o in old(children[j].Repr) ==> unchanged(o)
        invariant collapse <==> exists j :: 0 <= j < i && KidStruck(t, j, crashed)
      {
        KidUntouched(i);
        var h := CollapseChild(i, crashed);
        assert h <==> KidStruck(t, i, crashed);
        collapse := collapse || h;
      }
      CollapseByKids(t, crashed);
    }

    /** One round of the loop above. */
    method CollapseChild(i: nat, crashed: seq<nat>) returns (hit: bool)
      requires |children| == 4 && i < 4 && this !in children[i].Repr && children[i].Valid()
      modifies children[i].Repr
      ensures hit
         <==> Trees.ForceCollapse(old(children[i].Model()), crashed).hit || old(children[i].Model()).id in crashed
      ensures !hit ==> forall o :: o in old(children[i].Repr) ==> unchanged(o)
      decreases children[i].Repr, 2
    {
      hide Trees.ForceCollapse, Model, Valid;
      children[i].RootFacts();
      var h := children[i].ForceCollapse(crashed);
      hit := h || children[i].shardId in crashed;
    }

    /** Delete the children of every node with a crashed descendant; true if this node was one. */
    method ForceCollapse(crashed: seq<nat>) returns (hit: bool)
      requires Valid()
      modifies Repr
      decreases Repr, 1
      ensures Valid() && fresh(Repr - old(Repr))
      ensures Model() == Trees.ForceCollapse(old(Model()), crashed).tree && hit
          == Trees.ForceCollapse(old(Model()), crashed).hit
      ensures !hit ==> forall o :: o in old(Repr) ==> unchanged(o)
      ensures shardId == old(shardId)
    {
      if children == [] {
        return false;
      }
      hide Trees.ForceCollapse, Model, Valid;
      RootFacts();
      KidOwned(0);
      ghost var t := Model();
      CollapseByKids(t, crashed);
      var collapse := CollapseChildren(crashed);
      if collapse {
        children := [];
        LeafModel();
        return true;
      }
      return false;
    }
  }

  /** What a merge reports: the parent and its four former children. */
  datatype Siblings = Siblings(parent: nat, children: seq<nat>)
}
