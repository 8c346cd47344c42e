/** The pruned searches of the quadtree find what a plain scan of its leaves finds. */
module TreeSearch {
  import opened Geometry
  import opened Options
  import opened SortedIds
  import opened Trees

  /** `shards_near`: the pushed ids, sorted and without repeats. */
  function ShardsNear(t: Tree, pos: Vec2, margin: real): seq<nat> {
    SortDedup(NearList(t, pos, margin))
  }

  // ---------------------------------------------------------------- the reference: a scan

  ghost function Leaves(t: Tree): (r: seq<Tree>)
    ensures forall i :: 0 <= i < |r| ==> r[i].Leaf?
  {
    if t.Leaf? then [t] else Leaves(t.nw) + Leaves(t.ne) + Leaves(t.sw) + Leaves(t.se)
  }

  /** The id of the first listed node whose closed bounds hold the point. */
  ghost function FirstContaining(ls: seq<Tree>, pos: Vec2): Option<nat> {
    if ls == [] then None
    else if Contains(ls[0].cell.bounds, pos) then Some(ls[0].id)
    else FirstContaining(ls[1..], pos)
  }

  /** The ids of the listed nodes whose bounds meet the box, in order. */
  ghost function Meeting(ls: seq<Tree>, box: Rect): seq<nat> {
    if ls == [] then []
    else (if RectsOverlap(ls[0].cell.bounds, box) then [ls[0].id] else []) + Meeting(ls[1..], box)
  }

  lemma {:induction false} FirstContainingAppend(a: seq<Tree>, b: seq<Tree>, pos: Vec2)
    ensures FirstContaining(a + b, pos)
         == if FirstContaining(a, pos).Some? then FirstContaining(a, pos) else FirstContaining(b, pos)
  {
    if a == [] {
      assert a + b == b;
    } else {
      assert (a + b)[1..] == a[1..] + b;
      FirstContainingAppend(a[1..], b, pos);
    }
  }

  lemma {:induction false} MeetingAppend(a: seq<Tree>, b: seq<Tree>, box: Rect)
    ensures Meeting(a + b, box) == Meeting(a, box) + Meeting(b, box)
  {
    if a == [] {
      assert a + b == b;
    } else {
      assert (a + b)[1..] == a[1..] + b;
      MeetingAppend(a[1..], b, box);
    }
  }

  lemma {:induction false} MeetingExact(ls: seq<Tree>, box: Rect, x: nat)
    ensures x in Meeting(ls, box)
       <==> exists i :: 0 <= i < |ls| && ls[i].id == x && RectsOverlap(ls[i].cell.bounds, box)
  {
    if ls != [] {
      MeetingExact(ls[1..], box, x);
      assert forall i :: 0 < i < |ls| ==> ls[i] == ls[1..][i - 1];
      if exists i :: 0 <= i < |ls[1..]| && ls[1..][i].id == x && RectsOverlap(ls[1..][i].cell.bounds, box) {
        var i :| 0 <= i < |ls[1..]| && ls[1..][i].id == x && RectsOverlap(ls[1..][i].cell.bounds, box);
        assert ls[i + 1].id == x;
      }
    }
  }

  // ---------------------------------------------------------------- pruning loses nothing

  lemma {:induction false} FourFirst(t: Tree, pos: Vec2)
    requires t.Node?
    ensures FirstContaining(Leaves(t), pos) ==
            if FirstContaining(Leaves(t.nw), pos).Some? then FirstContaining(Leaves(t.nw), pos) else
            if FirstContaining(Leaves(t.ne), pos).Some? then FirstContaining(Leaves(t.ne), pos) else
            if FirstContaining(Leaves(t.sw), pos).Some? then FirstContaining(Leaves(t.sw), pos) else
            FirstContaining(Leaves(t.se), pos)
  {
    FirstContainingAppend(Leaves(t.nw) + Leaves(t.ne) + Leaves(t.sw), Leaves(t.se), pos);
    FirstContainingAppend(Leaves(t.nw) + Leaves(t.ne), Leaves(t.sw), pos);
    FirstContainingAppend(Leaves(t.nw), Leaves(t.ne), pos);
  }

  lemma {:induction false} OutsideFindsNothing(t: Tree, pos: Vec2)
    requires Shaped(t) && !Contains(t.cell.bounds, pos)
    ensures FirstContaining(Leaves(t), pos) == None
  {
    if t.Node? {
      QuadrantsTile(t.cell.bounds, pos);
      OutsideFindsNothing(t.nw, pos);
      OutsideFindsNothing(t.ne, pos);
      OutsideFindsNothing(t.sw, pos);
      OutsideFindsNothing(t.se, pos);
      FourFirst(t, pos);
    }
  }

  /** `shard_for` is the first leaf, in the order NW, NE, SW, SE, that contains the point. */
  lemma {:induction false} ShardForIsFirstLeaf(t: Tree, pos: Vec2)
    requires Shaped(t)
    ensures ShardFor(t, pos) == FirstContaining(Leaves(t), pos)
  {
    if !Contains(t.cell.bounds, pos) {
      OutsideFindsNothing(t, pos);
    } else if t.Node? {
      ShardForIsFirstLeaf(t.nw, pos);
      ShardForIsFirstLeaf(t.ne, pos);
      ShardForIsFirstLeaf(t.sw, pos);
      ShardForIsFirstLeaf(t.se, pos);
      FourFirst(t, pos);
    }
  }

  /** Every point of the closed world has a shard, and no other point has one. */
  lemma {:induction false} ShardForDefined(t: Tree, pos: Vec2)
    requires Shaped(t)
    ensures ShardFor(t, pos).Some? <==> Contains(t.cell.bounds, pos)
    ensures ShardFor(t, pos).Some? ==> ShardFor(t, pos).value in Ids(t)
  {
    if t.Node? {
      QuadrantsTile(t.cell.bounds, pos);
      ShardForDefined(t.nw, pos);
      ShardForDefined(t.ne, pos);
      ShardForDefined(t.sw, pos);
      ShardForDefined(t.se, pos);
    }
  }

  lemma {:induction false} FourMeeting(t: Tree, box: Rect)
    requires t.Node?
    ensures Meeting(Leaves(t), box) ==
            Meeting(Leaves(t.nw), box) + Meeting(Leaves(t.ne), box) + Meeting(Leaves(t.sw), box)
                + Meeting(Leaves(t.se), box)
  {
    MeetingAppend(Leaves(t.nw) + Leaves(t.ne) + Leaves(t.sw), Leaves(t.se), box);
    MeetingAppend(Leaves(t.nw) + Leaves(t.ne), Leaves(t.sw), box);
    MeetingAppend(Leaves(t.nw), Leaves(t.ne), box);
  }

  lemma {:induction false} ApartMeetsNothing(t: Tree, box: Rect)
    requires Shaped(t) && Proper(box) && !RectsOverlap(t.cell.bounds, box)
    ensures Meeting(Leaves(t), box) == []
  {
    if t.Node? {
      QuadrantsOverlap(t.cell.bounds, box);
      ApartMeetsNothing(t.nw, box);
      ApartMeetsNothing(t.ne, box);
      ApartMeetsNothing(t.sw, box);
      ApartMeetsNothing(t.se, box);
      FourMeeting(t, box);
    }
  }

  /** The pruned descent pushes the ids of exactly the leaves that meet the margin box, in scan order. */
  lemma {:induction false} NearListIsScan(t: Tree, pos: Vec2, margin: real)
    requires Shaped(t) && margin >= 0.0
    ensures NearList(t, pos, margin) == Meeting(Leaves(t), MarginBox(pos, margin))
  {
    if !RectsOverlap(t.cell.bounds, MarginBox(pos, margin)) {
      ApartMeetsNothing(t, MarginBox(pos, margin));
    } else if t.Node? {
      NearListIsScan(t.nw, pos, margin);
      NearListIsScan(t.ne, pos, margin);
      NearListIsScan(t.sw, pos, margin);
      NearListIsScan(t.se, pos, margin);
      FourMeeting(t, MarginBox(pos, margin));
    }
  }

  /** `shards_near` is strictly increasing and lists exactly the leaves meeting the margin box. */
  lemma {:induction false} ShardsNearExact(t: Tree, pos: Vec2, margin: real)
    requires Shaped(t) && margin >= 0.0
    ensures Increasing(ShardsNear(t, pos, margin))
    ensures forall x: nat :: x in ShardsNear(t, pos, margin) <==>
              exists i :: 0 <= i < |Leaves(t)| && Leaves(t)[i].id == x
                  && RectsOverlap(Leaves(t)[i].cell.bounds, MarginBox(pos, margin))
  {
    NearListIsScan(t, pos, margin);
    forall x: nat {
      MeetingExact(Leaves(t), MarginBox(pos, margin), x);
    }
  }

  lemma {:induction false} LeavesProper(t: Tree, i: nat)
    requires Shaped(t) && i < |Leaves(t)|
    ensures Proper(Leaves(t)[i].cell.bounds)
  {
    if t.Node? {
      var a, b, c := |Leaves(t.nw)|, |Leaves(t.ne)|, |Leaves(t.sw)|;
      if i < a { LeavesProper(t.nw, i); }
      else if i < a + b { LeavesProper(t.ne, i - a); }
      else if i < a + b + c { LeavesProper(t.sw, i - a - b); }
      else { LeavesProper(t.se, i - a - b - c); }
    }
  }

  /**
   * `shards_near` in coordinates: a shard is listed if and only if some point of it is at most `margin`
   * away from the position on either axis.
   */
  lemma {:induction false} NearInCoordinates(t: Tree, pos: Vec2, margin: real, x: nat)
    requires Shaped(t) && margin >= 0.0
    ensures x in ShardsNear(t, pos, margin) <==>
              exists i, p :: 0 <= i < |Leaves(t)| && Leaves(t)[i].id == x
                  && Reaches(Leaves(t)[i].cell.bounds, pos, margin, p)
  {
    hide ShardsNear, Shaped, RectsOverlap, MarginBox, Reaches, Leaves;
    ShardsNearExact(t, pos, margin);
    forall i | 0 <= i < |Leaves(t)|
      ensures RectsOverlap(Leaves(t)[i].cell.bounds, MarginBox(pos, margin)) <==>
                exists p :: Reaches(Leaves(t)[i].cell.bounds, pos, margin, p)
    {
      LeavesProper(t, i);
      MarginBoxReaches(Leaves(t)[i].cell.bounds, pos, margin);
    }
  }

  lemma {:induction false} FirstContainingAt(ls: seq<Tree>, pos: Vec2, x: nat)
    ensures FirstContaining(ls, pos) == Some(x) <==>
              exists i :: 0 <= i < |ls| && ls[i].id == x && Contains(ls[i].cell.bounds, pos)
                  && forall j :: 0 <= j < i ==> !Contains(ls[j].cell.bounds, pos)
  {
    hide Contains;
    if ls != [] && !Contains(ls[0].cell.bounds, pos) {
      var rest := ls[1..];
      assert forall i :: 0 <= i < |rest| ==> rest[i] == ls[i + 1];
      FirstContainingAt(rest, pos, x);
      if FirstContaining(rest, pos) == Some(x) {
        var i :| 0 <= i < |rest| && rest[i].id == x && Contains(rest[i].cell.bounds, pos)
          && forall j :: 0 <= j < i ==> !Contains(rest[j].cell.bounds, pos);
        assert forall j :: 0 < j < i + 1 ==> ls[j] == rest[j - 1];
        assert ls[i + 1].id == x;
      }
      if i :| (0 <= i < |ls| && ls[i].id == x && Contains(ls[i].cell.bounds, pos)
               && forall j :: 0 <= j < i ==> !Contains(ls[j].cell.bounds, pos)) {
        assert forall j :: 0 <= j < i - 1 ==> rest[j] == ls[j + 1];
        assert rest[i - 1].id == x;
      }
    }
  }

  /**
   * `shard_for` in coordinates: the first leaf, in the order NW, NE, SW, SE, whose closed bounds hold the
   * position; none exactly outside the closed bounds of the root.
   */
  lemma {:induction false} ShardForInCoordinates(t: Tree, pos: Vec2, x: nat)
    requires Shaped(t)
    ensures var b := t.cell.bounds;
            ShardFor(t, pos).Some? <==> b.min.x <= pos.x <= b.max.x && b.min.y <= pos.y <= b.max.y
    ensures ShardFor(t, pos) == Some(x) <==>
              exists i :: 0 <= i < |Leaves(t)| && Leaves(t)[i].id == x
                  && Leaves(t)[i].cell.bounds.min.x <= pos.x <= Leaves(t)[i].cell.bounds.max.x
                  && Leaves(t)[i].cell.bounds.min.y <= pos.y <= Leaves(t)[i].cell.bounds.max.y
                  && forall j :: 0 <= j < i ==> !Contains(Leaves(t)[j].cell.bounds, pos)
  {
    hide Shaped, Leaves, ShardFor;
    ShardForDefined(t, pos);
    ShardForIsFirstLeaf(t, pos);
    FirstContainingAt(Leaves(t), pos, x);
  }

  /** The shard a player stands in is always one of the shards near the player. */
  lemma {:induction false} PrimaryIsNear(t: Tree, pos: Vec2, margin: real)
    requires margin >= 0.0 && ShardFor(t, pos).Some?
    ensures ShardFor(t, pos).value in NearList(t, pos, margin)
    ensures ShardFor(t, pos).value in ShardsNear(t, pos, margin)
  {
    if t.Node? {
      if ShardFor(t.nw, pos).Some? {
        PrimaryIsNear(t.nw, pos, margin);
      } else if ShardFor(t.ne, pos).Some? {
        PrimaryIsNear(t.ne, pos, margin);
      } else if ShardFor(t.sw, pos).Some? {
        PrimaryIsNear(t.sw, pos, margin);
      } else {
        PrimaryIsNear(t.se, pos, margin);
      }
    }
  }

  /** The quadrant of the `i`-th leaf of a node, and its place among the leaves of that quadrant. */
  ghost function QuadrantOf(t: Tree, i: nat): Quadrant
    requires t.Node? && i < |Leaves(t)|
  {
    if i < |Leaves(t.nw)| then NW
    else if i < |Leaves(t.nw)| + |Leaves(t.ne)| then NE
    else if i < |Leaves(t.nw)| + |Leaves(t.ne)| + |Leaves(t.sw)| then SW else SE
  }

  ghost function KidAt(t: Tree, q: Quadrant): (r: Tree)
    requires t.Node?
    ensures r < t
  {
    match q case NW => t.nw case NE => t.ne case SW => t.sw case SE => t.se
  }

  ghost function PlaceOf(t: Tree, i: nat): (j: int)
    requires t.Node? && i < |Leaves(t)|
  {
    match QuadrantOf(t, i)
    case NW => i
    case NE => i - |Leaves(t.nw)|
    case SW => i - |Leaves(t.nw)| - |Leaves(t.ne)|
    case SE => i - |Leaves(t.nw)| - |Leaves(t.ne)| - |Leaves(t.sw)|
  }

  lemma {:induction false} LeafAt(t: Tree, i: nat)
    requires t.Node? && i < |Leaves(t)|
    ensures var kid, j := KidAt(t, QuadrantOf(t, i)), PlaceOf(t, i);
            0 <= j < |Leaves(kid)| && Leaves(t)[i] == Leaves(kid)[j]
  {
  }

  /** Two leaves of one quadrant keep their order in it. */
  lemma {:induction false} LeavesOrdered(t: Tree, i: nat, j: nat)
    requires t.Node? && i < j < |Leaves(t)| && QuadrantOf(t, i) == QuadrantOf(t, j)
    ensures PlaceOf(t, i) < PlaceOf(t, j)
  {
  }

  lemma {:induction false} KidShaped(t: Tree, q: Quadrant)
    requires t.Node? && Shaped(t)
    ensures Shaped(KidAt(t, q)) && KidAt(t, q).cell.bounds == QuadrantBounds(t.cell.bounds, q)
  {
  }

  lemma {:induction false} LeafInside(t: Tree, pos: Vec2, i: nat)
    requires Shaped(t) && i < |Leaves(t)| && StrictlyInside(Leaves(t)[i].cell.bounds, pos)
    ensures StrictlyInside(t.cell.bounds, pos)
    ensures t.Node? ==> StrictlyInside(QuadrantBounds(t.cell.bounds, QuadrantOf(t, i)), pos)
  {
    if t.Node? {
      hide Leaves, QuadrantOf, PlaceOf, KidAt, QuadrantBounds;
      QuadrantCorners(t.cell.bounds);
      LeafAt(t, i);
      KidShaped(t, QuadrantOf(t, i));
      LeafInside(KidAt(t, QuadrantOf(t, i)), pos, PlaceOf(t, i));
    }
  }

  /** No point lies strictly inside two leaves: the leaves partition the world up to their borders. */
  lemma {:induction false} LeavesDisjoint(t: Tree, pos: Vec2, i: nat, j: nat)
    requires Shaped(t) && i < j < |Leaves(t)|
    ensures !(StrictlyInside(Leaves(t)[i].cell.bounds, pos) && StrictlyInside(Leaves(t)[j].cell.bounds, pos))
  {
    if t.Node? && StrictlyInside(Leaves(t)[i].cell.bounds, pos) && StrictlyInside(Leaves(t)[j].cell.bounds, pos) {
      hide Leaves, QuadrantOf, PlaceOf, KidAt, QuadrantBounds, StrictlyInside;
      var q := QuadrantOf(t, i);
      assert Proper(t.cell.bounds);
      QuadrantsTile(t.cell.bounds, pos);
      LeafInside(t, pos, i);
      LeafInside(t, pos, j);
      LeafAt(t, i);
      LeafAt(t, j);
      LeavesOrdered(t, i, j);
      KidShaped(t, q);
      LeavesDisjoint(KidAt(t, q), pos, PlaceOf(t, i), PlaceOf(t, j));
    }
  }
}
