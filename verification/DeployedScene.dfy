/** The deployed world after its first split, in plain coordinates. */
module DeployedScene {
  import opened Geometry
  import opened Options
  import opened Trees
  import opened TreeSearch
  import opened Spatial
  import opened SpatialInvariant
  import opened SpatialLocks
  import opened LockWitnesses
  import opened DeployedWorld

  /** Three clients arrive at the origin and the four new servers come up. */
  ghost function FirstSplit(): seq<Event> {
    Arrivals(Vec2(0.0, 0.0)) + Readies(1)
  }

  lemma {:induction false} DeployedMargin(s: Server)
    requires Inv(DEPLOYED, s)
    ensures s.svc.margin == 50.0
  {
    hide WellFormed, ReadyInv, ClientInv, GroupInv;
  }

  lemma {:induction false} FirstSplitTree()
    ensures var s := After(DEPLOYED, FirstSplit());
            && s.svc.tree == Fork(Cell(DEPLOYED.bounds, 0, 4), 0, 1) && s.svc.margin == 50.0
            && s.pendingReady == map[] && s.parentToChildren == map[] && s.svc.splits == {} && s.svc.merges == {}
  {
    hide After, From, Contains, ChildCell;
    var origin := Vec2(0.0, 0.0);
    DeployedStart();
    ThreeArrive(DEPLOYED, origin);
    ReadiesRelease(After(DEPLOYED, Arrivals(origin)), 0, 1);
    AfterFrom(DEPLOYED, Arrivals(origin), Readies(1));
    ReachableInv(DEPLOYED, FirstSplit());
    DeployedMargin(After(DEPLOYED, FirstSplit()));
  }

  /** The four shards of the first split, in coordinates. */
  lemma {:induction false} FirstQuarters()
    ensures var c := Cell(DEPLOYED.bounds, 0, 4);
            && DEPLOYED.bounds == Rect(Vec2(-1000.0, -1000.0), Vec2(1000.0, 1000.0))
            && ChildCell(c, NW) == Cell(Rect(Vec2(-1000.0, 0.0), Vec2(0.0, 1000.0)), 1, 4)
            && ChildCell(c, NE) == Cell(Rect(Vec2(0.0, 0.0), Vec2(1000.0, 1000.0)), 1, 4)
            && ChildCell(c, SW) == Cell(Rect(Vec2(-1000.0, -1000.0), Vec2(0.0, 0.0)), 1, 4)
            && ChildCell(c, SE) == Cell(Rect(Vec2(0.0, -1000.0), Vec2(1000.0, 0.0)), 1, 4)
  {
    QuadrantCorners(DEPLOYED.bounds);
  }

  lemma {:induction false} NobodyIntercepted(t: Tree, margin: real, pos: Vec2, k: nat)
    requires margin >= 0.0
    ensures PrimaryAt(t, map[], pos) == ShardFor(t, pos)
    ensures k in NearAt(t, map[], margin, pos) <==> k in NearList(t, pos, margin)
  {
    hide ShardFor, NearList;
    var l := ShardsNear(t, pos, margin);
    var near := InterceptAll(map[], l);
    assert near == l;
    if ShardFor(t, pos).Some? { PrimaryIsNear(t, pos, margin); }
  }

  /**
   * After the first split of the deployed world: shard 1 is the upper left quarter, 2 the upper right, 3 the
   * lower left, 4 the lower right; borders belong to the lower number; and a client sees every shard that is
   * at most 50 away from it on either axis, and no other.
   */
  lemma {:induction false} FirstSplitViews(pos: Vec2, k: nat)
    ensures var s := After(DEPLOYED, FirstSplit());
            var near := NearAt(s.svc.tree, s.pendingReady, s.svc.margin, pos);
            && PrimaryAt(s.svc.tree, s.pendingReady, pos) ==
               (if !(-1000.0 <= pos.x <= 1000.0 && -1000.0 <= pos.y <= 1000.0) then None
                else if pos.x <= 0.0 && pos.y >= 0.0 then Some(1)
                else if pos.y >= 0.0 then Some(2)
                else if pos.x <= 0.0 then Some(3) else Some(4))
            && (k in near <==>
                  || (k == 1 && -1050.0 <= pos.x <= 50.0 && -50.0 <= pos.y <= 1050.0)
                  || (k == 2 && -50.0 <= pos.x <= 1050.0 && -50.0 <= pos.y <= 1050.0)
                  || (k == 3 && -1050.0 <= pos.x <= 50.0 && -1050.0 <= pos.y <= 50.0)
                  || (k == 4 && -50.0 <= pos.x <= 1050.0 && -1050.0 <= pos.y <= 50.0))
  {
    hide After, PrimaryAt, NearAt, ChildCell;
    FirstSplitTree();
    FirstQuarters();
    NobodyIntercepted(Fork(Cell(DEPLOYED.bounds, 0, 4), 0, 1), 50.0, pos, k);
  }
}
