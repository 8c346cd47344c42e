/** Short histories, of any world they fit in, after which shard 0 is locked but not split. */
module LockWitnesses {
  import opened Geometry
  import opened Options
  import opened Trees
  import opened TreeSearch
  import opened TreeSurgery
  import opened Spatial
  import opened SpatialInvariant
  import opened SpatialLocks
  import opened LockLeaks
  import opened DeployedWorld

  /** One undivided world with these clients in it, and nobody waiting; the next shard is `n`. */
  ghost predicate Undivided(w: World, s: Server, n: nat, clients: set<nat>) {
    && s.svc.tree == Leaf(Cell(w.bounds, 0, w.max), 0) && s.svc.nextId == n && s.svc.splits == {} && s.svc.merges == {}
    && s.pendingReady == map[] && s.parentToChildren == map[]
    && s.svc.primary.Keys == clients && forall c :: c in clients ==> s.svc.primary[c] == 0
  }

  /** Freshly split into the shards `n` to `n + 3`, which boot, with every client still in shard 0. */
  ghost predicate JustSplit(w: World, s: Server, n: nat, clients: set<nat>) {
    && s.svc.tree == Fork(Cell(w.bounds, 0, w.max), 0, n) && s.svc.nextId == n + 4
    && s.svc.splits == {0} && s.svc.merges == {}
    && s.pendingReady == map[n := 0, n + 1 := 0, n + 2 := 0, n + 3 := 0]
    && s.parentToChildren == map[0 := [n, n + 1, n + 2, n + 3]]
    && s.svc.primary.Keys == clients && forall c :: c in clients ==> s.svc.primary[c] == 0
  }

  /** The world can split and the point lies in it. */
  ghost predicate Divisible(w: World, pos: Vec2) {
    Sound(w) && w.max > 0 && Contains(w.bounds, pos)
  }

  lemma {:induction false} MovesIn(w: World, pos: Vec2, s: Server, n: nat, clients: set<nat>, c: nat)
    requires Contains(w.bounds, pos) && Undivided(w, s, n, clients)
    ensures PrimaryAt(s.svc.tree, s.pendingReady, pos) == Some(0)
    ensures var m := s.(svc := Moved(s.svc, c, pos, s.pendingReady).service);
            Undivided(w, m, n, clients + {c}) && CountAt(m.svc.primary, 0) == |clients + {c}|
  {
    hide NearAt;
    var m := s.(svc := Moved(s.svc, c, pos, s.pendingReady).service);
    assert m.svc.primary.Keys == clients + {c};
    assert ClientsAt(m.svc.primary, 0) == clients + {c};
  }

  lemma {:induction false} AwaitFresh(n: nat, p: nat)
    ensures Await(map[], [n, n + 1, n + 2, n + 3], p) == map[n := p, n + 1 := p, n + 2 := p, n + 3 := p]
  {
    AwaitExact(map[], n, p);
  }

  lemma {:induction false} Crowded(w: World, s: Server, n: nat, clients: set<nat>)
    requires Undivided(w, s, n, clients) && CountAt(s.svc.primary, 0) == |clients|
    ensures var t := ScaleStep(s, Some(0));
            if |clients| <= MAX_POPULATION then t == s
            else if w.max > 0 then JustSplit(w, t, n, clients) else Stuck(t, 0)
  {
    hide CountAt, Await, ChildCell;
    AwaitFresh(n, 0);
  }

  lemma {:induction false} Arrive(w: World, pos: Vec2, s: Server, n: nat, clients: set<nat>, c: nat)
    requires Contains(w.bounds, pos) && Undivided(w, s, n, clients)
    ensures var t := OnPosition(s, c, pos);
            if |clients + {c}| <= MAX_POPULATION then Undivided(w, t, n, clients + {c})
            else if w.max > 0 then JustSplit(w, t, n, clients + {c}) else Stuck(t, 0)
  {
    hide OnPosition, Moved, PrimaryAt, ScaleStep, Undivided, JustSplit, Stuck, CountAt;
    PositionInTwoParts(s, c, pos);
    MovesIn(w, pos, s, n, clients, c);
    Crowded(w, s.(svc := Moved(s.svc, c, pos, s.pendingReady).service), n, clients + {c});
  }

  /** Three clients report the same place. */
  ghost function Arrivals(pos: Vec2): seq<Event> {
    [Position(1, pos), Position(2, pos), Position(3, pos)]
  }

  lemma {:induction false} Start(w: World)
    ensures Undivided(w, After(w, []), 1, {})
  {
  }

  lemma {:induction false} AfterLast(w: World, events: seq<Event>, e: Event)
    ensures After(w, events + [e]) == Step(After(w, events), e)
  {
    hide Step;
    assert (events + [e])[..|events + [e]| - 1] == events;
  }

  /** Three arrivals split the world or, where it may not be divided, lock shard 0 for good. */
  lemma {:induction false} ThreeArrive(w: World, pos: Vec2)
    requires Contains(w.bounds, pos)
    ensures if w.max > 0 then JustSplit(w, After(w, Arrivals(pos)), 1, {1, 2, 3})
            else Stuck(After(w, Arrivals(pos)), 0)
  {
    hide OnPosition, JustSplit, Stuck, Contains, After;
    var none: seq<Event> := [];
    var one := none + [Position(1, pos)];
    var two := one + [Position(2, pos)];
    assert Arrivals(pos) == two + [Position(3, pos)];
    Start(w);
    AfterLast(w, none, Position(1, pos));
    AfterLast(w, one, Position(2, pos));
    AfterLast(w, two, Position(3, pos));
    assert {} + {1} == {1} && {1} + {2} == {1, 2} && {1, 2} + {3} == {1, 2, 3};
    Arrive(w, pos, After(w, none), 1, {}, 1);
    Arrive(w, pos, After(w, one), 1, {1}, 2);
    Arrive(w, pos, After(w, two), 1, {1, 2}, 3);
  }

  lemma {:induction false} ForgetFrame(s: Service, c: nat)
    ensures Forget(s, c).tree == s.tree && Forget(s, c).splits == s.splits
  {
  }

  lemma {:induction false} NobodyElsewhere(s: Service, c: nat)
    requires forall d :: d in s.primary ==> s.primary[d] == 0
    ensures forall k: nat :: k > 0 ==> Population(Populations(Forget(s, c).primary), k) == 0
    ensures Forget(s, c).tree == s.tree
  {
  }

  lemma {:induction false} LeaveMerges(w: World, s: Server, clients: set<nat>, c: nat)
    requires JustSplit(w, s, 1, clients)
    ensures Stuck(OnDisconnect(s, c), 0)
  {
    hide ChildCell, Forget;
    DisconnectForm(s, c);
    var pop := Populations(Forget(s.svc, c).primary);
    NobodyElsewhere(s.svc, c);
    assert TryMerge(s.svc.tree, pop, MIN_POPULATION)
        == Some(Merged(Leaf(Cell(w.bounds, 0, w.max), 0), 0, [1, 2, 3, 4]));
    assert Forget(s.svc, c).splits == {0} by { ForgetFrame(s.svc, c); }
  }

  /** One departure while the four new servers boot merges them away and leaves shard 0 locked for good. */
  lemma {:induction false} LeaveLeaksLock(w: World, pos: Vec2, future: seq<Event>)
    requires Divisible(w, pos) && NeverNamed(future, 0)
    ensures Stuck(After(w, Arrivals(pos) + [Disconnect(1)] + future), 0)
  {
    hide After, Stuck, JustSplit;
    ThreeArrive(w, pos);
    LeaveMerges(w, After(w, Arrivals(pos)), {1, 2, 3}, 1);
    var past := Arrivals(pos) + [Disconnect(1)];
    AfterLast(w, Arrivals(pos), Disconnect(1));
    assert NoCrash(past);
    StuckForever(w, past, future, 0);
  }

  // ---------------------------------------------------------------- down to the maximum depth

  /** The depth of the leaf that holds the point. */
  ghost function DepthAt(t: Tree, pos: Vec2): nat
    requires ShardFor(t, pos).Some?
  {
    if t.Leaf? then t.cell.depth
    else if ShardFor(t.nw, pos).Some? then DepthAt(t.nw, pos)
    else if ShardFor(t.ne, pos).Some? then DepthAt(t.ne, pos)
    else if ShardFor(t.sw, pos).Some? then DepthAt(t.sw, pos)
    else DepthAt(t.se, pos)
  }

  lemma {:induction false} ForkDeepens(cell: Cell, id: nat, next: nat, pos: Vec2)
    requires Proper(cell.bounds) && Contains(cell.bounds, pos)
    ensures ShardFor(Fork(cell, id, next), pos).Some? && DepthAt(Fork(cell, id, next), pos) == cell.depth + 1
  {
    QuadrantsTile(cell.bounds, pos);
  }

  /** The leaf at a point can be split exactly above the maximum depth, and then the point is one level deeper. */
  lemma {:induction false} SplitDeepens(t: Tree, pos: Vec2, p: nat, next: nat)
    requires Shaped(t) && Unique(t) && ShardFor(t, pos) == Some(p)
    ensures DepthAt(t, pos) <= t.cell.max
    ensures SplitLeaf(t, p, next).Some? <==> DepthAt(t, pos) < t.cell.max
    ensures SplitLeaf(t, p, next).Some? ==>
              var u := SplitLeaf(t, p, next).value;
              ShardFor(u, pos).Some? && DepthAt(u, pos) == DepthAt(t, pos) + 1
  {
    if t.Leaf? {
      if t.cell.depth < t.cell.max { ForkDeepens(t.cell, t.id, next, pos); }
    } else {
      hide QuadrantBounds, Proper, Contains;
      ShardForDefined(t.nw, pos);
      ShardForDefined(t.ne, pos);
      ShardForDefined(t.sw, pos);
      ShardForDefined(t.se, pos);
      if ShardFor(t.nw, pos).Some? {
        SplitDeepens(t.nw, pos, p, next);
        NoSplitElsewhere(t.ne, p, next); NoSplitElsewhere(t.sw, p, next); NoSplitElsewhere(t.se, p, next);
      } else if ShardFor(t.ne, pos).Some? {
        SplitDeepens(t.ne, pos, p, next);
        NoSplitElsewhere(t.nw, p, next); NoSplitElsewhere(t.sw, p, next); NoSplitElsewhere(t.se, p, next);
      } else if ShardFor(t.sw, pos).Some? {
        SplitDeepens(t.sw, pos, p, next);
        NoSplitElsewhere(t.nw, p, next); NoSplitElsewhere(t.ne, p, next); NoSplitElsewhere(t.se, p, next);
      } else {
        SplitDeepens(t.se, pos, p, next);
        NoSplitElsewhere(t.nw, p, next); NoSplitElsewhere(t.ne, p, next); NoSplitElsewhere(t.sw, p, next);
      }
    }
  }

  /** Nobody is waited for, `p` is the unlocked shard at the point, and these clients are in it. */
  ghost predicate Calm(w: World, s: Server, pos: Vec2, p: nat, clients: set<nat>) {
    && Inv(w, s) && s.pendingReady == map[] && s.parentToChildren == map[]
    && ShardFor(s.svc.tree, pos) == Some(p) && ClientsAt(s.svc.primary, p) == clients
    && p !in s.svc.splits && p !in s.svc.merges
    && (forall x :: x in s.svc.splits ==> x < s.svc.nextId) && (forall x :: x in s.svc.merges ==> x < s.svc.nextId)
  }

  /** `p` was just split and its four children boot; nothing else is waited for. */
  ghost predicate JustForked(w: World, s: Server, pos: Vec2, p: nat, n: nat) {
    && Inv(w, s) && s.pendingReady == map[n := p, n + 1 := p, n + 2 := p, n + 3 := p]
    && s.parentToChildren == map[p := [n, n + 1, n + 2, n + 3]] && p !in s.svc.merges && s.svc.nextId == n + 4
    && ShardFor(s.svc.tree, pos).Some? && ShardFor(s.svc.tree, pos).value in Four(n)
    && (forall c :: c in s.svc.primary ==> s.svc.primary[c] < n)
    && (forall x :: x in s.svc.splits ==> x < n) && (forall x :: x in s.svc.merges ==> x < n)
  }

  lemma {:induction false} CalmMove(w: World, s: Server, pos: Vec2, p: nat, clients: set<nat>, c: nat)
    requires Calm(w, s, pos, p, clients)
    ensures PrimaryAt(s.svc.tree, s.pendingReady, pos) == Some(p)
    ensures var m := s.(svc := Moved(s.svc, c, pos, s.pendingReady).service);
            Calm(w, m, pos, p, clients + {c}) && CountAt(m.svc.primary, p) == |clients + {c}|
  {
    hide NearAt, Inv, ShardFor;
    MovedKeepsInv(w, s, c, pos);
    var m := s.(svc := Moved(s.svc, c, pos, s.pendingReady).service);
    assert ClientsAt(m.svc.primary, p) == clients + {c};
  }

  lemma {:induction false} CalmLeaf(w: World, s: Server, pos: Vec2, p: nat)
    requires Inv(w, s) && ShardFor(s.svc.tree, pos) == Some(p)
    ensures Shaped(s.svc.tree) && Unique(s.svc.tree) && s.svc.tree.cell.max == w.max
    ensures HasLeaf(s.svc.tree, p) && p !in InnerIds(s.svc.tree) && p < s.svc.nextId
    ensures Ids(s.svc.tree) !! Four(s.svc.nextId)
    ensures forall c :: c in s.svc.primary ==> s.svc.primary[c] < s.svc.nextId
  {
    hide Shaped, Unique, Numbered, ReadyInv, GroupInv;
    assert Shaped(s.svc.tree) && Unique(s.svc.tree);
    ShardForDefined(s.svc.tree, pos);
    ShardForIsLeaf(s.svc.tree, pos);
    LeafOrInner(s.svc.tree, p);
    forall c | c in s.svc.primary ensures s.svc.primary[c] < s.svc.nextId {
      assert Settled(s.pendingReady, s.svc, s.svc.primary[c]);
    }
  }

  /** After a split of `p` the point lies in one of the four new leaves. */
  lemma {:induction false} SplitHolds(t: Tree, pos: Vec2, p: nat, n: nat)
    requires Shaped(t) && Unique(t) && ShardFor(t, pos) == Some(p) && SplitLeaf(t, p, n).Some? && Ids(t) !! Four(n)
    requires p !in Four(n)
    ensures var u := SplitLeaf(t, p, n).value;
            ShardFor(u, pos).Some? && ShardFor(u, pos).value in Four(n)
  {
    hide Shaped, Unique, SplitLeaf, ShardFor;
    var u := SplitLeaf(t, p, n).value;
    SplitRenamesShardFor(t, p, n, pos);
    SplitInner(t, p, n);
    SplitUnique(t, p, n);
    ShardForIsLeaf(u, pos);
    LeafOrInner(u, ShardFor(u, pos).value);
  }

  /** The third client in a shard splits it or, at the maximum depth, locks it for good. */
  lemma {:induction false} CalmScale(w: World, s: Server, pos: Vec2, p: nat, clients: set<nat>)
    requires Calm(w, s, pos, p, clients) && CountAt(s.svc.primary, p) == |clients|
    ensures var t := ScaleStep(s, Some(p));
            if |clients| <= MAX_POPULATION then t == s
            else if DepthAt(s.svc.tree, pos) < w.max then
              JustForked(w, t, pos, p, s.svc.nextId) && DepthAt(t.svc.tree, pos) == DepthAt(s.svc.tree, pos) + 1
            else Stuck(t, p)
  {
    hide Inv, CountAt, SplitLeaf, ShardFor, Shaped, Unique, InnerIds, Ids, HasLeaf, Await, DepthAt;
    var t, n := ScaleStep(s, Some(p)), s.svc.nextId;
    CalmLeaf(w, s, pos, p);
    SplitDeepens(s.svc.tree, pos, p, n);
    if |clients| > MAX_POPULATION && SplitLeaf(s.svc.tree, p, n).Some? {
      SplitHolds(s.svc.tree, pos, p, n);
      PrimarySettled(w, s, pos);
      ScaleKeepsInv(w, s, Some(p));
      AwaitFresh(n, p);
    }
  }

  lemma {:induction false} WithoutHead(k: nat, rest: seq<nat>)
    requires k !in rest
    ensures Without([k] + rest, k) == rest
  {
    var l := [k] + rest;
    if rest == [] {
      assert l[..|l| - 1] == [];
      assert Without([], k) == [];
    } else {
      var front := rest[..|rest| - 1];
      assert l[..|l| - 1] == [k] + front && rest == front + [rest[|rest| - 1]];
      WithoutHead(k, front);
    }
  }

  /** One Ready of a group that is the only one waited for. */
  lemma {:induction false} OneReady(s: Server, p: nat, k: nat, rest: seq<nat>)
    requires s.parentToChildren == map[p := [k] + rest] && k !in rest && p !in s.svc.merges
    requires k in s.pendingReady && s.pendingReady[k] == p
    ensures var r := OnReady(s, k);
            && r.pendingReady == s.pendingReady - {k}
            && (if rest != [] then r.parentToChildren == map[p := rest] && r.svc == s.svc
                else r.parentToChildren == map[] && r.svc == s.svc.(splits := s.svc.splits - {p}))
  {
    hide Without;
    WithoutHead(k, rest);
  }

  ghost function Readies(n: nat): seq<Event> {
    [Ready(n)] + [Ready(n + 1)] + [Ready(n + 2)] + [Ready(n + 3)]
  }

  lemma {:induction false} FromOne(s: Server, e: Event)
    ensures From(s, [e]) == Step(s, e)
  {
    hide Step;
    assert [e][..0] == [];
    assert From(s, []) == s;
  }

  lemma {:induction false} FromFour(s: Server, a: Event, b: Event, c: Event, d: Event)
    ensures From(s, [a] + [b] + [c] + [d]) == Step(Step(Step(Step(s, a), b), c), d)
  {
    hide Step, From;
    FromOne(s, a);
    FromAppend(s, [a], [b]);
    FromOne(From(s, [a]), b);
    FromAppend(s, [a] + [b], [c]);
    FromOne(From(s, [a] + [b]), c);
    FromAppend(s, [a] + [b] + [c], [d]);
    FromOne(From(s, [a] + [b] + [c]), d);
  }

  /** The four Readys of the only group that is waited for. */
  lemma {:induction false} ReadiesRelease(s: Server, p: nat, n: nat)
    requires s.pendingReady == map[n := p, n + 1 := p, n + 2 := p, n + 3 := p]
    requires s.parentToChildren == map[p := [n, n + 1, n + 2, n + 3]] && p !in s.svc.merges
    ensures From(s, Readies(n)) == Server(s.svc.(splits := s.svc.splits - {p}), map[], map[])
  {
    hide OnReady;
    var a := OnReady(s, n);
    var b := OnReady(a, n + 1);
    var c := OnReady(b, n + 2);
    assert [n, n + 1, n + 2, n + 3] == [n] + [n + 1, n + 2, n + 3];
    assert [n + 1, n + 2, n + 3] == [n + 1] + [n + 2, n + 3];
    assert [n + 2, n + 3] == [n + 2] + [n + 3] && [n + 3] == [n + 3] + [];
    OneReady(s, p, n, [n + 1, n + 2, n + 3]);
    OneReady(a, p, n + 1, [n + 2, n + 3]);
    OneReady(b, p, n + 2, [n + 3]);
    OneReady(c, p, n + 3, []);
    FromFour(s, Ready(n), Ready(n + 1), Ready(n + 2), Ready(n + 3));
  }

  lemma {:induction false} FourReady(w: World, s: Server, pos: Vec2, p: nat, n: nat)
    requires JustForked(w, s, pos, p, n)
    ensures var r := From(s, Readies(n));
            r.svc.tree == s.svc.tree && Calm(w, r, pos, ShardFor(s.svc.tree, pos).value, {})
  {
    hide Inv, ShardFor, From;
    ReadiesRelease(s, p, n);
    FromKeepsInv(w, s, Readies(n));
    var q := ShardFor(s.svc.tree, pos).value;
    assert q >= n;
    assert ClientsAt(From(s, Readies(n)).svc.primary, q) == {};
  }

  /** One arrival in a calm world. */
  lemma {:induction false} CalmArrive(w: World, s: Server, pos: Vec2, p: nat, clients: set<nat>, c: nat)
    requires Calm(w, s, pos, p, clients)
    ensures var t := OnPosition(s, c, pos);
            if |clients + {c}| <= MAX_POPULATION then
              Calm(w, t, pos, p, clients + {c}) && t.svc.tree == s.svc.tree && t.svc.nextId == s.svc.nextId
            else if DepthAt(s.svc.tree, pos) < w.max then
              JustForked(w, t, pos, p, s.svc.nextId) && DepthAt(t.svc.tree, pos) == DepthAt(s.svc.tree, pos) + 1
            else Stuck(t, p)
  {
    hide OnPosition, Moved, PrimaryAt, ScaleStep, JustForked, Stuck, CountAt, Inv, ShardFor, DepthAt, ClientsAt;
    PositionInTwoParts(s, c, pos);
    CalmMove(w, s, pos, p, clients, c);
    MovedLocks(s, c, pos);
    CalmScale(w, s.(svc := Moved(s.svc, c, pos, s.pendingReady).service), pos, p, clients + {c});
  }

  lemma {:induction false} CalmCrowd(w: World, s: Server, pos: Vec2, p: nat)
    requires Calm(w, s, pos, p, {})
    ensures var t := From(s, Arrivals(pos));
            if DepthAt(s.svc.tree, pos) < w.max then
              JustForked(w, t, pos, p, s.svc.nextId) && DepthAt(t.svc.tree, pos) == DepthAt(s.svc.tree, pos) + 1
            else Stuck(t, p)
  {
    hide OnPosition, JustForked, Stuck, From, DepthAt, Inv, ShardFor, ClientsAt;
    var a := OnPosition(s, 1, pos);
    var b := OnPosition(a, 2, pos);
    assert {} + {1} == {1} && {1} + {2} == {1, 2} && {1, 2} + {3} == {1, 2, 3};
    CalmArrive(w, s, pos, p, {}, 1);
    CalmArrive(w, a, pos, p, {1}, 2);
    CalmArrive(w, b, pos, p, {1, 2}, 3);
    assert Arrivals(pos) == [Position(1, pos)] + [Position(2, pos)] + [Position(3, pos)];
    FromOne(s, Position(1, pos));
    FromAppend(s, [Position(1, pos)], [Position(2, pos)]);
    FromOne(a, Position(2, pos));
    FromAppend(s, [Position(1, pos)] + [Position(2, pos)], [Position(3, pos)]);
    FromOne(b, Position(3, pos));
  }

  lemma {:induction false} ForkedShard(w: World, s: Server, pos: Vec2, p: nat, n: nat)
    requires JustForked(w, s, pos, p, n)
    ensures ShardFor(s.svc.tree, pos).Some?
  {
  }

  lemma {:induction false} CalmDepth(w: World, s: Server, pos: Vec2, p: nat)
    requires Calm(w, s, pos, p, {})
    ensures DepthAt(s.svc.tree, pos) <= w.max && p < s.svc.nextId
  {
    hide Inv, ShardFor, DepthAt, SplitLeaf;
    CalmLeaf(w, s, pos, p);
    SplitDeepens(s.svc.tree, pos, p, s.svc.nextId);
  }

  /**
   * From any calm state: three clients at one point split its shard, the four new servers come up, the
   * same three clients move on into the new shard and split it again, until at the maximum depth their
   * shard is locked without being split.
   */
  lemma {:induction false} CrowdLocksDeepest(w: World, s: Server, pos: Vec2, p: nat) returns (events: seq<Event>,
          q: nat)
    requires Calm(w, s, pos, p, {})
    ensures NoCrash(events) && Stuck(From(s, events), q)
    ensures |events| == 7 * (w.max - DepthAt(s.svc.tree, pos)) + 3
    decreases w.max - DepthAt(s.svc.tree, pos)
  {
    hide JustForked, Stuck, From, DepthAt, Inv, ShardFor, ClientsAt;
    CalmCrowd(w, s, pos, p);
    CalmDepth(w, s, pos, p);
    if DepthAt(s.svc.tree, pos) < w.max {
      var n := s.svc.nextId;
      var t := From(s, Arrivals(pos));
      FourReady(w, t, pos, p, n);
      ForkedShard(w, t, pos, p, n);
      var r := From(t, Readies(n));
      var rest: seq<Event>;
      rest, q := CrowdLocksDeepest(w, r, pos, ShardFor(t.svc.tree, pos).value);
      FromAppend(s, Arrivals(pos), Readies(n));
      FromAppend(s, Arrivals(pos) + Readies(n), rest);
      events := Arrivals(pos) + Readies(n) + rest;
    } else {
      events, q := Arrivals(pos), p;
    }
  }

  // ---------------------------------------------------------------- a crash while four servers boot

  /** Three clients arrive, the world splits, and one of the four new servers crashes. */
  ghost function OneCrashes(pos: Vec2): seq<Event> {
    Arrivals(pos) + [Crash([1])]
  }

  lemma {:induction false} CrashRazes(w: World, s: Server, pos: Vec2)
    requires Divisible(w, pos) && JustSplit(w, s, 1, {1, 2, 3})
    ensures var t := Step(s, Crash([1]));
            && t == s.(svc := s.svc.(tree := Leaf(Cell(w.bounds, 0, w.max), 0))) && Razed(t, 1, {})
            && CountAt(t.svc.primary, 0) == 3
  {
    hide ChildCell;
    var t := Step(s, Crash([1]));
    assert ForceCollapse(s.svc.tree, [1]) == Collapsed(Leaf(Cell(w.bounds, 0, w.max), 0), true);
    assert t.svc.primary == s.svc.primary;
    assert ClientsAt(t.svc.primary, 0) == {1, 2, 3};
    assert forall k :: k in [1, 2, 3, 4] <==> k in Four(1);
    assert 1 in Four(1);
  }

  lemma {:induction false} RazedLock(w: World, s: Server, n: nat, done: set<nat>)
    requires Inv(w, s) && Razed(s, n, done)
    ensures s.svc.tree == Leaf(Cell(w.bounds, 0, w.max), 0)
    ensures 0 in s.svc.splits <==> !(Four(n) <= done)
  {
    hide Inv;
    RootIsZero(w, s);
  }

  /**
   * One of the four booting servers crashes. The world collapses to shard 0, which stays locked and does
   * not split although three clients are in it, whatever happens, until the very moment all four new
   * servers, the crashed one included, have signalled Ready; only a report that names shard 0 itself
   * frees it earlier.
   */
  lemma {:induction false} CrashLeavesRootLocked(w: World, pos: Vec2, future: seq<Event>)
    requires Divisible(w, pos) && NeverNamed(future, 0) && AwaitedUpTo(future, Four(1))
    ensures CountAt(After(w, OneCrashes(pos)).svc.primary, 0) > MAX_POPULATION
    ensures var t := After(w, OneCrashes(pos) + future).svc;
            t.tree == Leaf(Cell(w.bounds, 0, w.max), 0) && (0 in t.splits <==> !(Four(1) <= Signalled(future)))
  {
    hide After, From, Inv, JustSplit, NeverNamed, AwaitedUpTo, Signalled, Razed, Contains;
    var past := OneCrashes(pos);
    ThreeArrive(w, pos);
    AfterLast(w, Arrivals(pos), Crash([1]));
    CrashRazes(w, After(w, Arrivals(pos)), pos);
    ReachableInv(w, past);
    RazedRun(w, After(w, past), future, 1);
    AfterFrom(w, past, future);
    ReachableInv(w, past + future);
    RazedLock(w, After(w, past + future), 1, Signalled(future));
  }

  /** When the four servers have come up after all, the next update splits the world once more. */
  lemma {:induction false} SplitsAnewAfterCrash(w: World, pos: Vec2)
    requires Divisible(w, pos)
    ensures JustSplit(w, After(w, OneCrashes(pos) + Readies(1) + [Position(1, pos)]), 5, {1, 2, 3})
  {
    hide After, From, OnPosition, OnReady, Contains;
    var past := OneCrashes(pos);
    ThreeArrive(w, pos);
    AfterLast(w, Arrivals(pos), Crash([1]));
    CrashRazes(w, After(w, Arrivals(pos)), pos);
    var s := After(w, past);
    ReadiesRelease(s, 0, 1);
    AfterFrom(w, past, Readies(1));
    AfterLast(w, past + Readies(1), Position(1, pos));
    assert {1, 2, 3} + {1} == {1, 2, 3};
    Arrive(w, pos, From(s, Readies(1)), 5, {1, 2, 3}, 1);
  }

  /** A report that names shard 0 itself frees it at once, while all four new servers are still booting. */
  lemma {:induction false} NamingFreesLock(w: World, pos: Vec2)
    requires Divisible(w, pos)
    ensures var past, t := Arrivals(pos), After(w, Arrivals(pos) + [Crash([0])]);
            && 0 in After(w, past).svc.splits && 0 !in t.svc.splits
            && t.svc.tree == Fork(Cell(w.bounds, 0, w.max), 0, 1) && t.parentToChildren == map[0 := [1, 2, 3, 4]]
  {
    hide After, ChildCell, Contains;
    ThreeArrive(w, pos);
    AfterLast(w, Arrivals(pos), Crash([0]));
    CollapseAllOrNothing(Fork(Cell(w.bounds, 0, w.max), 0, 1), [0]);
  }

  // ---------------------------------------------------------------- every world

  /**
   * In every world, whatever its maximum depth, and at every point of it, some crash-free history of
   * exactly `7 * max + 3` events leaves a shard locked that is not split, and no future frees it in
   * which no crash report names the shard.
   */
  lemma {:induction false} EveryWorldLeaksLock(w: World, pos: Vec2) returns (events: seq<Event>, q: nat)
    requires Sound(w) && Contains(w.bounds, pos)
    ensures NoCrash(events) && |events| == 7 * w.max + 3 && Stuck(After(w, events), q)
    ensures forall future :: NeverNamed(future, q) ==> Stuck(After(w, events + future), q)
  {
    hide Stuck, From, Inv;
    ReachableInv(w, []);
    assert After(w, []) == Initial(w);
    assert Calm(w, Initial(w), pos, 0, {}) by { assert ClientsAt(Initial(w).svc.primary, 0) == {}; }
    events, q := CrowdLocksDeepest(w, Initial(w), pos, 0);
    AfterIsFrom(w, events);
    forall future | NeverNamed(future, q) ensures Stuck(After(w, events + future), q) {
      StuckForever(w, events, future, q);
    }
  }

  /** The deployed world, of depth 4: thirty-one events around the origin. */
  lemma {:induction false} DeployedLeaksLock() returns (events: seq<Event>, q: nat)
    ensures NoCrash(events) && |events| == 31 && Stuck(After(DEPLOYED, events), q)
    ensures forall future :: NeverNamed(future, q) ==> Stuck(After(DEPLOYED, events + future), q)
  {
    hide Stuck, After;
    DeployedStart();
    events, q := EveryWorldLeaksLock(DEPLOYED, Vec2(0.0, 0.0));
  }
}
