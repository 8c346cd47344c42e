/** How long the lock of a split is held, and who has announced itself. */
module SpatialLocks {
  import opened Geometry
  import opened Options
  import opened Trees
  import opened TreeSurgery
  import opened Spatial
  import opened SpatialInvariant

  ghost function From(s: Server, events: seq<Event>): Server {
    if events == [] then s else Step(From(s, events[..|events| - 1]), events[|events| - 1])
  }

  lemma {:induction false} FromKeepsInv(w: World, s: Server, events: seq<Event>)
    requires Inv(w, s)
    ensures Inv(w, From(s, events))
  {
    hide Inv, Step;
    if events != [] {
      FromKeepsInv(w, s, events[..|events| - 1]);
      StepKeepsInv(w, From(s, events[..|events| - 1]), events[|events| - 1]);
    }
  }

  lemma {:induction false} FromAppend(s: Server, a: seq<Event>, b: seq<Event>)
    ensures From(s, a + b) == From(From(s, a), b)
  {
    hide Step;
    if b == [] {
      assert a + b == a;
    } else {
      FromAppend(s, a, b[..|b| - 1]);
      assert (a + b)[..|a + b| - 1] == a + b[..|b| - 1];
    }
  }

  lemma {:induction false} AfterIsFrom(w: World, events: seq<Event>)
    ensures After(w, events) == From(Initial(w), events)
  {
    hide Step;
    if events != [] {
      AfterIsFrom(w, events[..|events| - 1]);
    }
  }

  lemma {:induction false} AfterFrom(w: World, past: seq<Event>, future: seq<Event>)
    ensures After(w, past + future) == From(After(w, past), future)
  {
    hide After, From;
    AfterIsFrom(w, past);
    AfterIsFrom(w, past + future);
    FromAppend(Initial(w), past, future);
  }

  lemma {:induction false} MovedLocks(s: Server, c: nat, pos: Vec2)
    ensures var m := Moved(s.svc, c, pos, s.pendingReady).service;
            m.splits == s.svc.splits && m.merges == s.svc.merges && m.tree == s.svc.tree && m.nextId == s.svc.nextId
  {
  }

  lemma {:induction false} StepIdsGrow(s: Server, e: Event)
    ensures s.svc.nextId <= Step(s, e).svc.nextId <= s.svc.nextId + 4
  {
    hide OnPosition, OnReady, OnDisconnect, ScaleStep, Moved, TryMerge, SplitLeaf, ForceCollapse;
    match e
    case Position(c, pos) =>
      PositionInTwoParts(s, c, pos);
      MovedLocks(s, c, pos);
      ScaleCases(s.(svc := Moved(s.svc, c, pos, s.pendingReady).service), PrimaryAt(s.svc.tree, s.pendingReady, pos));
    case Ready(k) => ReadyFrame(s, k);
    case Disconnect(c) => DisconnectForm(s, c);
    case Crash(ids) =>
  }

  // ---------------------------------------------------------------- the node of a split

  /** The node `p` has the children `n` .. `n + 3`. */
  ghost predicate NodeAt(t: Tree, p: nat, n: nat) {
    t.Node? && ((t.id == p && t.nw.id == n) || NodeAt(t.nw, p, n) || NodeAt(t.ne, p, n) || NodeAt(t.sw, p, n)
        || NodeAt(t.se, p, n))
  }

  lemma {:induction false} RootInIds(t: Tree)
    ensures t.id in Ids(t)
  {
  }

  lemma {:induction false} NodeAtInner(t: Tree, p: nat, n: nat)
    requires NodeAt(t, p, n) && Numbered(t)
    ensures p in InnerIds(t) && Four(n) <= Ids(t) && p < n
  {
    if t.id == p && t.nw.id == n {
      RootInIds(t.nw); RootInIds(t.ne); RootInIds(t.sw); RootInIds(t.se);
    } else if NodeAt(t.nw, p, n) { NodeAtInner(t.nw, p, n); }
    else if NodeAt(t.ne, p, n) { NodeAtInner(t.ne, p, n); }
    else if NodeAt(t.sw, p, n) { NodeAtInner(t.sw, p, n); }
    else { NodeAtInner(t.se, p, n); }
  }

  /** Only the children of a node hang below it. */
  lemma {:induction false} NodeAtKids(t: Tree, p: nat, n: nat, k: nat)
    requires Unique(t) && Numbered(t) && NodeAt(t, p, n) && LeafUnder(t, k, p)
    ensures k in Four(n)
  {
    if LeafUnder(t.nw, k, p) { LeafUnderIds(t.nw, k, p); LeafOrInner(t.nw, p); }
    if LeafUnder(t.ne, k, p) { LeafUnderIds(t.ne, k, p); LeafOrInner(t.ne, p); }
    if LeafUnder(t.sw, k, p) { LeafUnderIds(t.sw, k, p); LeafOrInner(t.sw, p); }
    if LeafUnder(t.se, k, p) { LeafUnderIds(t.se, k, p); LeafOrInner(t.se, p); }
    if NodeAt(t.nw, p, n) {
      NodeAtInner(t.nw, p, n);
      LeafOrInner(t.nw, p);
      if LeafUnder(t.nw, k, p) { NodeAtKids(t.nw, p, n, k); }
    }
    if NodeAt(t.ne, p, n) {
      NodeAtInner(t.ne, p, n);
      LeafOrInner(t.ne, p);
      if LeafUnder(t.ne, k, p) { NodeAtKids(t.ne, p, n, k); }
    }
    if NodeAt(t.sw, p, n) {
      NodeAtInner(t.sw, p, n);
      LeafOrInner(t.sw, p);
      if LeafUnder(t.sw, k, p) { NodeAtKids(t.sw, p, n, k); }
    }
    if NodeAt(t.se, p, n) {
      NodeAtInner(t.se, p, n);
      LeafOrInner(t.se, p);
      if LeafUnder(t.se, k, p) { NodeAtKids(t.se, p, n, k); }
    }
  }

  lemma {:induction false} SplitMakesNode(t: Tree, p: nat, next: nat)
    requires SplitLeaf(t, p, next).Some?
    ensures NodeAt(SplitLeaf(t, p, next).value, p, next)
  {
    if t.Node? {
      if SplitLeaf(t.nw, p, next).Some? { SplitMakesNode(t.nw, p, next); }
      else if SplitLeaf(t.ne, p, next).Some? { SplitMakesNode(t.ne, p, next); }
      else if SplitLeaf(t.sw, p, next).Some? { SplitMakesNode(t.sw, p, next); }
      else { SplitMakesNode(t.se, p, next); }
    }
  }

  lemma {:induction false} SplitKeepsIds(t: Tree, q: nat, next: nat)
    requires t.Node? && SplitLeaf(t, q, next).Some?
    ensures SplitLeaf(t, q, next).value.nw.id == t.nw.id
  {
    if SplitLeaf(t.nw, q, next).Some? { SplitIds(t.nw, q, next); }
  }

  /** Splitting another shard neither removes nor adds a node with these children. */
  lemma {:induction false} SplitKeepsNode(t: Tree, q: nat, next: nat, p: nat, n: nat)
    requires SplitLeaf(t, q, next).Some? && p != q
    ensures NodeAt(SplitLeaf(t, q, next).value, p, n) <==> NodeAt(t, p, n)
  {
    var u := SplitLeaf(t, q, next).value;
    if t.Node? {
      SplitKeepsIds(t, q, next);
      if u.nw != t.nw { SplitKeepsNode(t.nw, q, next, p, n); }
      if u.ne != t.ne { SplitKeepsNode(t.ne, q, next, p, n); }
      if u.sw != t.sw { SplitKeepsNode(t.sw, q, next, p, n); }
      if u.se != t.se { SplitKeepsNode(t.se, q, next, p, n); }
    }
  }

  // ---------------------------------------------------------------- release exactly when all are ready

  /** The shards that signalled Ready in a list of events. */
  ghost function Signalled(events: seq<Event>): set<nat> {
    set i | 0 <= i < |events| && events[i].Ready? :: events[i].shard
  }

  /** The books of a split of `p` into `n` .. `n + 3`, of which `done` have signalled: who is awaited, and the lock. */
  ghost predicate Booked(s: Server, p: nat, n: nat, done: set<nat>) {
    && p !in s.svc.merges
    && (forall k :: k in Four(n) ==> (k !in done <==> (k in s.pendingReady && s.pendingReady[k] == p)))
    && (if Four(n) <= done then p !in s.svc.splits && p !in s.parentToChildren
        else && p in s.svc.splits && p in s.parentToChildren
             && forall k :: k in s.parentToChildren[p] <==> k in Four(n) && k !in done)
  }

  /** The four shards hang in the tree. */
  ghost predicate Booting(s: Server, p: nat, n: nat, done: set<nat>) {
    NodeAt(s.svc.tree, p, n) && Booked(s, p, n, done)
  }

  /** A crash has taken the split shard and the four new ones out of the tree. */
  ghost predicate Orphaned(s: Server, p: nat, n: nat, done: set<nat>) {
    && p !in Ids(s.svc.tree) && Four(n) !! Ids(s.svc.tree) && p < n && n + 3 < s.svc.nextId
    && Booked(s, p, n, done)
  }

  /** A crash has taken everything below the split shard 0 out of the tree. */
  ghost predicate Razed(s: Server, n: nat, done: set<nat>) {
    s.svc.tree.Leaf? && 0 < n && n + 3 < s.svc.nextId && Booked(s, 0, n, done)
  }

  lemma {:induction false} ShardForIsLeaf(t: Tree, pos: Vec2)
    requires ShardFor(t, pos).Some?
    ensures HasLeaf(t, ShardFor(t, pos).value)
  {
    if t.Node? {
      if ShardFor(t.nw, pos).Some? { ShardForIsLeaf(t.nw, pos); }
      else if ShardFor(t.ne, pos).Some? { ShardForIsLeaf(t.ne, pos); }
      else if ShardFor(t.sw, pos).Some? { ShardForIsLeaf(t.sw, pos); }
      else { ShardForIsLeaf(t.se, pos); }
    }
  }

  /** A client is placed in an interior shard only while one of that shard's children is booting. */
  lemma {:induction false} InteriorPrimary(w: World, s: Server, pos: Vec2, p: nat) returns (k: nat)
    requires Inv(w, s) && PrimaryAt(s.svc.tree, s.pendingReady, pos) == Some(p) && p in InnerIds(s.svc.tree)
    ensures PendingChild(s.pendingReady, k) && s.pendingReady[k] == p && LeafUnder(s.svc.tree, k, p)
        && k in Ids(s.svc.tree)
  {
    hide LeafUnder, Shaped, Numbered, ClientInv, GroupInv;
    k := ShardFor(s.svc.tree, pos).value;
    ShardForIsLeaf(s.svc.tree, pos);
    LeafOrInner(s.svc.tree, k);
    LeafOrInner(s.svc.tree, p);
  }

  lemma {:induction false} WellFormedInv(w: World, s: Server)
    requires Inv(w, s)
    ensures Unique(s.svc.tree) && Numbered(s.svc.tree) && WellFormed(s.svc.tree)
    ensures forall k :: k in Ids(s.svc.tree) ==> k < s.svc.nextId
    ensures forall k :: k in s.pendingReady ==> s.pendingReady[k] <= k < s.svc.nextId
    ensures GroupInv(s.pendingReady, s.parentToChildren)
  {
    hide Unique, Numbered, Shaped;
  }

  lemma {:induction false} BootingIds(w: World, s: Server, p: nat, n: nat, done: set<nat>)
    requires Inv(w, s) && Booting(s, p, n, done)
    ensures p in InnerIds(s.svc.tree) && p in Ids(s.svc.tree) && p < n && n + 3 < s.svc.nextId
  {
    hide Inv, NodeAt, Booked, Unique, Numbered, Shaped;
    WellFormedInv(w, s);
    NodeAtInner(s.svc.tree, p, n);
    LeafOrInner(s.svc.tree, p);
    assert n + 3 in Four(n);
  }

  lemma {:induction false} BootingPrimary(w: World, s: Server, p: nat, n: nat, done: set<nat>, pos: Vec2)
    requires Inv(w, s) && Booting(s, p, n, done) && PrimaryAt(s.svc.tree, s.pendingReady, pos) == Some(p)
    ensures p in s.svc.splits
  {
    hide Inv, LeafUnder, NodeAt, PrimaryAt;
    assert Unique(s.svc.tree) && Numbered(s.svc.tree) by { WellFormedInv(w, s); }
    NodeAtInner(s.svc.tree, p, n);
    var k := InteriorPrimary(w, s, pos, p);
    NodeAtKids(s.svc.tree, p, n, k);
  }

  lemma {:induction false} BookedSplit(w: World, s: Server, q: nat, t: Server, p: nat, n: nat, done: set<nat>)
    requires Inv(w, s) && Booked(s, p, n, done) && SplitsTo(s, q, t) && q != p && n + 3 < s.svc.nextId
    ensures Booked(t, p, n, done)
  {
    hide Inv, SplitLeaf, Await;
    AwaitExact(s.pendingReady, s.svc.nextId, q);
  }

  lemma {:induction false} BootingSplit(w: World, s: Server, q: nat, t: Server, p: nat, n: nat, done: set<nat>)
    requires Inv(w, s) && Booting(s, p, n, done) && SplitsTo(s, q, t) && q != p
    ensures Booting(t, p, n, done)
  {
    hide Inv, SplitLeaf, NodeAt, Await, Unique, Numbered, Shaped, Ids, Booked;
    BootingIds(w, s, p, n, done);
    SplitKeepsNode(s.svc.tree, q, s.svc.nextId, p, n);
    BookedSplit(w, s, q, t, p, n, done);
  }

  lemma {:induction false} LockedDoesNothing(s: Server, p: nat)
    requires p in s.svc.splits
    ensures ScaleStep(s, Some(p)) == s
  {
  }

  lemma {:induction false} BootingPosition(w: World, s: Server, c: nat, pos: Vec2, p: nat, n: nat, done: set<nat>)
    requires Inv(w, s) && Booting(s, p, n, done)
    ensures Booting(OnPosition(s, c, pos), p, n, done)
  {
    hide Inv, NodeAt, OnPosition, ScaleStep, PrimaryAt, NearAt, SplitsTo, SplitLeaf;
    PositionInTwoParts(s, c, pos);
    MovedKeepsInv(w, s, c, pos);
    var m := s.(svc := Moved(s.svc, c, pos, s.pendingReady).service);
    var q := PrimaryAt(s.svc.tree, s.pendingReady, pos);
    assert Booting(m, p, n, done);
    ScaleCases(m, q);
    if q == Some(p) {
      BootingPrimary(w, s, p, n, done, pos);
      LockedDoesNothing(m, p);
    } else if q.Some? && SplitsTo(m, q.value, ScaleStep(m, q)) {
      BootingSplit(w, m, q.value, ScaleStep(m, q), p, n, done);
    }
  }

  lemma {:induction false} BookedReady(s: Server, k: nat, p: nat, n: nat, done: set<nat>)
    requires GroupInv(s.pendingReady, s.parentToChildren) && Booked(s, p, n, done)
    ensures Booked(OnReady(s, k), p, n, done + {k})
  {
    hide Without;
    var t := OnReady(s, k);
    if k in s.pendingReady && s.pendingReady[k] == p && p in s.parentToChildren {
      var left := Without(s.parentToChildren[p], k);
      assert forall x :: x in left <==> x in Four(n) && x !in done + {k};
      if left == [] {
        assert Four(n) <= done + {k};
      } else {
        assert left[0] in left;
      }
    } else {
      assert k in Four(n) ==> k in done;
    }
  }

  lemma {:induction false} MergeKeepsNode(m: Merged, t: Tree, p: nat, n: nat)
    requires Undoes(m, t) && NodeAt(t, p, n) && p != m.parent
    ensures NodeAt(m.tree, p, n)
  {
    hide SplitLeaf, NodeAt, Lighter;
    SplitKeepsNode(m.tree, m.parent, m.children[0], p, n);
  }

  lemma {:induction false} UndoesParent(m: Merged, t: Tree)
    requires Undoes(m, t)
    ensures m.parent in InnerIds(t) && HasLeaf(m.tree, m.parent) && Unique(m.tree)
    ensures InnerIds(t) == InnerIds(m.tree) + {m.parent} && m.parent !in InnerIds(m.tree)
  {
    hide SplitLeaf, Shaped, Unique, Numbered, Inner, Ids;
    SplitIds(m.tree, m.parent, m.children[0]);
    SplitInner(m.tree, m.parent, m.children[0]);
    LeafOrInner(m.tree, m.parent);
  }

  lemma {:induction false} BookedMerge(w: World, s: Server, m: Merged, t: Server, p: nat, n: nat, done: set<nat>)
    requires Inv(w, s) && Booked(s, p, n, done) && Undoes(m, s.svc.tree) && MergesTo(s, m, t) && p != m.parent && p < n
    ensures Booked(t, p, n, done)
  {
    hide Inv, Undoes;
    UndoesParent(m, s.svc.tree);
    InnerNotPending(w, s, m.parent);
  }

  lemma {:induction false} BootingMerge(w: World, s: Server, m: Merged, t: Server, p: nat, n: nat, done: set<nat>)
    requires Inv(w, s) && Booting(s, p, n, done) && Undoes(m, s.svc.tree) && MergesTo(s, m, t) && p != m.parent
    ensures Booting(t, p, n, done)
  {
    hide Inv, NodeAt, Undoes, Booked;
    BootingIds(w, s, p, n, done);
    MergeKeepsNode(m, s.svc.tree, p, n);
    BookedMerge(w, s, m, t, p, n, done);
  }

  lemma {:induction false} BootingDisconnect(w: World, s: Server, c: nat, p: nat, n: nat, done: set<nat>)
    requires Inv(w, s) && Booting(s, p, n, done) && p !in OnDisconnect(s, c).svc.merges
    ensures Booting(OnDisconnect(s, c), p, n, done)
  {
    hide Inv, NodeAt, TryMerge, OnDisconnect, Undoes;
    DisconnectForm(s, c);
    ForgetKeepsInv(w, s, c);
    var f := s.(svc := Forget(s.svc, c));
    var pop := Populations(f.svc.primary);
    assert Booting(f, p, n, done);
    if TryMerge(f.svc.tree, pop, MIN_POPULATION).Some? {
      WellFormedInv(w, f);
      MergeUndoesSplit(f.svc.tree, pop, MIN_POPULATION);
      BootingMerge(w, f, TryMerge(f.svc.tree, pop, MIN_POPULATION).value, OnDisconnect(s, c), p, n, done);
    }
  }

  /** `p` is not merged at any point of the run. */
  ghost predicate NeverMerged(s: Server, events: seq<Event>, p: nat) {
    forall j :: 0 <= j <= |events| ==> p !in From(s, events[..j]).svc.merges
  }

  /** No crash report of the run names `p`. */
  ghost predicate NeverNamed(events: seq<Event>, p: nat) {
    forall j :: 0 <= j < |events| && events[j].Crash? ==> p !in events[j].crashed
  }

  /** No crash report of the run strikes the tree it meets. */
  ghost predicate NeverStruck(s: Server, events: seq<Event>) {
    forall j :: 0 <= j < |events| && events[j].Crash? ==> !Struck(From(s, events[..j]).svc.tree, events[j].crashed)
  }

  /** The last of these shards to signal Ready has not done so before the last event. */
  ghost predicate AwaitedUpTo(events: seq<Event>, shards: set<nat>) {
    events == [] || !(shards <= Signalled(events[..|events| - 1]))
  }

  lemma {:induction false} BookedCrash(s: Server, crashed: seq<nat>, p: nat, n: nat, done: set<nat>)
    requires Booked(s, p, n, done) && p !in crashed
    ensures Booked(Step(s, Crash(crashed)), p, n, done)
  {
    hide ForceCollapse;
  }

  lemma {:induction false} RootIsZero(w: World, s: Server)
    requires Inv(w, s)
    ensures s.svc.tree.id == 0 && s.svc.tree.cell == Cell(w.bounds, 0, w.max)
    ensures forall k :: k in s.pendingReady ==> s.pendingReady[k] <= k
  {
    hide WellFormed;
  }

  /** A crash that names other shards leaves the books alone; if it strikes, one leaf is left. */
  lemma {:induction false} BootingCrash(w: World, s: Server, crashed: seq<nat>, p: nat, n: nat, done: set<nat>)
    requires Inv(w, s) && Booting(s, p, n, done) && p !in crashed
    ensures var t := Step(s, Crash(crashed));
            if !Struck(s.svc.tree, crashed) then Booting(t, p, n, done)
            else if p == 0 then Razed(t, n, done) else Orphaned(t, p, n, done)
  {
    hide NodeAt, ForceCollapse, Struck, Booked, Inv;
    BootingIds(w, s, p, n, done);
    BookedCrash(s, crashed, p, n, done);
    CollapseAllOrNothing(s.svc.tree, crashed);
    assert s.svc.tree.id == 0 by { RootIsZero(w, s); }
  }

  lemma {:induction false} BootingStep(w: World, s: Server, e: Event, p: nat, n: nat, done: set<nat>)
    requires Inv(w, s) && Booting(s, p, n, done) && p !in Step(s, e).svc.merges
    requires e.Crash? ==> p !in e.crashed
    ensures var t, told := Step(s, e), done + if e.Ready? then {e.shard} else {};
            if e.Crash? && Struck(s.svc.tree, e.crashed) then
              if p == 0 then Razed(t, n, told) else Orphaned(t, p, n, told)
            else Booting(t, p, n, told)
  {
    hide Inv, NodeAt, Booked, Razed, Orphaned, OnPosition, OnDisconnect, ForceCollapse, Struck, OnReady;
    match e
    case Position(c, pos) => BootingPosition(w, s, c, pos, p, n, done); assert done + {} == done;
    case Ready(k) => WellFormedInv(w, s); BookedReady(s, k, p, n, done); ReadyFrame(s, k);
    case Disconnect(c) => BootingDisconnect(w, s, c, p, n, done); assert done + {} == done;
    case Crash(ids) => BootingCrash(w, s, ids, p, n, done); assert done + {} == done;
  }

  // ---------------------------------------------------------------- a split shard taken out of the tree

  /** Nobody is placed in a shard that is not in the tree and waits for no shard of the tree. */
  lemma {:induction false} OrphanedPrimary(w: World, s: Server, p: nat, n: nat, done: set<nat>, pos: Vec2)
    requires Inv(w, s) && Orphaned(s, p, n, done)
    ensures PrimaryAt(s.svc.tree, s.pendingReady, pos) != Some(p)
  {
    hide LeafUnder, Shaped, Numbered, Unique, ClientInv, GroupInv, Booked;
    if ShardFor(s.svc.tree, pos).Some? {
      var k := ShardFor(s.svc.tree, pos).value;
      ShardForIsLeaf(s.svc.tree, pos);
      LeafOrInner(s.svc.tree, k);
      if k in s.pendingReady && s.pendingReady[k] == p {
        LeafUnderIds(s.svc.tree, k, p);
        LeafOrInner(s.svc.tree, p);
      }
    }
  }

  lemma {:induction false} OrphanedSplit(w: World, s: Server, q: nat, t: Server, p: nat, n: nat, done: set<nat>)
    requires Inv(w, s) && Orphaned(s, p, n, done) && SplitsTo(s, q, t) && q != p
    ensures Orphaned(t, p, n, done)
  {
    hide Inv, SplitLeaf, Booked, Await, Ids;
    SplitIds(s.svc.tree, q, s.svc.nextId);
    BookedSplit(w, s, q, t, p, n, done);
  }

  lemma {:induction false} OrphanedPosition(w: World, s: Server, c: nat, pos: Vec2, p: nat, n: nat, done: set<nat>)
    requires Inv(w, s) && Orphaned(s, p, n, done)
    ensures Orphaned(OnPosition(s, c, pos), p, n, done)
  {
    hide Inv, Ids, OnPosition, ScaleStep, PrimaryAt, NearAt, SplitsTo, SplitLeaf;
    PositionInTwoParts(s, c, pos);
    MovedKeepsInv(w, s, c, pos);
    OrphanedPrimary(w, s, p, n, done, pos);
    var m := s.(svc := Moved(s.svc, c, pos, s.pendingReady).service);
    var q := PrimaryAt(s.svc.tree, s.pendingReady, pos);
    assert Orphaned(m, p, n, done);
    ScaleCases(m, q);
    if q.Some? && SplitsTo(m, q.value, ScaleStep(m, q)) {
      OrphanedSplit(w, m, q.value, ScaleStep(m, q), p, n, done);
    }
  }

  lemma {:induction false} BookedForget(s: Server, c: nat, p: nat, n: nat, done: set<nat>)
    requires Booked(s, p, n, done)
    ensures Booked(s.(svc := Forget(s.svc, c)), p, n, done)
  {
  }

  lemma {:induction false} UndoesIds(m: Merged, t: Tree)
    requires Undoes(m, t)
    ensures Ids(m.tree) <= Ids(t)
  {
    hide SplitLeaf, WellFormed, Inner, InnerIds;
  }

  lemma {:induction false} OrphanedDisconnect(w: World, s: Server, c: nat, p: nat, n: nat, done: set<nat>)
    requires Inv(w, s) && Orphaned(s, p, n, done)
    ensures Orphaned(OnDisconnect(s, c), p, n, done)
  {
    hide Inv, TryMerge, OnDisconnect, Undoes, Ids, Booked;
    DisconnectForm(s, c);
    ForgetKeepsInv(w, s, c);
    var f := s.(svc := Forget(s.svc, c));
    var pop := Populations(f.svc.primary);
    assert Booked(f, p, n, done) by { BookedForget(s, c, p, n, done); }
    if TryMerge(f.svc.tree, pop, MIN_POPULATION).Some? {
      var m := TryMerge(f.svc.tree, pop, MIN_POPULATION).value;
      WellFormedInv(w, f);
      MergeUndoesSplit(f.svc.tree, pop, MIN_POPULATION);
      UndoesIds(m, f.svc.tree);
      UndoesParent(m, f.svc.tree);
      LeafOrInner(f.svc.tree, m.parent);
      BookedMerge(w, f, m, OnDisconnect(s, c), p, n, done);
    }
  }

  lemma {:induction false} OrphanedCrash(w: World, s: Server, crashed: seq<nat>, p: nat, n: nat, done: set<nat>)
    requires Inv(w, s) && Orphaned(s, p, n, done) && p !in crashed
    ensures Orphaned(Step(s, Crash(crashed)), p, n, done)
  {
    hide ForceCollapse, Struck, Booked, Inv;
    BookedCrash(s, crashed, p, n, done);
    CollapseAllOrNothing(s.svc.tree, crashed);
    RootInIds(s.svc.tree);
  }

  lemma {:induction false} OrphanedStep(w: World, s: Server, e: Event, p: nat, n: nat, done: set<nat>)
    requires Inv(w, s) && Orphaned(s, p, n, done)
    requires e.Crash? ==> p !in e.crashed
    ensures Orphaned(Step(s, e), p, n, done + if e.Ready? then {e.shard} else {})
  {
    hide Inv, Booked, OnPosition, OnDisconnect, ForceCollapse, OnReady, Ids;
    match e
    case Position(c, pos) => OrphanedPosition(w, s, c, pos, p, n, done); assert done + {} == done;
    case Ready(k) => WellFormedInv(w, s); BookedReady(s, k, p, n, done); ReadyFrame(s, k);
    case Disconnect(c) => OrphanedDisconnect(w, s, c, p, n, done); assert done + {} == done;
    case Crash(ids) => OrphanedCrash(w, s, ids, p, n, done); assert done + {} == done;
  }

  /** In a world razed to the locked shard 0 nothing can split and nothing can merge. */
  lemma {:induction false} RazedPosition(w: World, s: Server, c: nat, pos: Vec2, n: nat, done: set<nat>)
    requires Inv(w, s) && Razed(s, n, done) && !(Four(n) <= done)
    ensures Razed(OnPosition(s, c, pos), n, done)
  {
    hide Inv, OnPosition, ScaleStep, NearAt, SplitLeaf;
    PositionInTwoParts(s, c, pos);
    RootIsZero(w, s);
    var m := s.(svc := Moved(s.svc, c, pos, s.pendingReady).service);
    if PrimaryAt(s.svc.tree, s.pendingReady, pos).Some? {
      LockedDoesNothing(m, 0);
    } else {
      ScaleCases(m, None);
    }
  }

  lemma {:induction false} RazedStep(w: World, s: Server, e: Event, n: nat, done: set<nat>)
    requires Inv(w, s) && Razed(s, n, done) && !(Four(n) <= done)
    requires e.Crash? ==> 0 !in e.crashed
    ensures Razed(Step(s, e), n, done + if e.Ready? then {e.shard} else {})
  {
    hide Inv, Booked, OnPosition, OnDisconnect, OnReady;
    match e
    case Position(c, pos) => RazedPosition(w, s, c, pos, n, done); assert done + {} == done;
    case Ready(k) => WellFormedInv(w, s); BookedReady(s, k, 0, n, done); ReadyFrame(s, k);
    case Disconnect(c) =>
      DisconnectForm(s, c);
      BookedForget(s, c, 0, n, done);
      assert done + {} == done;
    case Crash(ids) => BookedCrash(s, ids, 0, n, done); assert done + {} == done;
  }

  // ---------------------------------------------------------------- the lock over a whole run

  lemma {:induction false} SignalledSnoc(front: seq<Event>, last: Event)
    ensures Signalled(front + [last]) == Signalled(front) + (if last.Ready? then {last.shard} else {})
  {
    var all := front + [last];
    forall k | k in Signalled(front) ensures k in Signalled(all) {
      var i :| 0 <= i < |front| && front[i].Ready? && front[i].shard == k;
      assert all[i] == front[i];
    }
    assert all[|front|] == last;
  }

  lemma {:induction false} SignalledGrow(events: seq<Event>)
    requires events != []
    ensures var front, last := events[..|events| - 1], events[|events| - 1];
            Signalled(events) == Signalled(front) + if last.Ready? then {last.shard} else {}
  {
    SignalledSnoc(events[..|events| - 1], events[|events| - 1]);
    assert events == events[..|events| - 1] + [events[|events| - 1]];
  }

  /** The front of a run is free of what the run is free of. */
  lemma {:induction false} RunFront(s: Server, events: seq<Event>, p: nat)
    requires events != []
    ensures var front, last := events[..|events| - 1], events[|events| - 1];
            && (NeverMerged(s, events, p) ==> NeverMerged(s, front, p) && p !in Step(From(s, front), last).svc.merges)
            && (NeverNamed(events, p) ==> NeverNamed(front, p) && (last.Crash? ==> p !in last.crashed))
            && (NeverStruck(s, events) ==>
                  NeverStruck(s, front) && (last.Crash? ==> !Struck(From(s, front).svc.tree, last.crashed)))
  {
    hide Step, Struck;
    var front := events[..|events| - 1];
    assert forall j :: 0 <= j <= |front| ==> events[..j] == front[..j];
    assert forall j :: 0 <= j < |front| ==> events[j] == front[j];
    assert events[..|events|] == events;
    assert front[..|front|] == front;
  }

  lemma {:induction false} NobodySignalled()
    ensures Signalled([]) == {}
  {
  }

  lemma {:induction false} BootingRun(w: World, s: Server, events: seq<Event>, p: nat, n: nat)
    requires Inv(w, s) && Booting(s, p, n, {}) && NeverMerged(s, events, p) && NeverNamed(events, p)
    requires NeverStruck(s, events)
    ensures Booting(From(s, events), p, n, Signalled(events))
  {
    hide Inv, Booting, Step, Struck, NeverMerged, NeverNamed, NeverStruck, Signalled;
    if events == [] {
      assert Signalled(events) == {} by { NobodySignalled(); }
    } else {
      var front := events[..|events| - 1];
      RunFront(s, events, p);
      BootingRun(w, s, front, p, n);
      FromKeepsInv(w, s, front);
      SignalledGrow(events);
      BootingStep(w, From(s, front), events[|events| - 1], p, n, Signalled(front));
    }
  }

  /**
   * With or without strikes: the split stays on the books up to the last Ready signal, and for a shard
   * other than 0 for ever.
   */
  lemma {:induction false} TrackedRun(w: World, s: Server, events: seq<Event>, p: nat, n: nat)
    requires Inv(w, s) && Booting(s, p, n, {}) && NeverMerged(s, events, p) && NeverNamed(events, p)
    requires p != 0 || AwaitedUpTo(events, Four(n))
    ensures var t, told := From(s, events), Signalled(events);
            Booting(t, p, n, told) || (if p == 0 then Razed(t, n, told) else Orphaned(t, p, n, told))
  {
    hide Inv, Booting, Razed, Orphaned, Step, Struck, NeverMerged, NeverNamed, Signalled;
    if events == [] {
      assert Signalled(events) == {} by { NobodySignalled(); }
    } else {
      var front := events[..|events| - 1];
      RunFront(s, events, p);
      if front != [] { SignalledGrow(front); }
      TrackedRun(w, s, front, p, n);
      FromKeepsInv(w, s, front);
      SignalledGrow(events);
      var r, e, told := From(s, front), events[|events| - 1], Signalled(front);
      if Booting(r, p, n, told) {
        BootingStep(w, r, e, p, n, told);
      } else if p == 0 {
        RazedStep(w, r, e, n, told);
      } else {
        OrphanedStep(w, r, e, p, n, told);
      }
    }
  }

  lemma {:induction false} RazedRun(w: World, s: Server, events: seq<Event>, n: nat)
    requires Inv(w, s) && Razed(s, n, {}) && NeverNamed(events, 0) && AwaitedUpTo(events, Four(n))
    ensures Razed(From(s, events), n, Signalled(events))
  {
    hide Inv, Razed, Step, Struck, NeverNamed, Signalled;
    if events == [] {
      assert Signalled(events) == {} by { NobodySignalled(); }
    } else {
      var front := events[..|events| - 1];
      RunFront(s, events, 0);
      if front != [] { SignalledGrow(front); }
      RazedRun(w, s, front, n);
      FromKeepsInv(w, s, front);
      SignalledGrow(events);
      RazedStep(w, From(s, front), events[|events| - 1], n, Signalled(front));
    }
  }

  lemma {:induction false} SplitStartsBooting(w: World, s: Server, q: nat, t: Server)
    requires Inv(w, s) && SplitsTo(s, q, t) && q !in s.svc.merges && q < s.svc.nextId
    ensures Booting(t, q, s.svc.nextId, {})
  {
    hide Inv, SplitLeaf, NodeAt, Await;
    var n := s.svc.nextId;
    SplitMakesNode(s.svc.tree, q, n);
    AwaitExact(s.pendingReady, n, q);
    assert forall k :: k in [n, n + 1, n + 2, n + 3] <==> k in Four(n);
    assert n in Four(n);
  }

  lemma {:induction false} SplitOfPosition(w: World, s: Server, c: nat, pos: Vec2, p: nat,
          ids: seq<nat>) returns (t: Server)
    requires Inv(w, s) && ScaleUp(p, ids) in PositionUpdate(s.svc, c, pos, s.pendingReady).actions
    ensures t == OnPosition(s, c, pos) && ids == [s.svc.nextId, s.svc.nextId + 1, s.svc.nextId + 2, s.svc.nextId + 3]
    ensures Booting(t, p, s.svc.nextId, {})
  {
    hide Inv, NodeAt, PrimaryAt, SplitLeaf, OnPosition, Booting;
    t := OnPosition(s, c, pos);
    PositionInTwoParts(s, c, pos);
    MovedShape(s.svc, c, pos, s.pendingReady);
    MovedKeepsInv(w, s, c, pos);
    PrimarySettled(w, s, pos);
    var m := s.(svc := Moved(s.svc, c, pos, s.pendingReady).service);
    var q := PrimaryAt(s.svc.tree, s.pendingReady, pos);
    var u := ScaleCheck(m.svc, q);
    assert u.actions != [] && u.actions == [ScaleUp(p, ids)];
    SplitStartsBooting(w, m, p, t);
  }

  lemma {:induction false} BookedLock(s: Server, p: nat, n: nat, done: set<nat>)
    requires Booked(s, p, n, done)
    ensures p in s.svc.splits <==> !(Four(n) <= done)
  {
  }

  /**
   * From any reachable state: when a position update splits `p`, the split lock on `p` is held until
   * exactly the moment all four new shards have signalled Ready, as long as no merge of `p` and no crash
   * report that names `p` comes in between. Other crashes do not matter. The shard is never locked
   * again afterwards, unless it is shard 0 and a crash has collapsed the world to it.
   */
  lemma {:induction false} LockHeldUntilAllReady(w: World, past: seq<Event>, c: nat, pos: Vec2, p: nat, ids: seq<nat>,
          events: seq<Event>)
    requires Sound(w)
    requires var s := After(w, past); ScaleUp(p, ids) in PositionUpdate(s.svc, c, pos, s.pendingReady).actions
    requires NeverMerged(OnPosition(After(w, past), c, pos), events, p) && NeverNamed(events, p)
    ensures |ids| == 4
    ensures var shards, t := {ids[0], ids[1], ids[2], ids[3]}, OnPosition(After(w, past), c, pos);
            p != 0 || NeverStruck(t, events) || AwaitedUpTo(events, shards) ==>
              (p in From(t, events).svc.splits <==> !(shards <= Signalled(events)))
  {
    hide After, Inv, Booked, NodeAt, PrimaryAt, SplitLeaf, OnPosition, NeverMerged, NeverNamed, NeverStruck, From,
        AwaitedUpTo, Signalled;
    var s := After(w, past);
    ReachableInv(w, past);
    var t := SplitOfPosition(w, s, c, pos, p, ids);
    var n := s.svc.nextId;
    PositionKeepsInv(w, s, c, pos);
    assert {ids[0], ids[1], ids[2], ids[3]} == Four(n);
    if p != 0 || AwaitedUpTo(events, Four(n)) {
      TrackedRun(w, t, events, p, n);
      BookedLock(From(t, events), p, n, Signalled(events));
    } else if NeverStruck(t, events) {
      BootingRun(w, t, events, p, n);
      BookedLock(From(t, events), p, n, Signalled(events));
    }
  }

  // ---------------------------------------------------------------- who has announced itself

  /** Every shard is the root, still booting, or has signalled Ready. */
  ghost predicate Announced(s: Server, told: set<nat>) {
    forall k :: Settled(s.pendingReady, s.svc, k) ==> k == 0 || k in told
  }

  /** Nobody settles between `s` and `t` except `extra`. */
  lemma {:induction false} AnnouncedFrame(s: Server, t: Server, told: set<nat>, extra: set<nat>)
    requires Announced(s, told)
    requires forall k :: Settled(t.pendingReady, t.svc, k) ==> Settled(s.pendingReady, s.svc, k) || k in extra
    ensures Announced(t, told + extra)
  {
  }

  lemma {:induction false} SplitSettlesNobody(w: World, s: Server, q: nat, t: Server)
    requires Inv(w, s) && SplitsTo(s, q, t) && Settled(s.pendingReady, s.svc, q)
    ensures forall k :: Settled(t.pendingReady, t.svc, k) ==> Settled(s.pendingReady, s.svc, k)
  {
    hide SplitLeaf, Await, Inv;
    AwaitExact(s.pendingReady, s.svc.nextId, q);
    WellFormedInv(w, s);
  }

  lemma {:induction false} PositionSettlesNobody(w: World, s: Server, c: nat, pos: Vec2)
    requires Inv(w, s)
    ensures var t := OnPosition(s, c, pos);
            forall k :: Settled(t.pendingReady, t.svc, k) ==> Settled(s.pendingReady, s.svc, k)
  {
    hide OnPosition, ScaleStep, PrimaryAt, NearAt, Inv, SplitsTo, SplitLeaf;
    PositionInTwoParts(s, c, pos);
    MovedKeepsInv(w, s, c, pos);
    PrimarySettled(w, s, pos);
    var m, q := s.(svc := Moved(s.svc, c, pos, s.pendingReady).service), PrimaryAt(s.svc.tree, s.pendingReady, pos);
    ScaleCases(m, q);
    assert q.Some? ==> Settled(m.pendingReady, m.svc, q.value);
    if q.Some? && SplitsTo(m, q.value, ScaleStep(m, q)) {
      SplitSettlesNobody(w, m, q.value, ScaleStep(m, q));
    }
    assert forall k :: Settled(m.pendingReady, m.svc, k) ==> Settled(s.pendingReady, s.svc, k);
  }

  lemma {:induction false} DisconnectSettlesNobody(w: World, s: Server, c: nat)
    requires Inv(w, s)
    ensures var t := OnDisconnect(s, c);
            forall k :: Settled(t.pendingReady, t.svc, k) ==> Settled(s.pendingReady, s.svc, k)
  {
    hide OnDisconnect, TryMerge, Inv, Undoes, Ids, InnerIds;
    DisconnectForm(s, c);
    ForgetKeepsInv(w, s, c);
    var f := s.(svc := Forget(s.svc, c));
    var pop := Populations(f.svc.primary);
    if TryMerge(f.svc.tree, pop, MIN_POPULATION).Some? {
      MergeWellFormed(w, f, pop);
      InnerNotPending(w, f, TryMerge(f.svc.tree, pop, MIN_POPULATION).value.parent);
    }
  }

  lemma {:induction false} AnnouncedStep(w: World, s: Server, e: Event, told: set<nat>)
    requires Inv(w, s) && Announced(s, told)
    ensures Announced(Step(s, e), told + if e.Ready? then {e.shard} else {})
  {
    hide OnPosition, OnReady, OnDisconnect, Inv, ForceCollapse, Announced;
    match e
    case Position(c, pos) => PositionSettlesNobody(w, s, c, pos); AnnouncedFrame(s, Step(s, e), told, {});
    case Ready(k) => ReadyFrame(s, k); AnnouncedFrame(s, Step(s, e), told, {k});
    case Disconnect(c) => DisconnectSettlesNobody(w, s, c); AnnouncedFrame(s, Step(s, e), told, {});
    case Crash(ids) => AnnouncedFrame(s, Step(s, e), told, {});
  }

  lemma {:induction false} InitialAnnounced(w: World)
    ensures Announced(Initial(w), {})
  {
  }

  /** In every reachable state the shards that clients may be placed in are the root and those that signalled. */
  lemma {:induction false} SettledHaveSignalled(w: World, events: seq<Event>)
    requires Sound(w)
    ensures Announced(After(w, events), Signalled(events))
  {
    hide Inv, Step, Announced;
    if events == [] {
      InitialAnnounced(w);
      assert Signalled(events) == {};
    } else {
      var front, last := events[..|events| - 1], events[|events| - 1];
      SettledHaveSignalled(w, front);
      ReachableInv(w, front);
      AnnouncedStep(w, After(w, front), last, Signalled(front));
      SignalledSnoc(front, last);
      assert events == front + [last];
    }
  }

  /** Every shard a client is placed in or subscribed to is the root or has signalled Ready. */
  lemma {:induction false} ClientsSeeSignalled(w: World, events: seq<Event>, c: nat)
    requires Sound(w)
    ensures var s, told := After(w, events).svc, Signalled(events);
            && (c in s.primary ==> s.primary[c] == 0 || s.primary[c] in told)
            && (c in s.subscribed ==> forall k :: k in s.subscribed[c] ==> k == 0 || k in told)
  {
    hide After, Signalled;
    SettledHaveSignalled(w, events);
    ReachableInv(w, events);
  }
}
