/** Locks that nobody releases: when they arise, and that they stay. */
module LockLeaks {
  import opened Geometry
  import opened Options
  import opened Trees
  import opened TreeSearch
  import opened TreeSurgery
  import opened Spatial
  import opened SpatialInvariant
  import opened SpatialTheorems
  import opened SpatialLocks

  // ---------------------------------------------------------------- runs without crashes

  ghost predicate NoCrash(events: seq<Event>) {
    forall i :: 0 <= i < |events| ==> !events[i].Crash?
  }

  ghost predicate AwaitedBy(s: Server, k: nat, p: nat) {
    p in s.parentToChildren && k in s.parentToChildren[p] && p !in s.svc.merges
  }

  /** How locks, groups and interior nodes hang together as long as nothing crashes. */
  ghost predicate LockInv(s: Server) {
    && (forall p :: p in s.svc.merges <==> p in s.parentToChildren && s.parentToChildren[p] == [p])
    && (forall p :: p in s.parentToChildren && p !in s.svc.merges ==>
          p in InnerIds(s.svc.tree) && p in s.svc.splits && p !in s.parentToChildren[p])
    && (forall p :: p in InnerIds(s.svc.tree) && p in s.svc.splits ==> p in s.parentToChildren && p !in s.svc.merges)
    && (forall p :: p in s.svc.merges ==> p !in InnerIds(s.svc.tree))
    && (forall k :: PendingChild(s.pendingReady, k) && k in Ids(s.svc.tree) ==> AwaitedBy(s, k, s.pendingReady[k]))
  }

  lemma {:induction false} SplitLeafNotInner(w: World, s: Server, q: nat, t: Server)
    requires Inv(w, s) && SplitsTo(s, q, t)
    ensures q !in InnerIds(s.svc.tree) && InnerIds(t.svc.tree) == InnerIds(s.svc.tree) + {q}
    ensures Ids(t.svc.tree) == Ids(s.svc.tree) + Four(s.svc.nextId)
    ensures forall k :: k in s.pendingReady ==> k < s.svc.nextId
    ensures forall p :: p in s.parentToChildren ==> p < s.svc.nextId
  {
    hide Inv, SplitLeaf, Unique, Numbered, Shaped;
    WellFormedInv(w, s);
    SplitIds(s.svc.tree, q, s.svc.nextId);
    SplitInner(s.svc.tree, q, s.svc.nextId);
    SplitDefined(s.svc.tree, q, s.svc.nextId);
    LeafOrInner(s.svc.tree, q);
    forall p | p in s.parentToChildren ensures p < s.svc.nextId {
      var k := s.parentToChildren[p][0];
      assert k in s.parentToChildren[p];
      assert k in s.pendingReady && s.pendingReady[k] == p;
    }
  }

  lemma {:induction false} LockSplit(w: World, s: Server, q: nat, t: Server)
    requires Inv(w, s) && LockInv(s) && SplitsTo(s, q, t) && q !in s.svc.splits && q !in s.svc.merges
        && q < s.svc.nextId
    ensures LockInv(t)
  {
    hide Inv, SplitLeaf, Await, Unique, Numbered, Shaped, LeafUnder, Ids, InnerIds, Inner, HasLeaf;
    var n := s.svc.nextId;
    SplitLeafNotInner(w, s, q, t);
    AwaitExact(s.pendingReady, n, q);
    assert forall k :: k in [n, n + 1, n + 2, n + 3] <==> k in Four(n);
    forall k | PendingChild(t.pendingReady, k) && k in Ids(t.svc.tree) ensures AwaitedBy(t, k, t.pendingReady[k]) {
      if k !in Four(n) {
        assert PendingChild(s.pendingReady, k);
        assert AwaitedBy(s, k, s.pendingReady[k]);
      }
    }
  }

  lemma {:induction false} LockPosition(w: World, s: Server, c: nat, pos: Vec2)
    requires Inv(w, s) && LockInv(s)
    ensures LockInv(OnPosition(s, c, pos))
  {
    hide Inv, OnPosition, ScaleStep, PrimaryAt, NearAt, SplitsTo, SplitLeaf, Ids, InnerIds;
    PositionInTwoParts(s, c, pos);
    MovedKeepsInv(w, s, c, pos);
    PrimarySettled(w, s, pos);
    var m := s.(svc := Moved(s.svc, c, pos, s.pendingReady).service);
    var q := PrimaryAt(s.svc.tree, s.pendingReady, pos);
    assert LockInv(m);
    ScaleCases(m, q);
    if q.Some? && SplitsTo(m, q.value, ScaleStep(m, q)) && q.value !in m.svc.splits && q.value !in m.svc.merges {
      LockSplit(w, m, q.value, ScaleStep(m, q));
    } else if q.Some? && q.value in InnerIds(s.svc.tree) {
      var k := InteriorPrimary(w, s, pos, q.value);
      assert AwaitedBy(s, k, q.value);
      LockedDoesNothing(m, q.value);
    }
  }

  lemma {:induction false} WithoutOnly(p: nat)
    ensures Without([p], p) == []
  {
    assert [p] == [] + [p];
    WithoutSnoc([], p, p);
  }

  lemma {:induction false} LockReady(s: Server, k: nat)
    requires LockInv(s) && GroupInv(s.pendingReady, s.parentToChildren)
    ensures LockInv(OnReady(s, k))
  {
    hide Without, Ids, InnerIds;
    var t := OnReady(s, k);
    if k in s.pendingReady && s.pendingReady[k] in s.parentToChildren {
      var p := s.pendingReady[k];
      var left := Without(s.parentToChildren[p], k);
      if p in s.svc.merges && k != p {
        WithoutAbsent([p], k);
      }
      if p in s.svc.merges && k == p {
        WithoutOnly(p);
      }
      assert left == [p] ==> p in left;
    }
    forall x | PendingChild(t.pendingReady, x) && x in Ids(t.svc.tree) ensures AwaitedBy(t, x, t.pendingReady[x]) {
      assert PendingChild(s.pendingReady, x);
      assert AwaitedBy(s, x, s.pendingReady[x]);
    }
  }

  lemma {:induction false} LockMerge(w: World, s: Server, m: Merged, t: Server)
    requires Inv(w, s) && Inv(w, t) && LockInv(s) && Undoes(m, s.svc.tree) && MergesTo(s, m, t)
    ensures LockInv(t)
  {
    hide Undoes, LeafUnder, WellFormed, Ids, InnerIds, ClientInv, GroupInv, TreeInv;
    UndoesParent(m, s.svc.tree);
    UndoesIds(m, s.svc.tree);
    forall k | PendingChild(t.pendingReady, k) && k in Ids(t.svc.tree) ensures AwaitedBy(t, k, t.pendingReady[k]) {
      assert PendingChild(s.pendingReady, k);
      assert AwaitedBy(s, k, s.pendingReady[k]);
      LeafUnderIds(t.svc.tree, k, t.pendingReady[k]);
    }
  }

  lemma {:induction false} LockDisconnect(w: World, s: Server, c: nat)
    requires Inv(w, s) && LockInv(s)
    ensures LockInv(OnDisconnect(s, c))
  {
    hide Inv, TryMerge, OnDisconnect, Undoes, Ids, InnerIds;
    DisconnectForm(s, c);
    DisconnectKeepsInv(w, s, c);
    ForgetKeepsInv(w, s, c);
    var f := s.(svc := Forget(s.svc, c));
    var pop := Populations(f.svc.primary);
    assert LockInv(f);
    if TryMerge(f.svc.tree, pop, MIN_POPULATION).Some? {
      WellFormedInv(w, f);
      MergeUndoesSplit(f.svc.tree, pop, MIN_POPULATION);
      LockMerge(w, f, TryMerge(f.svc.tree, pop, MIN_POPULATION).value, OnDisconnect(s, c));
    }
  }

  lemma {:induction false} InitialLocks(w: World)
    ensures LockInv(Initial(w))
  {
  }

  lemma {:induction false} LocksReachable(w: World, events: seq<Event>)
    requires Sound(w) && NoCrash(events)
    ensures LockInv(After(w, events))
  {
    hide Inv, LockInv, OnPosition, OnReady, OnDisconnect;
    if events == [] {
      InitialLocks(w);
    } else {
      var front, last := events[..|events| - 1], events[|events| - 1];
      LocksReachable(w, front);
      ReachableInv(w, front);
      var s := After(w, front);
      assert !last.Crash?;
      match last
      case Position(c, pos) => LockPosition(w, s, c, pos);
      case Ready(k) => WellFormedInv(w, s); LockReady(s, k);
      case Disconnect(c) => LockDisconnect(w, s, c);
    }
  }

  /** Whoever is still awaited for a split is in the tree. */
  ghost predicate AwaitedInTree(s: Server) {
    forall k, p :: AwaitedBy(s, k, p) ==> k in Ids(s.svc.tree)
  }

  lemma {:induction false} AwaitedSplit(s: Server, q: nat, t: Server, k: nat, p: nat)
    requires SplitsTo(s, q, t) && AwaitedBy(t, k, p)
    ensures AwaitedBy(s, k, p) || k in Ids(t.svc.tree)
    ensures Ids(s.svc.tree) <= Ids(t.svc.tree)
  {
    hide SplitLeaf, Await;
    SplitIds(s.svc.tree, q, s.svc.nextId);
  }

  lemma {:induction false} AwaitedPosition(w: World, s: Server, c: nat, pos: Vec2)
    requires AwaitedInTree(s)
    ensures AwaitedInTree(OnPosition(s, c, pos))
  {
    hide OnPosition, ScaleStep, Moved, PrimaryAt, SplitsTo, Ids;
    PositionInTwoParts(s, c, pos);
    MovedLocks(s, c, pos);
    var m, q := s.(svc := Moved(s.svc, c, pos, s.pendingReady).service), PrimaryAt(s.svc.tree, s.pendingReady, pos);
    var t := ScaleStep(m, q);
    ScaleCases(m, q);
    forall k, p | AwaitedBy(t, k, p) ensures k in Ids(t.svc.tree) {
      if q.Some? && SplitsTo(m, q.value, t) {
        AwaitedSplit(m, q.value, t, k, p);
        if AwaitedBy(m, k, p) { assert AwaitedBy(s, k, p); }
      } else {
        assert AwaitedBy(s, k, p);
      }
    }
  }

  lemma {:induction false} AwaitedReady(s: Server, r: nat)
    requires AwaitedInTree(s)
    ensures AwaitedInTree(OnReady(s, r))
  {
    hide Without, Ids;
    var t := OnReady(s, r);
    forall k, p | AwaitedBy(t, k, p) ensures k in Ids(t.svc.tree) {
      assert AwaitedBy(s, k, p);
    }
  }

  lemma {:induction false} AwaitedMerge(w: World, s: Server, m: Merged, t: Server)
    requires Inv(w, s) && LockInv(s) && AwaitedInTree(s) && Undoes(m, s.svc.tree) && MergesTo(s, m, t)
    ensures AwaitedInTree(t)
  {
    hide SplitLeaf, Shaped, Numbered, Inner, InnerIds, ClientInv, HasLeaf, LeafUnder, Ids;
    assert Unique(s.svc.tree);
    forall k, p | AwaitedBy(t, k, p) ensures k in Ids(t.svc.tree) {
      assert AwaitedBy(s, k, p);
      assert k in s.parentToChildren[p] && PendingChild(s.pendingReady, k);
      if k in Four(m.children[0]) {
        SplitHangs(m.tree, m.parent, m.children[0], k);
        LeafUnderUnique(s.svc.tree, k, p, m.parent);
      }
    }
  }

  lemma {:induction false} AwaitedDisconnect(w: World, s: Server, c: nat)
    requires Inv(w, s) && LockInv(s) && AwaitedInTree(s)
    ensures AwaitedInTree(OnDisconnect(s, c))
  {
    hide Inv, TryMerge, OnDisconnect, Undoes, Ids, InnerIds;
    DisconnectForm(s, c);
    ForgetKeepsInv(w, s, c);
    var f := s.(svc := Forget(s.svc, c));
    var pop := Populations(f.svc.primary);
    assert LockInv(f);
    assert forall k, p :: AwaitedBy(f, k, p) ==> AwaitedBy(s, k, p);
    if TryMerge(f.svc.tree, pop, MIN_POPULATION).Some? {
      WellFormedInv(w, f);
      MergeUndoesSplit(f.svc.tree, pop, MIN_POPULATION);
      AwaitedMerge(w, f, TryMerge(f.svc.tree, pop, MIN_POPULATION).value, OnDisconnect(s, c));
    } else {
      assert forall k, p :: AwaitedBy(OnDisconnect(s, c), k, p) ==> AwaitedBy(s, k, p);
    }
  }

  lemma {:induction false} NobodyAwaited(w: World)
    ensures AwaitedInTree(Initial(w))
  {
  }

  /** Without crashes, everybody on the waiting list of a split is still a node of the tree. */
  lemma {:induction false} AwaitedReachable(w: World, events: seq<Event>)
    requires Sound(w) && NoCrash(events)
    ensures AwaitedInTree(After(w, events))
  {
    hide Inv, LockInv, AwaitedInTree, OnPosition, OnReady, OnDisconnect;
    if events == [] {
      NobodyAwaited(w);
    } else {
      var front, last := events[..|events| - 1], events[|events| - 1];
      AwaitedReachable(w, front);
      LocksReachable(w, front);
      ReachableInv(w, front);
      var s := After(w, front);
      assert !last.Crash?;
      match last
      case Position(c, pos) => AwaitedPosition(w, s, c, pos);
      case Ready(k) => AwaitedReady(s, k);
      case Disconnect(c) => AwaitedDisconnect(w, s, c);
    }
  }

  /** Without crashes, every parent that waits for servers holds a split lock or a merge lock. */
  lemma {:induction false} WaitingParentsAreLocked(w: World, events: seq<Event>, p: nat)
    requires Sound(w) && NoCrash(events)
    requires p in After(w, events).parentToChildren
    ensures p in After(w, events).svc.splits || p in After(w, events).svc.merges
  {
    LocksReachable(w, events);
    hide After;
    assert LockInv(After(w, events));
  }

  lemma {:induction false} SomeoneBoots(w: World, s: Server, p: nat) returns (k: nat)
    requires Inv(w, s) && LockInv(s) && AwaitedInTree(s) && p in InnerIds(s.svc.tree) && p in s.svc.splits
    ensures PendingChild(s.pendingReady, k) && LeafUnder(s.svc.tree, k, p)
  {
    hide TreeInv, ClientInv, LeafUnder, InnerIds, Ids;
    k := s.parentToChildren[p][0];
    assert k in s.parentToChildren[p];
    assert AwaitedBy(s, k, p);
  }

  lemma {:induction false} ChildIsAwaited(w: World, s: Server, k: nat, p: nat)
    requires Inv(w, s) && LockInv(s) && PendingChild(s.pendingReady, k) && LeafUnder(s.svc.tree, k, p)
    ensures p in s.parentToChildren
  {
    hide Shaped, Numbered, ClientInv, GroupInv, LeafUnder;
    LeafUnderIds(s.svc.tree, k, p);
    LeafOrInner(s.svc.tree, k);
    assert AwaitedBy(s, k, s.pendingReady[k]);
    assert Unique(s.svc.tree);
    LeafUnderUnique(s.svc.tree, k, p, s.pendingReady[k]);
  }

  /** Without crashes, an interior shard is locked exactly while one of its own children is still booting. */
  lemma {:induction false} InteriorLockedWhileBooting(w: World, events: seq<Event>, p: nat)
    requires Sound(w) && NoCrash(events)
    requires p in InnerIds(After(w, events).svc.tree)
    ensures var s := After(w, events);
            && (p in s.svc.splits <==> p in s.parentToChildren)
            && (p in s.svc.splits <==> exists k :: PendingChild(s.pendingReady, k) && LeafUnder(s.svc.tree, k, p))
  {
    LocksReachable(w, events);
    AwaitedReachable(w, events);
    ReachableInv(w, events);
    hide After, InnerIds;
    var s := After(w, events);
    assert LockInv(s);
    if p in s.svc.splits {
      var k := SomeoneBoots(w, s, p);
    }
    if k :| PendingChild(s.pendingReady, k) && LeafUnder(s.svc.tree, k, p) {
      ChildIsAwaited(w, s, k, p);
    }
  }

  // ---------------------------------------------------------------- the lock a merge leaves behind

  /** `p` holds a split lock although it is not split. */
  ghost predicate Stuck(s: Server, p: nat) {
    p in s.svc.splits && p !in InnerIds(s.svc.tree)
  }

  /** And no Ready that is still awaited would release it. */
  ghost predicate Abandoned(s: Server, p: nat) {
    Stuck(s, p) && (p in s.parentToChildren ==> p in s.svc.merges)
  }

  lemma {:induction false} AbandonedScale(s: Server, q: Option<nat>, p: nat)
    requires Abandoned(s, p) && p < s.svc.nextId
    ensures Abandoned(ScaleStep(s, q), p)
  {
    hide SplitLeaf, ScaleStep, InnerIds;
    ScaleCases(s, q);
    var t := ScaleStep(s, q);
    if q.Some? && SplitsTo(s, q.value, t) && q.value !in s.svc.splits {
      SplitIds(s.svc.tree, q.value, s.svc.nextId);
      SplitInner(s.svc.tree, q.value, s.svc.nextId);
    }
  }

  ghost predicate LocksKnown(s: Server) {
    forall p :: p in s.svc.splits ==> p < s.svc.nextId
  }

  lemma {:induction false} LeafHasNoInner(t: Tree)
    ensures InnerIds(Leaf(t.cell, t.id)) == {}
  {
  }

  lemma {:induction false} AbandonedStays(w: World, s: Server, e: Event, p: nat)
    requires Inv(w, s) && LocksKnown(s) && Abandoned(s, p)
    requires e.Crash? ==> p !in e.crashed
    ensures Abandoned(Step(s, e), p)
  {
    hide Inv, OnDisconnect, OnPosition, Ids, InnerIds, TryMerge, Undoes, Moved, PrimaryAt, ScaleStep, ForceCollapse,
      Without, Struck;
    match e
    case Position(c, pos) =>
      PositionInTwoParts(s, c, pos);
      var m := s.(svc := Moved(s.svc, c, pos, s.pendingReady).service);
      MovedLocks(s, c, pos);
      AbandonedScale(m, PrimaryAt(s.svc.tree, s.pendingReady, pos), p);
    case Ready(k) =>
    case Disconnect(c) =>
      DisconnectForm(s, c);
      var pop := Populations(Forget(s.svc, c).primary);
      if TryMerge(s.svc.tree, pop, MIN_POPULATION).Some? {
        WellFormedInv(w, s);
        MergeUndoesSplit(s.svc.tree, pop, MIN_POPULATION);
        UndoesParent(TryMerge(s.svc.tree, pop, MIN_POPULATION).value, s.svc.tree);
      }
    case Crash(ids) =>
      CollapseAllOrNothing(s.svc.tree, ids);
      LeafHasNoInner(s.svc.tree);
  }

  /** Without crashes so far, every stuck lock is abandoned. */
  lemma {:induction false} StuckIsAbandoned(s: Server, p: nat)
    requires LockInv(s) && Stuck(s, p)
    ensures Abandoned(s, p)
  {
  }

  lemma {:induction false} AbandonedIsStuck(s: Server, p: nat)
    requires Abandoned(s, p)
    ensures Stuck(s, p) && p !in InnerIds(s.svc.tree)
  {
  }

  lemma {:induction false} StepKnown(w: World, s: Server, e: Event)
    requires Inv(w, s) && LocksKnown(s)
    ensures LocksKnown(Step(s, e))
  {
    hide Inv, OnPosition, OnReady, OnDisconnect, ScaleStep, Moved, TryMerge, SplitLeaf, ForceCollapse, PrimaryAt;
    match e
    case Position(c, pos) =>
      PositionInTwoParts(s, c, pos);
      MovedLocks(s, c, pos);
      PrimarySettled(w, s, pos);
      ScaleCases(s.(svc := Moved(s.svc, c, pos, s.pendingReady).service), PrimaryAt(s.svc.tree, s.pendingReady, pos));
    case Ready(k) => ReadyFrame(s, k);
    case Disconnect(c) => DisconnectForm(s, c);
    case Crash(ids) =>
  }

  /** Only shards that exist are ever locked. */
  lemma {:induction false} LocksKnownReachable(w: World, events: seq<Event>)
    requires Sound(w)
    ensures LocksKnown(After(w, events))
  {
    hide Inv, Step;
    if events != [] {
      LocksKnownReachable(w, events[..|events| - 1]);
      ReachableInv(w, events[..|events| - 1]);
      StepKnown(w, After(w, events[..|events| - 1]), events[|events| - 1]);
    }
  }

  lemma {:induction false} AbandonedRun(w: World, s: Server, events: seq<Event>, p: nat)
    requires Inv(w, s) && LocksKnown(s) && Abandoned(s, p) && NeverNamed(events, p)
    ensures Inv(w, From(s, events)) && LocksKnown(From(s, events)) && Abandoned(From(s, events), p)
  {
    hide Abandoned, LocksKnown, Inv, Step, NeverNamed, Struck;
    if events != [] {
      var front := events[..|events| - 1];
      RunFront(s, events, p);
      AbandonedRun(w, s, front, p);
      AbandonedStays(w, From(s, front), events[|events| - 1], p);
      StepKnown(w, From(s, front), events[|events| - 1]);
      StepKeepsInv(w, From(s, front), events[|events| - 1]);
    }
  }

  /**
   * A split lock left on a shard that is not split, in a past without crashes, is never released by
   * anything but a crash report that names the shard, and until then the shard never splits again.
   */
  lemma {:induction false} StuckForever(w: World, past: seq<Event>, future: seq<Event>, p: nat)
    requires Sound(w) && NoCrash(past) && NeverNamed(future, p)
    requires Stuck(After(w, past), p)
    ensures Stuck(After(w, past + future), p)
    ensures p !in InnerIds(After(w, past + future).svc.tree)
  {
    hide Stuck, Abandoned, LocksKnown, LockInv, Inv, Step, InnerIds, NeverNamed;
    ReachableInv(w, past);
    LocksReachable(w, past);
    LocksKnownReachable(w, past);
    StuckIsAbandoned(After(w, past), p);
    AbandonedRun(w, After(w, past), future, p);
    AfterFrom(w, past, future);
    AbandonedIsStuck(After(w, past + future), p);
  }

  /**
   * "Every split lock is eventually released" is false, and this is exactly when: without crashes, a
   * merge leaves the lock of its parent stuck for ever if and only if some server of the parent's
   * last split had not signalled Ready by then.
   */
  lemma {:induction false} MergeLeaksLockExactly(w: World, events: seq<Event>, c: nat, m: Merged)
    requires Sound(w) && NoCrash(events)
    requires var s := After(w, events).svc; TryMerge(s.tree,
        Populations(Forget(s, c).primary), MIN_POPULATION) == Some(m)
    ensures Stuck(OnDisconnect(After(w, events), c), m.parent) <==> m.parent in After(w, events).parentToChildren
  {
    hide After, Inv, TryMerge, OnDisconnect, Undoes, InnerIds, Ids;
    var s := After(w, events);
    ReachableInv(w, events);
    LocksReachable(w, events);
    WellFormedInv(w, s);
    DisconnectForm(s, c);
    MergeUndoesSplit(s.svc.tree, Populations(Forget(s.svc, c).primary), MIN_POPULATION);
    UndoesParent(m, s.svc.tree);
  }

  /** The other way to leave a lock behind: locking a shard that is too deep to split. */
  lemma {:induction false} ScaleLeaks(s: Server, q: Option<nat>, p: nat)
    requires !Stuck(s, p) && (q.Some? && q.value in InnerIds(s.svc.tree) ==> q.value in s.svc.splits)
    ensures Stuck(ScaleStep(s, q), p) <==>
            && q == Some(p) && p !in s.svc.splits && p !in s.svc.merges && CountAt(s.svc.primary, p) > MAX_POPULATION
            && SplitLeaf(s.svc.tree, p, s.svc.nextId).None?
  {
    hide CountAt, Await, InnerIds, SplitLeaf;
    if q.Some? && SplitLeaf(s.svc.tree, q.value, s.svc.nextId).Some? {
      SplitInner(s.svc.tree, q.value, s.svc.nextId);
    }
  }

  lemma {:induction false} WaitingIsLocked(s: Server, k: nat, p: nat)
    requires LockInv(s) && AwaitedBy(s, k, p)
    ensures p in s.svc.splits
  {
  }

  /** The update finds the client's shard `p` unlocked, overpopulated and too deep to split. */
  ghost predicate LocksDeepest(s: Server, c: nat, pos: Vec2, p: nat) {
    && PrimaryAt(s.svc.tree, s.pendingReady, pos) == Some(p)
    && p !in s.svc.splits && p !in s.svc.merges && CountAt(Placed(s.svc, c, Some(p)), p) > MAX_POPULATION
    && !exists l :: l in Leaves(s.svc.tree) && l.id == p && l.cell.depth < l.cell.max
  }

  /**
   * "Only a shard that splits is locked" is false, and this is exactly when: without crashes, a
   * position update leaves a lock stuck for ever if and only if it finds the client's shard unlocked
   * and overpopulated, and that shard is a leaf at the maximum depth.
   */
  lemma {:induction false} PositionLeaksLockExactly(w: World, events: seq<Event>, c: nat, pos: Vec2, p: nat)
    requires Sound(w) && NoCrash(events) && !Stuck(After(w, events), p)
    ensures var s := After(w, events);
            Stuck(OnPosition(s, c, pos), p) <==> LocksDeepest(s, c, pos, p)
  {
    hide After, Inv, OnPosition, ScaleStep, PrimaryAt, NearAt, SplitLeaf, Ids, InnerIds, CountAt, AwaitedBy;
    var s := After(w, events);
    ReachableInv(w, events);
    LocksReachable(w, events);
    var q := PrimaryAt(s.svc.tree, s.pendingReady, pos);
    var m := s.(svc := Moved(s.svc, c, pos, s.pendingReady).service);
    PositionInTwoParts(s, c, pos);
    if q.Some? && q.value in InnerIds(s.svc.tree) {
      var k := InteriorPrimary(w, s, pos, q.value);
      assert AwaitedBy(s, k, q.value);
      WaitingIsLocked(s, k, q.value);
    }
    ScaleLeaks(m, q, p);
    SplitDefined(s.svc.tree, p, s.svc.nextId);
  }

  /** The merge of a departure hits the waiting parent `p`. */
  ghost predicate MergesWaiting(s: Server, c: nat, p: nat) {
    var m := TryMerge(s.svc.tree, Populations(Forget(s.svc, c).primary), MIN_POPULATION);
    m.Some? && m.value.parent == p && p in s.parentToChildren
  }

  ghost predicate LeaksLock(s: Server, e: Event, p: nat) {
    || (e.Position? && LocksDeepest(s, e.client, e.pos, p))
    || (e.Disconnect? && MergesWaiting(s, e.gone, p))
  }

  lemma {:induction false} DisconnectLeaks(w: World, events: seq<Event>, c: nat, p: nat)
    requires Sound(w) && NoCrash(events) && !Stuck(After(w, events), p)
    ensures Stuck(OnDisconnect(After(w, events), c), p) <==> MergesWaiting(After(w, events), c, p)
  {
    hide After, Inv, TryMerge, OnDisconnect, Undoes, InnerIds, Ids;
    var s := After(w, events);
    ReachableInv(w, events);
    DisconnectForm(s, c);
    var m := TryMerge(s.svc.tree, Populations(Forget(s.svc, c).primary), MIN_POPULATION);
    if m.Some? {
      WellFormedInv(w, s);
      MergeUndoesSplit(s.svc.tree, Populations(Forget(s.svc, c).primary), MIN_POPULATION);
      UndoesParent(m.value, s.svc.tree);
      if m.value.parent == p { MergeLeaksLockExactly(w, events, c, m.value); }
    }
  }

  lemma {:induction false} NotStuckAnew(s: Server, t: Server, p: nat)
    requires !Stuck(s, p) && t.svc.tree == s.svc.tree && t.svc.splits <= s.svc.splits
    ensures !Stuck(t, p)
  {
  }

  lemma {:induction false} StuckStep(w: World, events: seq<Event>, e: Event, p: nat)
    requires Sound(w) && NoCrash(events) && !e.Crash?
    ensures var s := After(w, events); Stuck(Step(s, e), p) <==> Stuck(s, p) || LeaksLock(s, e, p)
  {
    hide After, Inv, Stuck, Abandoned, LockInv, LocksKnown, MergesWaiting, LocksDeepest, OnPosition, OnReady,
      OnDisconnect;
    var s := After(w, events);
    if Stuck(s, p) {
      ReachableInv(w, events);
      LocksReachable(w, events);
      LocksKnownReachable(w, events);
      StuckIsAbandoned(s, p);
      AbandonedStays(w, s, e, p);
      AbandonedIsStuck(Step(s, e), p);
    } else {
      match e
      case Position(c, pos) => PositionLeaksLockExactly(w, events, c, pos, p);
      case Ready(k) => ReadyFrame(s, k); NotStuckAnew(s, OnReady(s, k), p);
      case Disconnect(c) => DisconnectLeaks(w, events, c, p);
    }
  }

  lemma {:induction false} InitialNotStuck(w: World, p: nat)
    ensures !Stuck(Initial(w), p)
  {
  }

  /**
   * In a run without crashes a shard that is not split is locked, and then for ever, if and only if at
   * some point a merge hit it while it waited for servers or an update locked it at the maximum depth.
   */
  lemma {:induction false} StuckExactly(w: World, events: seq<Event>, p: nat)
    requires Sound(w) && NoCrash(events)
    ensures Stuck(After(w, events), p) <==>
            exists i :: 0 <= i < |events| && LeaksLock(After(w, events[..i]), events[i], p)
  {
    hide Stuck, Step, LeaksLock;
    if events == [] {
      assert !Stuck(Initial(w), p) by { InitialNotStuck(w, p); }
    } else {
      var front, e := events[..|events| - 1], events[|events| - 1];
      assert forall i :: 0 <= i < |front| ==> events[i] == front[i] && events[..i] == front[..i];
      StuckExactly(w, front, p);
      StuckStep(w, front, e, p);
      if Stuck(After(w, front), p) {
        var i :| 0 <= i < |front| && LeaksLock(After(w, front[..i]), front[i], p);
        assert LeaksLock(After(w, events[..i]), events[i], p);
      }
    }
  }

  // ---------------------------------------------------------------- the lock a crash leaves behind

  /** The clients that are in shard 0 or in a crashed shard. */
  ghost function Rescuable(primary: map<nat, nat>, crashed: seq<nat>): set<nat> {
    set c | c in primary && (primary[c] == 0 || primary[c] in crashed)
  }

  lemma {:induction false} RescuedCount(s: Service, crashed: seq<nat>)
    ensures CountAt(Crashed(s, crashed).primary, 0) == |Rescuable(s.primary, crashed)|
  {
    hide ForceCollapse, FindParentOf;
    var t := Crashed(s, crashed);
    forall c | c in s.primary && s.primary[c] in crashed ensures t.primary[c] == 0 {
      RescueLookupFails(s.tree, crashed, s.primary[c]);
    }
    assert ClientsAt(t.primary, 0) == Rescuable(s.primary, crashed);
  }

  /**
   * A crash is meant to let the surviving shard split again. After a crash below the root the world is
   * one shard, and it can be locked and split again exactly when enough clients were in shard 0 or in a
   * crashed shard, and shard 0 held no lock or is itself in the crash report: a lock on the root is not
   * released by the crash of its children.
   */
  lemma {:induction false} CrashFreesRootExactly(w: World, s: Server, crashed: seq<nat>, p: nat)
    requires Inv(w, s) && Struck(s.svc.tree, crashed)
    ensures var t := Step(s, Crash(crashed)).svc;
            && HasLeaf(t.tree, p) == (p == 0)
            && (ScaleCheck(t, Some(0)).actions != [] <==>
                  && |Rescuable(s.svc.primary, crashed)| > MAX_POPULATION && w.max > 0
                  && (0 in crashed || (0 !in s.svc.splits && 0 !in s.svc.merges)))
  {
    CollapseAllOrNothing(s.svc.tree, crashed);
    RescuedCount(s.svc, crashed);
  }
}
