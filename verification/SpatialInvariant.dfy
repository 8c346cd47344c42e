/** What every run of the spatial server keeps, whatever the order of its events. */
module SpatialInvariant {
  import opened Geometry
  import opened Options
  import opened SortedIds
  import opened Trees
  import opened TreeSearch
  import opened TreeSurgery
  import opened Spatial

  /** `k` was created by a split and has not signalled Ready yet. */
  ghost predicate PendingChild(ready: map<nat, nat>, k: nat) {
    k in ready && ready[k] != k
  }

  ghost predicate TreeInv(w: World, s: Service) {
    && WellFormed(s.tree) && s.tree.id == 0 && s.tree.cell == Cell(w.bounds, 0, w.max)
    && s.margin == w.margin
    && forall k :: k in Ids(s.tree) ==> k < s.nextId
  }

  /**
   * Pending children map to older shards that are not pending themselves, and one that is still in
   * the tree is a leaf directly below its mapped parent: a single intercept hop suffices.
   */
  ghost predicate ReadyInv(ready: map<nat, nat>, s: Service) {
    && (forall k :: k in ready ==> ready[k] <= k < s.nextId)
    && (forall k :: PendingChild(ready, k) ==> !PendingChild(ready, ready[k]))
    && (forall k :: PendingChild(ready, k) && k in Ids(s.tree) ==> LeafUnder(s.tree, k, ready[k]))
  }

  ghost predicate Settled(ready: map<nat, nat>, s: Service, k: nat) {
    k < s.nextId && !PendingChild(ready, k)
  }

  /** No client is placed in, or subscribed to, a shard that is still booting. */
  ghost predicate ClientInv(ready: map<nat, nat>, s: Service) {
    && (forall c :: c in s.primary ==> Settled(ready, s, s.primary[c]))
    && (forall c :: c in s.subscribed ==> Increasing(s.subscribed[c]))
    && (forall c, k :: c in s.subscribed && k in s.subscribed[c] ==> Settled(ready, s, k))
  }

  /** A parent waits for a non-empty list of servers, each of which maps back to it. */
  ghost predicate GroupInv(ready: map<nat, nat>, groups: map<nat, seq<nat>>) {
    && (forall p :: p in groups ==> groups[p] != [])
    && (forall p, k :: p in groups && k in groups[p] ==> k in ready && ready[k] == p)
  }

  ghost predicate Inv(w: World, s: Server) {
    && TreeInv(w, s.svc) && ReadyInv(s.pendingReady, s.svc) && ClientInv(s.pendingReady, s.svc)
    && GroupInv(s.pendingReady, s.parentToChildren)
  }

  // ---------------------------------------------------------------- position updates

  lemma {:induction false} PrimarySettled(w: World, s: Server, pos: Vec2)
    requires Inv(w, s)
    ensures var p := PrimaryAt(s.svc.tree, s.pendingReady, pos);
            p.Some? ==> Settled(s.pendingReady, s.svc, p.value)
  {
    ShardForDefined(s.svc.tree, pos);
  }

  lemma {:induction false} NearSettled(w: World, s: Server, pos: Vec2)
    requires Inv(w, s)
    ensures forall k :: k in NearAt(s.svc.tree, s.pendingReady, s.svc.margin, pos) ==> Settled(s.pendingReady, s.svc, k)
  {
    PrimarySettled(w, s, pos);
    NearListIds(s.svc.tree, pos, s.svc.margin);
    var l := ShardsNear(s.svc.tree, pos, s.svc.margin);
    var near := InterceptAll(s.pendingReady, l);
    forall k | k in near ensures Settled(s.pendingReady, s.svc, k) {
      var i :| 0 <= i < |near| && near[i] == k;
      assert l[i] in l;
    }
  }

  lemma {:induction false} MovedKeepsInv(w: World, s: Server, c: nat, pos: Vec2)
    requires Inv(w, s)
    ensures Inv(w, s.(svc := Moved(s.svc, c, pos, s.pendingReady).service))
  {
    PrimarySettled(w, s, pos);
    NearSettled(w, s, pos);
    var m := Moved(s.svc, c, pos, s.pendingReady).service;
    forall k ensures Settled(s.pendingReady, m, k) <==> Settled(s.pendingReady, s.svc, k) {}
  }

  /** The overpopulation check together with the loop's bookkeeping of its ScaleUp. */
  ghost function ScaleStep(s: Server, p: Option<nat>): Server {
    var u := ScaleCheck(s.svc, p);
    if u.actions == [] then s.(svc := u.service)
    else
      var ids := [s.svc.nextId, s.svc.nextId + 1, s.svc.nextId + 2, s.svc.nextId + 3];
      Server(u.service, Await(s.pendingReady, ids, p.value), s.parentToChildren[p.value := ids])
  }

  ghost predicate Scales(a: SpatialAction) {
    a.ScaleUp? || a.ScaleDown?
  }

  lemma {:induction false} BookNothing(s: Server, actions: seq<SpatialAction>)
    requires forall a :: a in actions ==> !Scales(a)
    ensures Book(s, actions) == s
  {
    if actions != [] {
      BookNothing(s, actions[..|actions| - 1]);
      assert actions[|actions| - 1] in actions;
    }
  }

  lemma {:induction false} SubscribeShape(c: nat, near: seq<nat>, current: seq<nat>)
    ensures forall a :: a in SubscribeActions(c, near, current) ==> a.Subscribe? && a.client == c
  {
    if near != [] {
      SubscribeShape(c, near[..|near| - 1], current);
    }
  }

  lemma {:induction false} UnsubscribeShape(c: nat, current: seq<nat>, near: seq<nat>)
    ensures forall a :: a in UnsubscribeActions(c, current, near) ==> a.Unsubscribe? && a.client == c
  {
    if current != [] {
      UnsubscribeShape(c, current[..|current| - 1], near);
    }
  }

  lemma {:induction false} MovedShape(s: Service, c: nat, pos: Vec2, ready: map<nat, nat>)
    ensures forall a :: a in Moved(s, c, pos, ready).actions ==> !Scales(a)
  {
    var near := NearAt(s.tree, ready, s.margin, pos);
    SubscribeShape(c, near, Current(s, c));
    UnsubscribeShape(c, Current(s, c), near);
  }

  lemma {:induction false} BookLast(s: Server, actions: seq<SpatialAction>, a: SpatialAction)
    ensures Book(s, actions + [a]) == BookAction(Book(s, actions), a)
  {
    assert (actions + [a])[..|actions + [a]| - 1] == actions;
  }

  lemma {:induction false} ScaleActions(s: Service, p: Option<nat>)
    ensures var u := ScaleCheck(s, p);
            u.actions == [] || (p.Some? && u.actions
                == [ScaleUp(p.value, [s.nextId, s.nextId + 1, s.nextId + 2, s.nextId + 3])])
  {
  }

  /** A position update moves the client and then checks the population; ScaleDown is never emitted. */
  lemma {:induction false} PositionInTwoParts(s: Server, c: nat, pos: Vec2)
    ensures var m := s.(svc := Moved(s.svc, c, pos, s.pendingReady).service);
            OnPosition(s, c, pos) == ScaleStep(m, PrimaryAt(s.svc.tree, s.pendingReady, pos))
    ensures forall a :: a in PositionUpdate(s.svc, c, pos, s.pendingReady).actions ==> !a.ScaleDown?
  {
    hide Moved, PrimaryAt, ScaleCheck, Book, Await;
    var m := Moved(s.svc, c, pos, s.pendingReady);
    var p := PrimaryAt(s.svc.tree, s.pendingReady, pos);
    var u := ScaleCheck(m.service, p);
    var t := s.(svc := u.service);
    MovedShape(s.svc, c, pos, s.pendingReady);
    ScaleActions(m.service, p);
    BookNothing(t, m.actions);
    if u.actions == [] {
      assert m.actions + u.actions == m.actions;
    } else {
      BookLast(t, m.actions, u.actions[0]);
    }
  }

  /** What a ScaleStep that does split the shard `q` yields. */
  ghost predicate SplitsTo(s: Server, q: nat, t: Server) {
    var n := s.svc.nextId;
    && SplitLeaf(s.svc.tree, q, n) == Some(t.svc.tree)
    && t.svc == s.svc.(tree := t.svc.tree, nextId := n + 4, splits := s.svc.splits + {q})
    && t.pendingReady == Await(s.pendingReady, [n, n + 1, n + 2, n + 3], q)
    && t.parentToChildren == s.parentToChildren[q := [n, n + 1, n + 2, n + 3]]
  }

  /** A ScaleStep does nothing, or locks a shard it cannot split, or splits it. */
  lemma {:induction false} ScaleCases(s: Server, p: Option<nat>)
    ensures var t := ScaleStep(s, p);
            || t == s
            || (p.Some? && t == s.(svc := s.svc.(splits := s.svc.splits + {p.value}))
                && SplitLeaf(s.svc.tree, p.value, s.svc.nextId).None?)
            || (p.Some? && SplitsTo(s, p.value, t) && p.value !in s.svc.splits && p.value !in s.svc.merges)
  {
    hide SplitLeaf;
  }

  lemma {:induction false} AwaitExact(ready: map<nat, nat>, n: nat, q: nat)
    ensures var r := Await(ready, [n, n + 1, n + 2, n + 3], q);
            && (forall k :: k in r <==> k in ready || k in Four(n))
            && (forall k :: k in r ==> r[k] == if k in Four(n) then q else ready[k])
  {
    assert forall k :: k in [n, n + 1, n + 2, n + 3] <==> k in Four(n);
  }

  lemma {:induction false} SplitKeepsTree(w: World, s: Server, q: nat, t: Server)
    requires TreeInv(w, s.svc) && SplitsTo(s, q, t) && q < s.svc.nextId
    ensures TreeInv(w, t.svc)
  {
    hide SplitLeaf, WellFormed, Await;
    SplitShape(s.svc.tree, q, s.svc.nextId);
  }

  lemma {:induction false} SplitKeepsHanging(w: World, s: Server, q: nat, t: Server, k: nat)
    requires Inv(w, s) && SplitsTo(s, q, t) && Settled(s.pendingReady, s.svc, q)
    requires PendingChild(t.pendingReady, k) && k in Ids(t.svc.tree)
    ensures LeafUnder(t.svc.tree, k, t.pendingReady[k])
  {
    hide SplitLeaf, Await, LeafUnder, ClientInv, GroupInv, TreeInv, Ids;
    var n := s.svc.nextId;
    AwaitExact(s.pendingReady, n, q);
    SplitIds(s.svc.tree, q, n);
    if k in Four(n) {
      SplitHangs(s.svc.tree, q, n, k);
    } else {
      assert PendingChild(s.pendingReady, k);
      SplitKeepsLeaf(s.svc.tree, q, n, k, s.pendingReady[k]);
    }
  }

  lemma {:induction false} SplitKeepsReady(w: World, s: Server, q: nat, t: Server)
    requires Inv(w, s) && SplitsTo(s, q, t) && Settled(s.pendingReady, s.svc, q)
    ensures ReadyInv(t.pendingReady, t.svc)
  {
    hide SplitLeaf, WellFormed, Await, LeafUnder, ClientInv, GroupInv;
    AwaitExact(s.pendingReady, s.svc.nextId, q);
    forall k | PendingChild(t.pendingReady, k)
      ensures !PendingChild(t.pendingReady, t.pendingReady[k])
      ensures k in Ids(t.svc.tree) ==> LeafUnder(t.svc.tree, k, t.pendingReady[k])
    {
      assert k in Four(s.svc.nextId) || PendingChild(s.pendingReady, k);
      if k in Ids(t.svc.tree) {
        SplitKeepsHanging(w, s, q, t, k);
      }
    }
  }

  lemma {:induction false} SplitKeepsGroups(s: Server, q: nat, t: Server)
    requires ReadyInv(s.pendingReady, s.svc) && GroupInv(s.pendingReady, s.parentToChildren) && SplitsTo(s, q, t)
    ensures GroupInv(t.pendingReady, t.parentToChildren)
  {
    hide SplitLeaf, Await, LeafUnder, PendingChild;
    AwaitExact(s.pendingReady, s.svc.nextId, q);
  }

  lemma {:induction false} SplitKeepsClients(w: World, s: Server, q: nat, t: Server)
    requires Inv(w, s) && SplitsTo(s, q, t)
    ensures ClientInv(t.pendingReady, t.svc) && GroupInv(t.pendingReady, t.parentToChildren)
  {
    hide SplitLeaf, TreeInv, Await, LeafUnder, GroupInv;
    AwaitExact(s.pendingReady, s.svc.nextId, q);
    forall k | Settled(s.pendingReady, s.svc, k) ensures Settled(t.pendingReady, t.svc, k) {}
    SplitKeepsGroups(s, q, t);
    hide Settled;
  }

  /** A split shard is settled, so its four children start with a one-hop intercept to it. */
  lemma {:induction false} ScaleKeepsInv(w: World, s: Server, p: Option<nat>)
    requires Inv(w, s)
    requires p.Some? ==> Settled(s.pendingReady, s.svc, p.value)
    ensures Inv(w, ScaleStep(s, p))
  {
    hide SplitLeaf, WellFormed, LeafUnder, ScaleStep, SplitsTo;
    ScaleCases(s, p);
    var t := ScaleStep(s, p);
    if p.Some? && SplitsTo(s, p.value, t) {
      SplitKeepsTree(w, s, p.value, t);
      SplitKeepsReady(w, s, p.value, t);
      SplitKeepsClients(w, s, p.value, t);
    } else {
      forall k ensures Settled(s.pendingReady, t.svc, k) <==> Settled(s.pendingReady, s.svc, k) {}
    }
  }

  lemma {:induction false} PositionKeepsInv(w: World, s: Server, c: nat, pos: Vec2)
    requires Inv(w, s)
    ensures Inv(w, OnPosition(s, c, pos))
  {
    hide Inv, OnPosition, ScaleStep, PrimaryAt, NearAt;
    PositionInTwoParts(s, c, pos);
    MovedKeepsInv(w, s, c, pos);
    PrimarySettled(w, s, pos);
    ScaleKeepsInv(w, s.(svc := Moved(s.svc, c, pos, s.pendingReady).service),
        PrimaryAt(s.svc.tree, s.pendingReady, pos));
  }

  // ---------------------------------------------------------------- the other events

  lemma {:induction false} ReadyKeepsGroups(s: Server, shard: nat)
    requires GroupInv(s.pendingReady, s.parentToChildren)
    ensures GroupInv(OnReady(s, shard).pendingReady, OnReady(s, shard).parentToChildren)
  {
    hide Without, Unlock;
    var t := OnReady(s, shard);
    if t != s {
      var parent := s.pendingReady[shard];
      if parent in s.parentToChildren {
        var left := Without(s.parentToChildren[parent], shard);
        forall p, k | p in t.parentToChildren && k in t.parentToChildren[p]
          ensures k in t.pendingReady && t.pendingReady[k] == p
        {
          assert p == parent ==> k in left && k in s.parentToChildren[p];
        }
      }
    }
  }

  /** A Ready only shrinks the waiting maps and the locks. */
  lemma {:induction false} ReadyFrame(s: Server, shard: nat)
    ensures var t := OnReady(s, shard);
            && t.svc == s.svc.(splits := t.svc.splits, merges := t.svc.merges)
            && t.pendingReady == s.pendingReady - {shard}
            && t.svc.splits <= s.svc.splits && t.svc.merges <= s.svc.merges
  {
    hide Without;
    if shard !in s.pendingReady {
      assert s.pendingReady - {shard} == s.pendingReady;
    }
  }

  lemma {:induction false} ReadyKeepsInv(w: World, s: Server, shard: nat)
    requires Inv(w, s)
    ensures Inv(w, OnReady(s, shard))
  {
    hide WellFormed, LeafUnder, OnReady, Increasing;
    ReadyKeepsGroups(s, shard);
    ReadyFrame(s, shard);
    var t := OnReady(s, shard);
    forall k | Settled(s.pendingReady, s.svc, k) ensures Settled(t.pendingReady, t.svc, k) {}
    forall k ensures PendingChild(t.pendingReady, k) <==> PendingChild(s.pendingReady, k) && k != shard {}
  }

  /** The disconnect branch in one expression: at most one merge, whose parent waits for itself. */
  lemma {:induction false} DisconnectForm(s: Server, c: nat)
    ensures var f := Forget(s.svc, c);
            var m := TryMerge(f.tree, Populations(f.primary), MIN_POPULATION);
            OnDisconnect(s, c) ==
              if m.None? then s.(svc := f)
              else Server(f.(tree := m.value.tree, merges := f.merges + {m.value.parent}),
                          s.pendingReady[m.value.parent := m.value.parent],
                          s.parentToChildren[m.value.parent := [m.value.parent]])
  {
    var u := CheckMerges(Forget(s.svc, c));
    if u.actions != [] {
      assert u.actions[..|u.actions| - 1] == [];
      assert BookMerge(s.(svc := u.service), []) == s.(svc := u.service);
    }
  }

  lemma {:induction false} ForgetKeepsInv(w: World, s: Server, c: nat)
    requires Inv(w, s)
    ensures Inv(w, s.(svc := Forget(s.svc, c)))
  {
    hide WellFormed, LeafUnder;
    forall k ensures Settled(s.pendingReady, Forget(s.svc, c), k) <==> Settled(s.pendingReady, s.svc, k) {}
  }

  /** What a merge of the group `m` yields. */
  ghost predicate MergesTo(s: Server, m: Merged, t: Server) {
    && t.svc == s.svc.(tree := m.tree, merges := s.svc.merges + {m.parent})
    && t.pendingReady == s.pendingReady[m.parent := m.parent]
    && t.parentToChildren == s.parentToChildren[m.parent := [m.parent]]
  }

  /** An interior node is never a pending child. */
  lemma {:induction false} InnerNotPending(w: World, s: Server, p: nat)
    requires Inv(w, s) && p in InnerIds(s.svc.tree)
    ensures !PendingChild(s.pendingReady, p)
  {
    hide LeafUnder, ClientInv, GroupInv;
    LeafOrInner(s.svc.tree, p);
    if PendingChild(s.pendingReady, p) {
      LeafUnderIds(s.svc.tree, p, s.pendingReady[p]);
    }
  }

  lemma {:induction false} TreeInvFrame(w: World, s: Service, t: Service)
    requires TreeInv(w, t) && s.tree == t.tree && s.margin == t.margin && s.nextId == t.nextId
    ensures TreeInv(w, s)
  {
  }

  lemma {:induction false} MergeWellFormed(w: World, s: Server, pop: map<nat, nat>)
    requires Inv(w, s) && TryMerge(s.svc.tree, pop, MIN_POPULATION).Some?
    ensures var m := TryMerge(s.svc.tree, pop, MIN_POPULATION).value;
            Undoes(m, s.svc.tree) && m.parent in InnerIds(s.svc.tree) && m.parent in Ids(s.svc.tree)
  {
    hide TryMerge, Shaped, Unique, Numbered, SplitLeaf, HasLeaf, ReadyInv, ClientInv, GroupInv;
    MergeUndoesSplit(s.svc.tree, pop, MIN_POPULATION);
    LeafOrInner(s.svc.tree, TryMerge(s.svc.tree, pop, MIN_POPULATION).value.parent);
  }

  lemma {:induction false} MergeKeepsTree(w: World, s: Service, m: Merged)
    requires TreeInv(w, s) && Undoes(m, s.tree)
    ensures TreeInv(w, s.(tree := m.tree))
  {
    hide Shaped, Unique, Numbered, SplitLeaf, HasLeaf;
  }

  lemma {:induction false} MergeKeepsGroups(s: Server, m: Merged, t: Server)
    requires GroupInv(s.pendingReady, s.parentToChildren) && MergesTo(s, m, t)
    requires !PendingChild(s.pendingReady, m.parent)
    ensures GroupInv(t.pendingReady, t.parentToChildren)
  {
  }

  lemma {:induction false} MergeKeepsReady(w: World, s: Server, t: Server, pop: map<nat, nat>)
    requires Inv(w, s) && TryMerge(s.svc.tree, pop, MIN_POPULATION).Some?
    requires MergesTo(s, TryMerge(s.svc.tree, pop, MIN_POPULATION).value, t)
    ensures ReadyInv(t.pendingReady, t.svc)
  {
    hide Shaped, Unique, Numbered, LeafUnder, TryMerge, SplitLeaf, ClientInv, GroupInv;
    var m := TryMerge(s.svc.tree, pop, MIN_POPULATION).value;
    MergeUndoesSplit(s.svc.tree, pop, MIN_POPULATION);
    InnerNotPending(w, s, m.parent);
    LeafOrInner(s.svc.tree, m.parent);
    forall k | PendingChild(t.pendingReady, k)
      ensures !PendingChild(t.pendingReady, t.pendingReady[k])
      ensures k in Ids(t.svc.tree) ==> LeafUnder(t.svc.tree, k, t.pendingReady[k])
    {
      assert PendingChild(s.pendingReady, k);
      if k in Ids(t.svc.tree) {
        MergeKeepsLeaf(s.svc.tree, pop, MIN_POPULATION, k, s.pendingReady[k]);
      }
    }
  }

  lemma {:induction false} MergeKeepsClients(s: Server, m: Merged, t: Server)
    requires ClientInv(s.pendingReady, s.svc) && MergesTo(s, m, t)
    requires !PendingChild(s.pendingReady, m.parent)
    ensures ClientInv(t.pendingReady, t.svc)
  {
    forall k | Settled(s.pendingReady, s.svc, k) ensures Settled(t.pendingReady, t.svc, k) {}
    hide Settled;
  }

  lemma {:induction false} MergeKeepsInv(w: World, s: Server, t: Server, pop: map<nat, nat>)
    requires Inv(w, s) && TryMerge(s.svc.tree, pop, MIN_POPULATION).Some?
    requires MergesTo(s, TryMerge(s.svc.tree, pop, MIN_POPULATION).value, t)
    ensures Inv(w, t)
  {
    hide TreeInv, LeafUnder, TryMerge, Undoes, ClientInv, ReadyInv, GroupInv, InnerIds;
    var m := TryMerge(s.svc.tree, pop, MIN_POPULATION).value;
    MergeWellFormed(w, s, pop);
    InnerNotPending(w, s, m.parent);
    MergeKeepsTree(w, s.svc, m);
    MergeKeepsReady(w, s, t, pop);
    MergeKeepsClients(s, m, t);
    MergeKeepsGroups(s, m, t);
    TreeInvFrame(w, t.svc, s.svc.(tree := m.tree));
  }

  lemma {:induction false} DisconnectKeepsInv(w: World, s: Server, c: nat)
    requires Inv(w, s)
    ensures Inv(w, OnDisconnect(s, c))
  {
    hide Inv, OnDisconnect, TryMerge;
    DisconnectForm(s, c);
    ForgetKeepsInv(w, s, c);
    var f := s.(svc := Forget(s.svc, c));
    var pop := Populations(f.svc.primary);
    if TryMerge(f.svc.tree, pop, MIN_POPULATION).Some? {
      MergeKeepsInv(w, f, OnDisconnect(s, c), pop);
    }
  }

  lemma {:induction false} CrashKeepsInv(w: World, s: Server, crashed: seq<nat>)
    requires Inv(w, s)
    ensures Inv(w, Step(s, Crash(crashed)))
  {
    var t := Step(s, Crash(crashed));
    CollapseAllOrNothing(s.svc.tree, crashed);
    IdsSplitUp(s.svc.tree);
    forall k ensures Settled(s.pendingReady, t.svc, k) <==> Settled(s.pendingReady, s.svc, k) {}
    assert !PendingChild(s.pendingReady, 0);
    forall c | c in t.svc.primary ensures Settled(t.pendingReady, t.svc, t.svc.primary[c]) {
      if s.svc.primary[c] in crashed {
        RescueLookupFails(s.svc.tree, crashed, s.svc.primary[c]);
      }
    }
  }

  lemma {:induction false} StepKeepsInv(w: World, s: Server, e: Event)
    requires Inv(w, s)
    ensures Inv(w, Step(s, e))
  {
    hide Inv;
    match e
    case Position(c, pos) => PositionKeepsInv(w, s, c, pos);
    case Ready(shard) => ReadyKeepsInv(w, s, shard);
    case Disconnect(c) => DisconnectKeepsInv(w, s, c);
    case Crash(crashed) => CrashKeepsInv(w, s, crashed);
  }

  /** Every reachable state satisfies the invariant, over any interleaving of events. */
  lemma {:induction false} ReachableInv(w: World, events: seq<Event>)
    requires Sound(w)
    ensures Inv(w, After(w, events))
  {
    if events != [] {
      ReachableInv(w, events[..|events| - 1]);
      StepKeepsInv(w, After(w, events[..|events| - 1]), events[|events| - 1]);
    }
  }

  /** No reachable state shows any client a shard that is still booting. */
  lemma {:induction false} NoClientSeesPendingShard(w: World, events: seq<Event>, c: nat, k: nat)
    requires Sound(w) && PendingChild(After(w, events).pendingReady, k)
    ensures var s := After(w, events).svc;
            && !(c in s.primary && s.primary[c] == k)
            && !(c in s.subscribed && k in s.subscribed[c])
  {
    ReachableInv(w, events);
    hide After;
    var s := After(w, events);
    assert c in s.svc.primary ==> Settled(s.pendingReady, s.svc, s.svc.primary[c]);
    assert c in s.svc.subscribed && k in s.svc.subscribed[c] ==> Settled(s.pendingReady, s.svc, k);
  }
}
