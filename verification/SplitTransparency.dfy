/** Splits are invisible: no client's view changes until a booted child signals Ready. */
module SplitTransparency {
  import opened Geometry
  import opened Options
  import opened SortedIds
  import opened Trees
  import opened TreeSearch
  import opened TreeSurgery
  import opened Spatial
  import opened SpatialInvariant

  /** What the server would tell a client standing at `pos`: its primary shard and the nearby shards. */
  datatype View = View(primary: Option<nat>, near: seq<nat>)

  function ViewAt(s: Server, pos: Vec2): View {
    View(PrimaryAt(s.svc.tree, s.pendingReady, pos), NearAt(s.svc.tree, s.pendingReady, s.svc.margin, pos))
  }

  ghost function Intercepted(ready: map<nat, nat>, l: seq<nat>): set<nat> {
    set s | s in l :: Intercept(ready, s)
  }

  /** The nearby list is the canonical list of the intercepted leaves; adding the primary is redundant. */
  lemma {:induction false} NearAtExact(t: Tree, ready: map<nat, nat>, margin: real, pos: Vec2)
    requires margin >= 0.0
    ensures forall k :: k in NearAt(t, ready, margin, pos) <==> k in Intercepted(ready, NearList(t, pos, margin))
  {
    var l := ShardsNear(t, pos, margin);
    var near := InterceptAll(ready, l);
    forall k ensures k in near <==> k in Intercepted(ready, NearList(t, pos, margin)) {
      if k in near {
        var i :| 0 <= i < |near| && near[i] == k;
        assert l[i] in l;
      }
      if k in Intercepted(ready, NearList(t, pos, margin)) {
        var s :| s in NearList(t, pos, margin) && Intercept(ready, s) == k;
        var i :| 0 <= i < |l| && l[i] == s;
        assert near[i] == k;
      }
    }
    if ShardFor(t, pos).Some? {
      PrimaryIsNear(t, pos, margin);
    }
  }

  /** Equal sets of intercepted leaves give equal nearby lists. */
  lemma {:induction false} NearFromSets(t: Tree, ready: map<nat, nat>, u: Tree, ready': map<nat, nat>, margin: real,
          pos: Vec2)
    requires margin >= 0.0
    requires Intercepted(ready, NearList(t, pos, margin)) == Intercepted(ready', NearList(u, pos, margin))
    ensures NearAt(t, ready, margin, pos) == NearAt(u, ready', margin, pos)
  {
    hide NearAt;
    NearAtExact(t, ready, margin, pos);
    NearAtExact(u, ready', margin, pos);
    IncreasingUnique(NearAt(t, ready, margin, pos), NearAt(u, ready', margin, pos));
  }

  lemma {:induction false} InterceptsAgree(q: nat, n: nat, ready: map<nat, nat>, ready': map<nat, nat>, l: seq<nat>,
          l': seq<nat>)
    requires forall s :: Intercept(ready', s) == Intercept(ready, Rename(q, n, s))
    requires Renamed(q, n, l') == set s | s in l
    ensures Intercepted(ready, l) == Intercepted(ready', l')
  {
    forall k | k in Intercepted(ready, l) ensures k in Intercepted(ready', l') {
      var s :| s in l && Intercept(ready, s) == k;
      assert s in Renamed(q, n, l');
    }
    forall k | k in Intercepted(ready', l') ensures k in Intercepted(ready, l) {
      var s :| s in l' && Intercept(ready', s) == k;
      assert Rename(q, n, s) in Renamed(q, n, l');
    }
  }

  /**
   * Splitting the shard `q`, with its four children recorded as pending, changes neither the
   * primary shard nor the nearby shards of any position.
   */
  lemma {:induction false} SplitInvisible(t: Tree, q: nat, n: nat, ready: map<nat, nat>, margin: real, pos: Vec2)
    requires Shaped(t) && SplitLeaf(t, q, n).Some? && Ids(t) !! Four(n) && margin >= 0.0
    requires (forall k :: k in Four(n) ==> k !in ready) && Intercept(ready, q) == q
    ensures var u := SplitLeaf(t, q, n).value;
            var ready' := Await(ready, [n, n + 1, n + 2, n + 3], q);
            && PrimaryAt(u, ready', pos) == PrimaryAt(t, ready, pos)
            && NearAt(u, ready', margin, pos) == NearAt(t, ready, margin, pos)
  {
    hide SplitLeaf, ShardFor, NearList, NearAt, Await, Shaped;
    var u := SplitLeaf(t, q, n).value;
    var ready' := Await(ready, [n, n + 1, n + 2, n + 3], q);
    AwaitExact(ready, n, q);
    assert forall s :: Intercept(ready', s) == Intercept(ready, Rename(q, n, s));
    SplitRenamesShardFor(t, q, n, pos);
    SplitRenamesNear(t, q, n, pos, margin);
    InterceptsAgree(q, n, ready, ready', NearList(t, pos, margin), NearList(u, pos, margin));
    NearFromSets(t, ready, u, ready', margin, pos);
  }

  lemma {:induction false} InvFacts(w: World, s: Server)
    requires Inv(w, s)
    ensures Shaped(s.svc.tree) && Unique(s.svc.tree) && s.svc.margin == w.margin
    ensures Ids(s.svc.tree) !! Four(s.svc.nextId)
    ensures forall k :: k in Four(s.svc.nextId) ==> k !in s.pendingReady
  {
    hide Shaped, Unique, Numbered, ClientInv, GroupInv, LeafUnder;
  }

  lemma {:induction false} SplitStepInvisible(w: World, s: Server, q: nat, t: Server, pos: Vec2)
    requires Sound(w) && Inv(w, s) && SplitsTo(s, q, t) && Settled(s.pendingReady, s.svc, q)
    ensures ViewAt(t, pos) == ViewAt(s, pos)
  {
    hide SplitLeaf, PrimaryAt, NearAt, Inv, Shaped, Await;
    InvFacts(w, s);
    SplitInvisible(s.svc.tree, q, s.svc.nextId, s.pendingReady, s.svc.margin, pos);
  }

  lemma {:induction false} ScaleStepInvisible(w: World, s: Server, p: Option<nat>, pos: Vec2)
    requires Sound(w) && Inv(w, s)
    requires p.Some? ==> Settled(s.pendingReady, s.svc, p.value)
    ensures ViewAt(ScaleStep(s, p), pos) == ViewAt(s, pos)
  {
    hide SplitLeaf, ScaleStep, SplitsTo, PrimaryAt, NearAt, Inv;
    ScaleCases(s, p);
    if p.Some? && SplitsTo(s, p.value, ScaleStep(s, p)) {
      SplitStepInvisible(w, s, p.value, ScaleStep(s, p), pos);
    }
  }

  /** No position update, whether it splits a shard or not, changes the view from any position. */
  lemma {:induction false} PositionKeepsViews(w: World, s: Server, c: nat, here: Vec2, pos: Vec2)
    requires Sound(w) && Inv(w, s)
    ensures ViewAt(OnPosition(s, c, here), pos) == ViewAt(s, pos)
  {
    hide OnPosition, ScaleStep, PrimaryAt, NearAt, Inv;
    PositionInTwoParts(s, c, here);
    PrimarySettled(w, s, here);
    MovedKeepsInv(w, s, c, here);
    ScaleStepInvisible(w, s.(svc := Moved(s.svc, c, here, s.pendingReady).service),
        PrimaryAt(s.svc.tree, s.pendingReady, here), pos);
  }

  ghost predicate OnlyPositions(events: seq<Event>) {
    forall i :: 0 <= i < |events| ==> events[i].Position?
  }

  /**
   * Split transparency over runs: after any history, no number of further position updates, and so
   * no number of splits, changes what any client sees until some other event arrives.
   */
  lemma {:induction false} SplitsInvisibleUntilReady(w: World, past: seq<Event>, updates: seq<Event>, pos: Vec2)
    requires Sound(w) && OnlyPositions(updates)
    ensures ViewAt(After(w, past + updates), pos) == ViewAt(After(w, past), pos)
  {
    hide ViewAt, OnPosition, Inv;
    if updates == [] {
      assert past + updates == past;
    } else {
      var all, before := past + updates, updates[..|updates| - 1];
      assert all[..|all| - 1] == past + before && all[|all| - 1] == updates[|updates| - 1];
      SplitsInvisibleUntilReady(w, past, before, pos);
      ReachableInv(w, past + before);
      var e := updates[|updates| - 1];
      PositionKeepsViews(w, After(w, past + before), e.client, e.pos, pos);
    }
  }

  // ---------------------------------------------------------------- merges

  lemma {:induction false} InnerSurvives(m: Merged, t: Tree, q: nat)
    requires Undoes(m, t) && Unique(t) && q in InnerIds(t)
    ensures q !in Four(m.children[0])
  {
    hide SplitLeaf, Shaped, Numbered, LeafUnder, Inner;
    if q in Four(m.children[0]) {
      SplitHangs(m.tree, m.parent, m.children[0], q);
      LeafUnderIds(t, q, m.parent);
      LeafOrInner(t, q);
    }
  }

  /** Renaming a merged leaf and intercepting it commute. */
  lemma {:induction false} MergeInterceptOnce(w: World, s: Server, m: Merged, k: nat)
    requires Inv(w, s) && Undoes(m, s.svc.tree) && k in Ids(s.svc.tree)
    ensures var ready' := s.pendingReady[m.parent := m.parent];
            Intercept(ready', Rename(m.parent, m.children[0], k))
                == Rename(m.parent, m.children[0], Intercept(s.pendingReady, k))
  {
    hide SplitLeaf, Shaped, Numbered, LeafUnder, ClientInv, GroupInv, Inner;
    var n, tree := m.children[0], s.svc.tree;
    InnerNotPending(w, s, m.parent);
    if PendingChild(s.pendingReady, k) {
      var q := s.pendingReady[k];
      if k in Four(n) {
        SplitHangs(m.tree, m.parent, n, k);
        LeafUnderUnique(tree, k, m.parent, q);
      } else {
        LeafUnderIds(tree, k, q);
        InnerSurvives(m, tree, q);
      }
    }
  }

  lemma {:induction false} RenameCommutes(p: nat, n: nat, ready: map<nat, nat>, ready': map<nat, nat>, l: seq<nat>,
          l': seq<nat>)
    requires forall k :: k in l ==> Intercept(ready', Rename(p, n, k)) == Rename(p, n, Intercept(ready, k))
    requires Renamed(p, n, l) == set k | k in l'
    ensures Intercepted(ready', l') == set k | k in Intercepted(ready, l) :: Rename(p, n, k)
  {
    forall k | k in Intercepted(ready', l') ensures k in set x | x in Intercepted(ready, l) :: Rename(p, n, x) {
      var x :| x in l' && Intercept(ready', x) == k;
      assert x in Renamed(p, n, l);
      var y :| y in l && Rename(p, n, y) == x;
      assert Intercept(ready, y) in Intercepted(ready, l);
    }
    forall k | k in set x | x in Intercepted(ready, l) :: Rename(p, n, x) ensures k in Intercepted(ready', l') {
      var x :| x in Intercepted(ready, l) && Rename(p, n, x) == k;
      var y :| y in l && Intercept(ready, y) == x;
      assert Rename(p, n, y) in Renamed(p, n, l);
      assert Rename(p, n, y) in l';
    }
  }

  lemma {:induction false} UndoesFacts(m: Merged, t: Tree)
    requires Undoes(m, t)
    ensures Shaped(m.tree) && Ids(m.tree) !! Four(m.children[0])
  {
    hide SplitLeaf, Shaped, Unique, Numbered, Inner, InnerIds;
  }

  /** A merge changes the view only by renaming the four merged shards to their parent. */
  lemma {:induction false} MergeRenamesView(w: World, s: Server, t: Server, m: Merged, pos: Vec2)
    requires Sound(w) && Inv(w, s) && Undoes(m, s.svc.tree) && MergesTo(s, m, t)
    ensures ViewAt(t, pos).primary ==
            if ViewAt(s, pos).primary.None? then None
                else Some(Rename(m.parent, m.children[0], ViewAt(s, pos).primary.value))
    ensures (set k | k in ViewAt(t, pos).near) == set k | k in ViewAt(s, pos).near :: Rename(m.parent, m.children[0], k)
  {
    hide SplitLeaf, ShardFor, NearList, NearAt, Inv, WellFormed, Shaped, Unique, Ids;
    var tree, p, n := s.svc.tree, m.parent, m.children[0];
    InvFacts(w, s);
    UndoesFacts(m, tree);
    SplitRenamesShardFor(m.tree, p, n, pos);
    SplitRenamesNear(m.tree, p, n, pos, s.svc.margin);
    NearAtExact(tree, s.pendingReady, s.svc.margin, pos);
    NearAtExact(m.tree, t.pendingReady, s.svc.margin, pos);
    var l, l' := NearList(tree, pos, s.svc.margin), NearList(m.tree, pos, s.svc.margin);
    NearListIds(tree, pos, s.svc.margin);
    forall k | k in l {
      MergeInterceptOnce(w, s, m, k);
    }
    RenameCommutes(p, n, s.pendingReady, t.pendingReady, l, l');
    ShardForDefined(tree, pos);
    if ShardFor(tree, pos).Some? {
      MergeInterceptOnce(w, s, m, ShardFor(tree, pos).value);
    }
    var near := NearAt(tree, s.pendingReady, s.svc.margin, pos);
    assert (set k | k in near) == Intercepted(s.pendingReady, l);
    assert (set k | k in near :: Rename(p, n, k)) == set k | k in (set x | x in near) :: Rename(p, n, k);
  }

  lemma {:induction false} InvUndoes(w: World, s: Server, pop: map<nat, nat>)
    requires Inv(w, s) && TryMerge(s.svc.tree, pop, MIN_POPULATION).Some?
    ensures Undoes(TryMerge(s.svc.tree, pop, MIN_POPULATION).value, s.svc.tree)
    ensures |TryMerge(s.svc.tree, pop, MIN_POPULATION).value.children| == 4
  {
    MergeUndoesSplit(s.svc.tree, pop, MIN_POPULATION);
  }

  /**
   * A disconnect shows every other client either the same view as before or, when four siblings
   * merge, the same view with the four renamed to their parent.
   */
  lemma {:induction false} DisconnectViews(w: World, s: Server, c: nat, pos: Vec2)
    requires Sound(w) && Inv(w, s)
    ensures var m := TryMerge(s.svc.tree, Populations(Forget(s.svc, c).primary), MIN_POPULATION);
            var v, v' := ViewAt(s, pos), ViewAt(OnDisconnect(s, c), pos);
            if m.None? then v' == v
            else && |m.value.children| == 4
                 && v'.primary == (if v.primary.None? then None
                     else Some(Rename(m.value.parent, m.value.children[0], v.primary.value)))
                 && (set k | k in v'.near) == (set k | k in v.near :: Rename(m.value.parent, m.value.children[0], k))
  {
    hide TryMerge, OnDisconnect, PrimaryAt, NearAt, Inv, Undoes;
    var f := s.(svc := Forget(s.svc, c));
    var m := TryMerge(s.svc.tree, Populations(f.svc.primary), MIN_POPULATION);
    DisconnectForm(s, c);
    ForgetKeepsInv(w, s, c);
    if m.Some? {
      assert Undoes(m.value, s.svc.tree) && |m.value.children| == 4 by { InvUndoes(w, s, Populations(f.svc.primary)); }
      MergeRenamesView(w, f, OnDisconnect(s, c), m.value, pos);
    }
  }

  // ---------------------------------------------------------------- Ready signals and crashes

  /**
   * A Ready of `k` changes views in one way only: where `k` is nearby it now stands for itself instead of
   * for its parent. A view without `k` stays as it is.
   */
  lemma {:induction false} ReadyViews(w: World, s: Server, k: nat, pos: Vec2)
    requires Sound(w) && Inv(w, s)
    ensures var v, v' := ViewAt(s, pos), ViewAt(OnReady(s, k), pos);
            var l := NearList(s.svc.tree, pos, s.svc.margin);
            && v'.primary == (if ShardFor(s.svc.tree, pos) == Some(k) then Some(k) else v.primary)
            && (set x | x in v.near) == (set x | x in l :: Intercept(s.pendingReady, x))
            && (set x | x in v'.near) == (set x | x in l :: if x == k then k else Intercept(s.pendingReady, x))
            && (k !in l ==> v' == v)
  {
    hide OnReady, NearAt, NearList, ShardFor, Inv;
    InvFacts(w, s);
    ReadyFrame(s, k);
    var t, ready, margin := s.svc.tree, s.pendingReady, s.svc.margin;
    var l := NearList(t, pos, margin);
    NearAtExact(t, ready, margin, pos);
    NearAtExact(t, ready - {k}, margin, pos);
    assert forall x :: Intercept(ready - {k}, x) == if x == k then k else Intercept(ready, x);
    assert Intercepted(ready - {k}, l) == set x | x in l :: if x == k then k else Intercept(ready, x);
    if k !in l {
      assert Intercepted(ready - {k}, l) == Intercepted(ready, l);
      NearFromSets(t, ready, t, ready - {k}, margin, pos);
      if ShardFor(t, pos).Some? {
        PrimaryIsNear(t, pos, margin);
      }
    }
  }

  lemma {:induction false} RootViews(cell: Cell, ready: map<nat, nat>, margin: real, pos: Vec2)
    requires margin >= 0.0 && Intercept(ready, 0) == 0
    ensures PrimaryAt(Leaf(cell, 0), ready, pos) == if Contains(cell.bounds, pos) then Some(0) else None
    ensures NearAt(Leaf(cell, 0), ready, margin, pos)
         == if RectsOverlap(cell.bounds, MarginBox(pos, margin)) then [0] else []
  {
    hide NearAt, MarginBox;
    var l := NearList(Leaf(cell, 0), pos, margin);
    NearAtExact(Leaf(cell, 0), ready, margin, pos);
    assert l == if RectsOverlap(cell.bounds, MarginBox(pos, margin)) then [0] else [];
    assert Intercepted(ready, l) == set x | x in l;
    IncreasingUnique(NearAt(Leaf(cell, 0), ready, margin, pos), l);
  }

  /**
   * A crash below the root shows everybody shard 0 and nothing else; any other crash report changes no
   * view at all.
   */
  lemma {:induction false} CrashViews(w: World, s: Server, crashed: seq<nat>, pos: Vec2)
    requires Sound(w) && Inv(w, s)
    ensures ViewAt(Step(s, Crash(crashed)), pos) ==
            if !Struck(s.svc.tree, crashed) then ViewAt(s, pos)
            else View(if Contains(w.bounds, pos) then Some(0) else None,
                      if RectsOverlap(w.bounds, MarginBox(pos, w.margin)) then [0] else [])
  {
    hide PrimaryAt, NearAt, ForceCollapse, Struck, Shaped, Unique, Numbered, Ids;
    CollapseAllOrNothing(s.svc.tree, crashed);
    if Struck(s.svc.tree, crashed) {
      RootViews(s.svc.tree.cell, s.pendingReady, s.svc.margin, pos);
    }
  }
}
