/** Runs together with the actions they emit: counting, crash rescues and the chain of authority changes. */
module SpatialRuns {
  import opened Geometry
  import opened Trees
  import opened TreeSurgery
  import opened Spatial
  import opened Merging
  import opened SpatialInvariant

  datatype Record = Record(event: Event, actions: seq<SpatialAction>)

  ghost function Events(run: seq<Record>): (r: seq<Event>)
    ensures |r| == |run|
  {
    seq(|run|, i requires 0 <= i < |run| => run[i].event)
  }

  /** The server state a run ends in. */
  ghost function End(w: World, run: seq<Record>): Server {
    if run == [] then Initial(w) else Step(End(w, run[..|run| - 1]), run[|run| - 1].event)
  }

  /** Every record lists actions its step may emit. */
  ghost predicate IsRun(w: World, run: seq<Record>) {
    run == [] || (IsRun(w, run[..|run| - 1])
        && Emits(End(w, run[..|run| - 1]), run[|run| - 1].event, run[|run| - 1].actions))
  }

  ghost predicate CrashFree(run: seq<Record>) {
    forall i :: 0 <= i < |run| ==> !run[i].event.Crash?
  }

  lemma {:induction false} EndIsReachable(w: World, run: seq<Record>)
    ensures End(w, run) == After(w, Events(run))
  {
    hide Step;
    if run != [] {
      var front := run[..|run| - 1];
      EndIsReachable(w, front);
      assert Events(run)[..|run| - 1] == Events(front);
    }
  }

  lemma {:induction false} EndInv(w: World, run: seq<Record>)
    requires Sound(w)
    ensures Inv(w, End(w, run))
  {
    EndIsReachable(w, run);
    ReachableInv(w, Events(run));
  }

  // ---------------------------------------------------------------- counting

  ghost function Ups(actions: seq<SpatialAction>): nat {
    if actions == [] then 0
    else Ups(actions[..|actions| - 1]) + if actions[|actions| - 1].ScaleUp? then 1 else 0
  }

  ghost function Downs(actions: seq<SpatialAction>): nat {
    if actions == [] then 0
    else Downs(actions[..|actions| - 1]) + if actions[|actions| - 1].ScaleDown? then 1 else 0
  }

  ghost function ScaleUps(run: seq<Record>): nat {
    if run == [] then 0 else ScaleUps(run[..|run| - 1]) + Ups(run[|run| - 1].actions)
  }

  ghost function ScaleDowns(run: seq<Record>): nat {
    if run == [] then 0 else ScaleDowns(run[..|run| - 1]) + Downs(run[|run| - 1].actions)
  }

  lemma {:induction false} NoneScale(actions: seq<SpatialAction>)
    requires forall a :: a in actions ==> !Scales(a)
    ensures Ups(actions) == 0 && Downs(actions) == 0
  {
    if actions != [] {
      NoneScale(actions[..|actions| - 1]);
      assert actions[|actions| - 1] in actions;
    }
  }

  lemma {:induction false} OneScale(actions: seq<SpatialAction>, a: SpatialAction)
    requires forall x :: x in actions ==> !Scales(x)
    ensures Ups(actions + [a]) == if a.ScaleUp? then 1 else 0
    ensures Downs(actions + [a]) == if a.ScaleDown? then 1 else 0
  {
    NoneScale(actions);
    assert (actions + [a])[..|actions + [a]| - 1] == actions;
  }

  lemma {:induction false} MovedFrame(s: Service, c: nat, pos: Vec2, ready: map<nat, nat>)
    ensures var m := Moved(s, c, pos, ready).service;
            m == s.(primary := m.primary, subscribed := m.subscribed)
  {
  }

  lemma {:induction false} PositionCounts(w: World, s: Server, c: nat, pos: Vec2)
    requires Sound(w) && Inv(w, s)
    ensures var t, a := OnPosition(s, c, pos), PositionUpdate(s.svc, c, pos, s.pendingReady).actions;
            && t.svc.nextId == s.svc.nextId + 4 * Ups(a)
            && Inner(t.svc.tree) == Inner(s.svc.tree) + Ups(a)
            && Downs(a) == 0
  {
    hide PrimaryAt, Moved, SplitLeaf, Inv, OnPosition, Book;
    var m := Moved(s.svc, c, pos, s.pendingReady);
    var p := PrimaryAt(s.svc.tree, s.pendingReady, pos);
    var u := ScaleCheck(m.service, p);
    assert m.service.tree == s.svc.tree && m.service.nextId
        == s.svc.nextId by { MovedFrame(s.svc, c, pos, s.pendingReady); }
    MovedShape(s.svc, c, pos, s.pendingReady);
    PositionInTwoParts(s, c, pos);
    NoneScale(m.actions);
    if u.actions == [] {
      assert m.actions + u.actions == m.actions;
    } else {
      assert u.actions == [u.actions[0]];
      OneScale(m.actions, u.actions[0]);
      SplitIds(s.svc.tree, p.value, s.svc.nextId);
      SplitInner(s.svc.tree, p.value, s.svc.nextId);
    }
  }

  lemma {:induction false} DisconnectCounts(w: World, s: Server, c: nat)
    requires Sound(w) && Inv(w, s)
    ensures var t, a := OnDisconnect(s, c), CheckMerges(Forget(s.svc, c)).actions;
            && t.svc.nextId == s.svc.nextId && Ups(a) == 0
            && Inner(t.svc.tree) == Inner(s.svc.tree) - Downs(a)
  {
    hide TryMerge, OnDisconnect;
    DisconnectForm(s, c);
    var f := Forget(s.svc, c);
    var a := CheckMerges(f).actions;
    var pop := Populations(f.primary);
    if TryMerge(f.tree, pop, MIN_POPULATION).Some? {
      MergeUndoesSplit(f.tree, pop, MIN_POPULATION);
      OneScale([], a[0]);
      assert a == [] + [a[0]];
    }
  }

  lemma {:induction false} CrashScalesNothing(s: Server, ids: seq<nat>, actions: seq<SpatialAction>)
    requires Emits(s, Crash(ids), actions)
    ensures Ups(actions) == 0 && Downs(actions) == 0
  {
    var order :| IsRescueOrder(s.svc, ids, order) && actions == RescueActions(s.svc, ids, order);
    NoneScale(actions);
  }

  /** The ids ever given out are exactly four per ScaleUp: fewer than 2^30 ScaleUps fit a 32-bit counter. */
  lemma {:induction false} NextIdCounts(w: World, run: seq<Record>)
    requires Sound(w) && IsRun(w, run)
    ensures End(w, run).svc.nextId == 1 + 4 * ScaleUps(run)
  {
    if run != [] {
      var front, last := run[..|run| - 1], run[|run| - 1];
      var s := End(w, front);
      NextIdCounts(w, front);
      EndInv(w, front);
      match last.event
      case Position(c, pos) => PositionCounts(w, s, c, pos);
      case Ready(k) => ReadyFrame(s, k);
      case Disconnect(c) => DisconnectCounts(w, s, c);
      case Crash(ids) => CrashScalesNothing(s, ids, last.actions);
    }
  }

  /** The interior nodes that the crashes of a run removed: all of them, whenever a crash strikes the tree. */
  ghost function Lost(w: World, run: seq<Record>): nat {
    if run == [] then 0
    else
      var s, e := End(w, run[..|run| - 1]), run[|run| - 1].event;
      Lost(w, run[..|run| - 1]) + if e.Crash? && Struck(s.svc.tree, e.crashed) then Inner(s.svc.tree) else 0
  }

  /** One record changes the interior nodes by its splits, its merge and what its crash destroys. */
  lemma {:induction false} RecordCounts(w: World, s: Server, r: Record)
    requires Sound(w) && Inv(w, s) && Emits(s, r.event, r.actions)
    ensures Inner(Step(s, r.event).svc.tree) == Inner(s.svc.tree) + Ups(r.actions) - Downs(r.actions)
                - if r.event.Crash? && Struck(s.svc.tree, r.event.crashed) then Inner(s.svc.tree) else 0
  {
    hide OnPosition, OnReady, OnDisconnect, ForceCollapse, Struck, PositionUpdate;
    match r.event
    case Position(c, pos) => PositionCounts(w, s, c, pos);
    case Ready(k) => ReadyFrame(s, k);
    case Disconnect(c) => DisconnectCounts(w, s, c);
    case Crash(ids) =>
      CrashScalesNothing(s, ids, r.actions);
      CollapseAllOrNothing(s.svc.tree, ids);
  }

  /** The interior nodes are the splits neither merged back nor lost in a crash; the leaves follow. */
  lemma {:induction false} InteriorCounts(w: World, run: seq<Record>)
    requires Sound(w) && IsRun(w, run)
    ensures var t, inner := End(w, run).svc.tree, ScaleUps(run) - ScaleDowns(run) - Lost(w, run);
            Inner(t) == inner && LeafCount(t) == 1 + 3 * inner
    ensures CrashFree(run) ==> Lost(w, run) == 0
  {
    hide Step, Emits;
    LeavesFromInner(End(w, run).svc.tree);
    if run != [] {
      var front, last := run[..|run| - 1], run[|run| - 1];
      var s := End(w, front);
      assert CrashFree(run) ==> CrashFree(front) && !last.event.Crash? by {
        assert forall i :: 0 <= i < |front| ==> front[i] == run[i];
      }
      InteriorCounts(w, front);
      EndInv(w, front);
      RecordCounts(w, s, last);
    }
  }

  /** Every run keeps the tree well formed inside the world it was started with. */
  lemma {:induction false} TreeAlwaysWellFormed(w: World, events: seq<Event>)
    requires Sound(w)
    ensures var s := After(w, events).svc;
            && Shaped(s.tree) && Unique(s.tree) && Numbered(s.tree)
            && s.tree.cell == Cell(w.bounds, 0, w.max) && s.tree.id == 0
            && (forall k :: k in Ids(s.tree) ==> k < s.nextId)
            && LeafCount(s.tree) == 1 + 3 * Inner(s.tree)
  {
    ReachableInv(w, events);
    LeavesFromInner(After(w, events).svc.tree);
  }

  // ---------------------------------------------------------------- merging to exhaustion

  /** `check_merges` repeated, with the clients where they are, until it does nothing. */
  ghost function MergeAll(s: Service): (r: Service)
    requires WellFormed(s.tree)
    decreases Inner(s.tree)
  {
    var t := CheckMerges(s);
    if t.actions == [] then s
    else
      MergeUndoesSplit(s.tree, Populations(s.primary), MIN_POPULATION);
      MergeAll(t.service)
  }

  ghost function MergeCount(s: Service): nat
    requires WellFormed(s.tree)
    decreases Inner(s.tree)
  {
    var t := CheckMerges(s);
    if t.actions == [] then 0
    else
      MergeUndoesSplit(s.tree, Populations(s.primary), MIN_POPULATION);
      1 + MergeCount(t.service)
  }

  /**
   * Repeating `check_merges` stops after at most as many merges as there are interior nodes, one
   * node each, and leaves two clients or more in every four sibling leaves.
   */
  lemma {:induction false} MergingExhausts(s: Service)
    requires WellFormed(s.tree)
    ensures var r := MergeAll(s);
            && Inner(r.tree) + MergeCount(s) == Inner(s.tree)
            && r.primary == s.primary && r.nextId == s.nextId && WellFormed(r.tree)
            && forall n :: n in PostOrder(r.tree) && FourLeaves(n) ==> |ClientsIn(s.primary, n)| >= 2
    decreases Inner(s.tree)
  {
    hide TryMerge, PostOrder, Shaped, Unique, Numbered, ClientsIn;
    var pop := Populations(s.primary);
    MergesExactly(s);
    if CheckMerges(s).actions != [] {
      MergeUndoesSplit(s.tree, pop, MIN_POPULATION);
      MergingExhausts(CheckMerges(s).service);
    }
  }

  // ---------------------------------------------------------------- crash rescues

  /** One change of authority, from one shard to another. */
  datatype Handover = Handover(src: nat, dst: nat)

  /** The AuthorityChanges of one client, in the order they are emitted. */
  ghost function Changes(actions: seq<SpatialAction>, c: nat): seq<Handover> {
    if actions == [] then []
    else
      var a := actions[|actions| - 1];
      Changes(actions[..|actions| - 1], c)
      + if a.AuthorityChange? && a.client == c then [Handover(a.oldShard, a.newShard)] else []
  }

  lemma {:induction false} NoChanges(actions: seq<SpatialAction>, c: nat)
    requires forall a :: a in actions ==> !(a.AuthorityChange? && a.client == c)
    ensures Changes(actions, c) == []
  {
    if actions != [] {
      NoChanges(actions[..|actions| - 1], c);
      assert actions[|actions| - 1] in actions;
    }
  }

  lemma {:induction false} ChangesAppend(a: seq<SpatialAction>, b: seq<SpatialAction>, c: nat)
    ensures Changes(a + b, c) == Changes(a, c) + Changes(b, c)
  {
    if b == [] {
      assert a + b == a;
    } else {
      ChangesAppend(a, b[..|b| - 1], c);
      assert (a + b)[..|a + b| - 1] == a + b[..|b| - 1];
    }
  }

  lemma {:induction false} RescueChanges(s: Service, crashed: seq<nat>, order: seq<nat>, c: nat)
    requires forall k :: k in order ==> k in s.primary && s.primary[k] in crashed
    requires forall i, j :: 0 <= i < j < |order| ==> order[i] != order[j]
    ensures Changes(RescueActions(s, crashed, order), c) == if c in order then [Handover(s.primary[c], 0)] else []
  {
    if order != [] {
      var front, k := order[..|order| - 1], order[|order| - 1];
      assert forall x :: x in order <==> x in front || x == k;
      RescueChanges(s, crashed, front, c);
      var all := RescueActions(s, crashed, order);
      assert all[..|all| - 1] == RescueActions(s, crashed, front);
      RescueLookupFails(s.tree, crashed, s.primary[k]);
    }
  }

  lemma {:induction false} RootIsZero(w: World, s: Server)
    requires Inv(w, s)
    ensures s.svc.tree.id == 0
  {
  }

  /**
   * A crash emits exactly one AuthorityChange per client whose primary crashed, always to shard 0,
   * and leaves nobody in a crashed shard other than shard 0. The tree collapses to its root exactly
   * when a shard below the root crashed. Exactly the reported shards lose their locks.
   */
  lemma {:induction false} CrashRescuesAll(w: World, s: Server, crashed: seq<nat>, actions: seq<SpatialAction>, c: nat)
    requires Inv(w, s) && Emits(s, Crash(crashed), actions)
    ensures var t := Step(s, Crash(crashed)).svc;
            && Changes(actions, c) == (if c in s.svc.primary && s.svc.primary[c] in crashed
                then [Handover(s.svc.primary[c], 0)] else [])
            && (forall a :: a in actions ==> a.AuthorityChange?)
            && (c in t.primary <==> c in s.svc.primary)
            && (c in t.primary ==> t.primary[c] == if s.svc.primary[c] in crashed then 0 else s.svc.primary[c])
            && (c in t.primary && t.primary[c] in crashed ==> t.primary[c] == 0)
            && t.tree == (if Struck(s.svc.tree, crashed) then Leaf(s.svc.tree.cell, 0) else s.svc.tree)
            && t.subscribed == s.svc.subscribed && t.nextId == s.svc.nextId
            && forall p :: && (p in t.splits <==> p in s.svc.splits && p !in crashed)
                           && (p in t.merges <==> p in s.svc.merges && p !in crashed)
  {
    hide Inv, ForceCollapse, FindParentOf;
    var order :| IsRescueOrder(s.svc, crashed, order) && actions == RescueActions(s.svc, crashed, order);
    RescueChanges(s.svc, crashed, order, c);
    CollapseAllOrNothing(s.svc.tree, crashed);
    RootIsZero(w, s);
    if c in s.svc.primary && s.svc.primary[c] in crashed {
      RescueLookupFails(s.svc.tree, crashed, s.svc.primary[c]);
    }
  }

  // ---------------------------------------------------------------- the chain of authority

  /** The AuthorityChanges of client `c` since it last disconnected. */
  ghost function Handovers(run: seq<Record>, c: nat): seq<Handover> {
    if run == [] then []
    else
      var last := run[|run| - 1];
      if last.event == Disconnect(c) then [] else Handovers(run[..|run| - 1], c) + Changes(last.actions, c)
  }

  /** Each change starts where the previous one ended; the first starts at shard 0. */
  ghost predicate Contiguous(l: seq<Handover>) {
    && (l != [] ==> l[0].src == 0)
    && (forall i, j :: 0 <= i && j == i + 1 < |l| ==> l[j].src == l[i].dst)
  }

  ghost predicate ChainMatches(l: seq<Handover>, primary: map<nat, nat>, c: nat) {
    && Contiguous(l)
    && (c in primary <==> l != [])
    && (c in primary ==> primary[c] == l[|l| - 1].dst)
  }

  lemma {:induction false} PlacedByUpdate(s: Server, c: nat, pos: Vec2)
    ensures OnPosition(s, c, pos).svc.primary == Placed(s.svc, c, PrimaryAt(s.svc.tree, s.pendingReady, pos))
  {
    hide PrimaryAt, NearAt, OnPosition, ScaleStep, SplitLeaf, Await;
    PositionInTwoParts(s, c, pos);
    ScaleCases(s.(svc := Moved(s.svc, c, pos, s.pendingReady).service), PrimaryAt(s.svc.tree, s.pendingReady, pos));
  }

  lemma {:induction false} PositionChanges(s: Server, c: nat, pos: Vec2, x: nat)
    ensures var u := PositionUpdate(s.svc, c, pos, s.pendingReady);
            && Changes(u.actions, x) == (if x == c then Changes(AuthorityActions(s.svc, c,
                PrimaryAt(s.svc.tree, s.pendingReady, pos)), c) else [])
            && OnPosition(s, c, pos).svc.primary == Placed(s.svc, c, PrimaryAt(s.svc.tree, s.pendingReady, pos))
  {
    hide PrimaryAt, NearAt, SplitLeaf, OnPosition, ScaleCheck, ScaleStep, Changes, SubscribeActions,
      UnsubscribeActions, SplitsTo;
    var p, near := PrimaryAt(s.svc.tree, s.pendingReady, pos), NearAt(s.svc.tree, s.pendingReady, s.svc.margin, pos);
    var m := Moved(s.svc, c, pos, s.pendingReady);
    var a, b, d, e := AuthorityActions(s.svc, c, p), SubscribeActions(c, near, Current(s.svc, c)),
                      UnsubscribeActions(c, Current(s.svc, c), near), AlertActions(c, near);
    var f := ScaleCheck(m.service, p).actions;
    ScaleActions(m.service, p);
    PlacedByUpdate(s, c, pos);
    SubscribeShape(c, near, Current(s.svc, c));
    UnsubscribeShape(c, Current(s.svc, c), near);
    NoChanges(b, x);
    NoChanges(d, x);
    NoChanges(e, x);
    NoChanges(f, x);
    ChangesAppend(a, b, x);
    ChangesAppend(a + b, d, x);
    ChangesAppend(a + b + d, e, x);
    ChangesAppend(m.actions, f, x);
    if x != c {
      NoChanges(a, x);
    }
  }

  lemma {:induction false} ChainExtends(l: seq<Handover>, before: map<nat, nat>, after: map<nat, nat>, c: nat, n: nat)
    requires ChainMatches(l, before, c) && c in after && after[c] == n
    ensures ChainMatches(l + [Handover(if c in before then before[c] else 0, n)], after, c)
  {
    var all := l + [Handover(if c in before then before[c] else 0, n)];
    forall i, j | 0 <= i && j == i + 1 < |all| ensures all[j].src == all[i].dst {
      assert all[i] == l[i];
      if j < |l| {
        assert all[j] == l[j];
      }
    }
  }

  lemma {:induction false} PositionChain(s: Server, c: nat, pos: Vec2, x: nat, l: seq<Handover>)
    requires ChainMatches(l, s.svc.primary, x)
    ensures ChainMatches(l + Changes(PositionUpdate(s.svc, c, pos, s.pendingReady).actions, x),
        OnPosition(s, c, pos).svc.primary, x)
  {
    hide PrimaryAt, OnPosition, PositionUpdate;
    PositionChanges(s, c, pos, x);
    var p := PrimaryAt(s.svc.tree, s.pendingReady, pos);
    var a := AuthorityActions(s.svc, c, p);
    if x == c && a != [] {
      assert a[..|a| - 1] == [] && a[|a| - 1] == a[0];
      assert Changes(a, c) == [Handover(a[0].oldShard, p.value)];
      ChainExtends(l, s.svc.primary, OnPosition(s, c, pos).svc.primary, c, p.value);
    } else {
      assert l + [] == l;
    }
  }

  lemma {:induction false} DisconnectChain(s: Server, x: nat, c: nat)
    ensures Changes(CheckMerges(Forget(s.svc, x)).actions, c) == []
    ensures OnDisconnect(s, x).svc.primary == s.svc.primary - {x}
  {
    hide TryMerge;
    DisconnectForm(s, x);
    NoChanges(CheckMerges(Forget(s.svc, x)).actions, c);
  }

  lemma {:induction false} EmptyChain(w: World, c: nat)
    ensures ChainMatches([], End(w, []).svc.primary, c)
  {
  }

  lemma {:induction false} ChainStep(w: World, s: Server, r: Record, c: nat, l: seq<Handover>)
    requires Inv(w, s) && Emits(s, r.event, r.actions) && ChainMatches(l, s.svc.primary, c)
    ensures ChainMatches(if r.event == Disconnect(c) then [] else l + Changes(r.actions, c),
        Step(s, r.event).svc.primary, c)
  {
    hide OnPosition, OnReady, OnDisconnect, PositionUpdate, ForceCollapse, Inv;
    assert l + [] == l;
    match r.event
    case Position(x, pos) => PositionChain(s, x, pos, c, l);
    case Ready(k) => ReadyFrame(s, k);
    case Disconnect(x) => DisconnectChain(s, x, c);
    case Crash(ids) =>
      CrashRescuesAll(w, s, ids, r.actions, c);
      if c in s.svc.primary && s.svc.primary[c] in ids {
        ChainExtends(l, s.svc.primary, Step(s, r.event).svc.primary, c, 0);
      }
  }

  /**
   * Over any run, the AuthorityChanges a client receives form a contiguous chain from shard 0 (after
   * a disconnect, again from 0) that ends at the shard the server has on record for it.
   */
  lemma {:induction false} AuthorityChain(w: World, run: seq<Record>, c: nat)
    requires Sound(w) && IsRun(w, run)
    ensures ChainMatches(Handovers(run, c), End(w, run).svc.primary, c)
  {
    hide Step, Emits, Inv, ChainMatches, Changes;
    if run == [] {
      EmptyChain(w, c);
    } else {
      var front, last := run[..|run| - 1], run[|run| - 1];
      AuthorityChain(w, front, c);
      EndInv(w, front);
      ChainStep(w, End(w, front), last, c, Handovers(front, c));
    }
  }
}
