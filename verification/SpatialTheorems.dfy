/** Repeated position updates are stable, splits happen exactly when they should, Ready signals commute. */
module SpatialTheorems {
  import opened Geometry
  import opened Options
  import opened Trees
  import opened TreeSearch
  import opened TreeSurgery
  import opened Spatial
  import opened SpatialInvariant
  import opened SplitTransparency

  // ---------------------------------------------------------------- the same update twice

  lemma {:induction false} NothingToSubscribe(c: nat, near: seq<nat>, current: seq<nat>)
    requires forall k :: k in near ==> k in current
    ensures SubscribeActions(c, near, current) == [] && UnsubscribeActions(c, near, current) == []
  {
    if near != [] {
      NothingToSubscribe(c, near[..|near| - 1], current);
      assert near[|near| - 1] in near;
    }
  }

  lemma {:induction false} ScaleStepSettles(s: Server, p: Option<nat>)
    ensures ScaleCheck(ScaleStep(s, p).svc, p) == Update(ScaleStep(s, p).svc, [])
    ensures var t := ScaleStep(s, p).svc; t == s.svc.(tree := t.tree, nextId := t.nextId, splits := t.splits)
  {
    hide SplitLeaf;
  }

  /** The client is placed where it stands and follows exactly the shards nearby. */
  ghost predicate InPlace(s: Service, c: nat, p: Option<nat>, near: seq<nat>) {
    (p.Some? ==> c in s.primary && s.primary[c] == p.value) && c in s.subscribed && s.subscribed[c] == near
  }

  lemma {:induction false} MovedOnce(s: Service, c: nat, pos: Vec2, ready: map<nat, nat>)
    ensures InPlace(Moved(s, c, pos, ready).service, c, PrimaryAt(s.tree, ready, pos),
        NearAt(s.tree, ready, s.margin, pos))
    ensures Moved(s, c, pos, ready).service.margin == s.margin
  {
    hide PrimaryAt, NearAt;
  }

  lemma {:induction false} MovedAgain(s: Service, c: nat, pos: Vec2, ready: map<nat, nat>)
    requires InPlace(s, c, PrimaryAt(s.tree, ready, pos), NearAt(s.tree, ready, s.margin, pos))
    ensures Moved(s, c, pos, ready) == Update(s, AlertActions(c, NearAt(s.tree, ready, s.margin, pos)))
  {
    hide PrimaryAt, NearAt;
    var p, near := PrimaryAt(s.tree, ready, pos), NearAt(s.tree, ready, s.margin, pos);
    NothingToSubscribe(c, near, near);
    assert Placed(s, c, p) == s.primary;
    assert s.subscribed[c := near] == s.subscribed;
  }

  lemma {:induction false} NothingToScale(s: Server, p: Option<nat>)
    requires ScaleCheck(s.svc, p) == Update(s.svc, [])
    ensures ScaleStep(s, p) == s
  {
    hide ScaleCheck;
  }

  /** Every comparison of the position, or of the box around it, with the bounds of the world fails. */
  ghost predicate OutOfSight(w: World, pos: Vec2) {
    !RectsOverlap(w.bounds, MarginBox(pos, w.margin))
  }

  lemma {:induction false} NobodyNear(s: Server, pos: Vec2)
    requires PrimaryAt(s.svc.tree, s.pendingReady, pos).None?
    requires !RectsOverlap(s.svc.tree.cell.bounds, MarginBox(pos, s.svc.margin))
    ensures NearAt(s.svc.tree, s.pendingReady, s.svc.margin, pos) == []
  {
    hide PrimaryAt;
    assert ShardsNear(s.svc.tree, pos, s.svc.margin) == [];
    assert InterceptAll(s.pendingReady, []) == [];
  }

  /**
   * All positions out of sight are treated alike: the client keeps its primary shard and is unsubscribed
   * from everything. A coordinate that is infinite or not a number fails every comparison, like a finite
   * one out of sight.
   */
  lemma {:induction false} OutOfSightAlike(w: World, s: Server, c: nat, pos: Vec2)
    requires Sound(w) && Inv(w, s) && OutOfSight(w, pos)
    ensures OnPosition(s, c, pos) == s.(svc := s.svc.(subscribed := s.svc.subscribed[c := []]))
    ensures PositionUpdate(s.svc, c, pos, s.pendingReady).actions == UnsubscribeActions(c, Current(s.svc, c), [])
  {
    hide NearAt, OnPosition, Shaped, Unique, Numbered, ReadyInv, ClientInv, GroupInv;
    ShardForDefined(s.svc.tree, pos);
    NobodyNear(s, pos);
    PositionInTwoParts(s, c, pos);
    ScaleCases(s.(svc := Moved(s.svc, c, pos, s.pendingReady).service), None);
  }

  /**
   * A repeated position update is stable from every state that satisfies the invariant: it changes
   * nothing and emits at most a CrossingAlert, even when the first one split the client's shard.
   */
  lemma {:induction false} SamePositionTwice(w: World, s: Server, c: nat, pos: Vec2)
    requires Sound(w) && Inv(w, s)
    ensures var t := OnPosition(s, c, pos);
            && OnPosition(t, c, pos) == t
            && PositionUpdate(t.svc, c, pos, t.pendingReady).actions == AlertActions(c, ViewAt(s, pos).near)
  {
    hide PrimaryAt, NearAt, OnPosition, ScaleCheck, ScaleStep, Inv, Moved;
    var t := OnPosition(s, c, pos);
    var p := PrimaryAt(s.svc.tree, s.pendingReady, pos);
    var m := s.(svc := Moved(s.svc, c, pos, s.pendingReady).service);
    PositionInTwoParts(s, c, pos);
    PositionKeepsViews(w, s, c, pos, pos);
    MovedOnce(s.svc, c, pos, s.pendingReady);
    ScaleStepSettles(m, p);
    MovedAgain(t.svc, c, pos, t.pendingReady);
    PositionInTwoParts(t, c, pos);
    NothingToScale(t, p);
  }

  // ---------------------------------------------------------------- when a shard is split

  /**
   * A position update asks for new servers exactly when the client's shard is unlocked, now has more
   * than two clients, and is a leaf above the maximum depth; the servers get the next four ids.
   */
  lemma {:induction false} ScaleUpExactly(s: Server, c: nat, pos: Vec2, p: nat, ids: seq<nat>)
    ensures ScaleUp(p, ids) in PositionUpdate(s.svc, c, pos, s.pendingReady).actions <==>
            && PrimaryAt(s.svc.tree, s.pendingReady, pos) == Some(p) && p !in s.svc.splits && p !in s.svc.merges
            && |{c} + (set d | d in s.svc.primary && s.svc.primary[d] == p)| > 2
            && (exists l :: l in Leaves(s.svc.tree) && l.id == p && l.cell.depth < l.cell.max)
            && ids == [s.svc.nextId, s.svc.nextId + 1, s.svc.nextId + 2, s.svc.nextId + 3]
  {
    hide PrimaryAt, NearAt, SplitLeaf, Leaves;
    assert ClientsAt(Placed(s.svc, c, Some(p)), p) == {c} + (set d | d in s.svc.primary && s.svc.primary[d] == p);
    hide ClientsAt;
    MovedShape(s.svc, c, pos, s.pendingReady);
    SplitDefined(s.svc.tree, p, s.svc.nextId);
    var m := Moved(s.svc, c, pos, s.pendingReady);
    assert m.service.tree == s.svc.tree && m.service.nextId == s.svc.nextId;
    assert m.service.splits == s.svc.splits && m.service.merges == s.svc.merges;
    hide Moved;
  }

  // ---------------------------------------------------------------- Ready signals

  lemma {:induction false} WithoutSnoc(l: seq<nat>, x: nat, y: nat)
    ensures Without(l + [x], y) == Without(l, y) + if x == y then [] else [x]
  {
    assert (l + [x])[..|l + [x]| - 1] == l;
  }

  lemma {:induction false} WithoutStep(front: seq<nat>, x: nat, a: nat, b: nat)
    ensures Without(Without(front + [x], a), b) == Without(Without(front, a), b) + if x == a || x == b then [] else [x]
  {
    WithoutSnoc(front, x, a);
    WithoutSnoc(Without(front, a), x, b);
    assert forall r: seq<nat> :: r + [] == r;
  }

  lemma {:induction false} WithoutTwice(l: seq<nat>, a: nat, b: nat)
    ensures Without(Without(l, a), b) == Without(Without(l, b), a)
  {
    if l != [] {
      var front, x := l[..|l| - 1], l[|l| - 1];
      assert l == front + [x];
      WithoutTwice(front, a, b);
      WithoutStep(front, x, a, b);
      WithoutStep(front, x, b, a);
    }
  }

  lemma {:induction false} WithoutAbsent(l: seq<nat>, a: nat)
    requires a !in l
    ensures Without(l, a) == l
  {
    if l != [] {
      WithoutAbsent(l[..|l| - 1], a);
    }
  }

  /** A Ready that nobody waits for any more changes nothing, so a duplicate is harmless. */
  lemma {:induction false} ReadyIdempotent(s: Server, a: nat)
    ensures OnReady(OnReady(s, a), a) == OnReady(s, a)
  {
    hide Without, Unlock;
  }

  /** The waiting lists after `k` reported to `p`. */
  ghost function Crossed(groups: map<nat, seq<nat>>, p: nat, k: nat): map<nat, seq<nat>> {
    if p !in groups then groups
    else if Without(groups[p], k) == [] then groups - {p} else groups[p := Without(groups[p], k)]
  }

  /** `k` is the last one that `p` waits for. */
  ghost predicate LastOf(groups: map<nat, seq<nat>>, p: nat, k: nat) {
    p in groups && Without(groups[p], k) == []
  }

  lemma {:induction false} ReadyParts(s: Server, k: nat)
    requires k in s.pendingReady
    ensures var p := s.pendingReady[k];
            OnReady(s, k) == Server(if LastOf(s.parentToChildren, p, k) then Unlock(s.svc, p) else s.svc,
                                    s.pendingReady - {k}, Crossed(s.parentToChildren, p, k))
  {
    hide Without, Unlock;
  }

  lemma {:induction false} CrossedApart(groups: map<nat, seq<nat>>, p: nat, a: nat, q: nat, b: nat)
    requires p != q
    ensures LastOf(Crossed(groups, p, a), q, b) <==> LastOf(groups, q, b)
    ensures Crossed(Crossed(groups, p, a), q, b) == Crossed(Crossed(groups, q, b), p, a)
  {
    hide Without;
    var g := Crossed(groups, p, a);
    assert q in g <==> q in groups;
    assert q in g ==> g[q] == groups[q];
  }

  lemma {:induction false} UnlockCommutes(s: Service, p: nat, q: nat)
    requires p != q
    ensures Unlock(Unlock(s, p), q) == Unlock(Unlock(s, q), p)
  {
    assert s.merges - {p} - {q} == s.merges - {q} - {p} && s.splits - {p} - {q} == s.splits - {q} - {p};
  }

  /** Two Ready signals for children of different parents do not touch each other. */
  lemma {:induction false} ReadyCommuteApart(s: Server, a: nat, b: nat)
    requires a in s.pendingReady && b in s.pendingReady && s.pendingReady[a] != s.pendingReady[b]
    ensures OnReady(OnReady(s, a), b) == OnReady(OnReady(s, b), a)
  {
    hide Crossed, LastOf, Unlock, OnReady;
    var p, q := s.pendingReady[a], s.pendingReady[b];
    ReadyParts(s, a);
    ReadyParts(s, b);
    ReadyParts(OnReady(s, a), b);
    ReadyParts(OnReady(s, b), a);
    CrossedApart(s.parentToChildren, p, a, q, b);
    CrossedApart(s.parentToChildren, q, b, p, a);
    UnlockCommutes(s.svc, p, q);
    assert s.pendingReady - {a} - {b} == s.pendingReady - {b} - {a};
  }

  /** When `a` is the last member of its group, a stale `b` makes no difference before or after it. */
  lemma {:induction false} EmptyFirst(s: Server, a: nat, b: nat)
    requires a != b && a in s.pendingReady && b in s.pendingReady && s.pendingReady[a] == s.pendingReady[b]
    requires var p := s.pendingReady[a];
             p in s.parentToChildren && s.parentToChildren[p] != [] && Without(s.parentToChildren[p], a) == []
    ensures OnReady(OnReady(s, a), b) == OnReady(OnReady(s, b), a)
  {
    hide Unlock, Without;
    var p := s.pendingReady[a];
    var l := s.parentToChildren[p];
    assert b in l ==> b in Without(l, a);
    WithoutAbsent(l, b);
    assert s.pendingReady - {a} - {b} == s.pendingReady - {b} - {a};
    assert s.parentToChildren[p := l] == s.parentToChildren;
  }

  lemma {:induction false} ReadyCommuteTogether(s: Server, a: nat, b: nat)
    requires GroupInv(s.pendingReady, s.parentToChildren) && a != b
    requires a in s.pendingReady && b in s.pendingReady && s.pendingReady[a] == s.pendingReady[b]
    ensures OnReady(OnReady(s, a), b) == OnReady(OnReady(s, b), a)
  {
    hide Unlock, Without;
    var p := s.pendingReady[a];
    assert s.pendingReady - {a} - {b} == s.pendingReady - {b} - {a};
    if p in s.parentToChildren {
      var l := s.parentToChildren[p];
      WithoutTwice(l, a, b);
      if Without(l, a) == [] {
        EmptyFirst(s, a, b);
      } else if Without(l, b) == [] {
        EmptyFirst(s, b, a);
      } else {
        var x, y := s.parentToChildren[p := Without(l, a)], s.parentToChildren[p := Without(l, b)];
        assert x - {p} == y - {p};
      }
    }
  }

  lemma {:induction false} ReadyCommuteInv(w: World, s: Server, a: nat, b: nat)
    requires Inv(w, s)
    ensures OnReady(OnReady(s, a), b) == OnReady(OnReady(s, b), a)
  {
    hide TreeInv, ReadyInv, ClientInv, GroupInv, Unlock, Without;
    if a != b && a in s.pendingReady && b in s.pendingReady {
      if s.pendingReady[a] == s.pendingReady[b] {
        ReadyCommuteTogether(s, a, b);
      } else {
        ReadyCommuteApart(s, a, b);
      }
    }
  }

  lemma {:induction false} AfterTwo(w: World, events: seq<Event>, a: Event, b: Event)
    ensures After(w, events + [a]) == Step(After(w, events), a)
    ensures After(w, events + [a, b]) == Step(Step(After(w, events), a), b)
  {
    hide Step;
    var one, two := events + [a], events + [a, b];
    assert one[..|one| - 1] == events && two[..|two| - 1] == one;
  }

  /** In every reachable state Ready signals commute, whatever shards send them. */
  lemma {:induction false} ReadyCommutes(w: World, events: seq<Event>, a: nat, b: nat)
    requires Sound(w)
    ensures After(w, events + [Ready(a), Ready(b)]) == After(w, events + [Ready(b), Ready(a)])
    ensures After(w, events + [Ready(a), Ready(a)]) == After(w, events + [Ready(a)])
  {
    hide OnReady, Inv;
    var s := After(w, events);
    ReachableInv(w, events);
    AfterTwo(w, events, Ready(a), Ready(b));
    AfterTwo(w, events, Ready(b), Ready(a));
    AfterTwo(w, events, Ready(a), Ready(a));
    ReadyIdempotent(s, a);
    ReadyCommuteInv(w, s, a, b);
  }
}
