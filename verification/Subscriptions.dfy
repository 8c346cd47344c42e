/** The spatial server and the broker side by side: their two records of who listens to which shard. */
module Subscriptions {
  import opened Geometry
  import opened Options
  import opened SortedIds
  import opened Trees
  import opened Wire
  import opened Spatial
  import opened SpatialInvariant
  import opened SpatialPackets
  import B = BrokerModel

  // ---------------------------------------------------------------- relaying

  /** The broker receives the packets of a list of actions, in order. */
  function Relay(t: B.Tables, actions: seq<SpatialAction>, src: B.Addr): B.Tables {
    if actions == [] then t
    else B.Next(Relay(t, actions[..|actions| - 1], src), B.Parse(EncodeAction(actions[|actions| - 1])), src)
  }

  lemma {:induction false} RelayAppend(t: B.Tables, a: seq<SpatialAction>, b: seq<SpatialAction>, src: B.Addr)
    ensures Relay(t, a + b, src) == Relay(Relay(t, a, src), b, src)
  {
    hide B.Next, B.Parse;
    if b == [] {
      assert a + b == a;
    } else {
      assert (a + b)[..|a + b| - 1] == a + b[..|b| - 1];
      RelayAppend(t, a, b[..|b| - 1], src);
    }
  }

  /** Only subscriptions change the broker's tables; every other action passes through it. */
  lemma {:induction false} ActionKind(a: SpatialAction)
    ensures var m := B.Parse(EncodeAction(a));
            && (m.Subscribe? ==> a.Subscribe?) && (m.Unsubscribe? ==> a.Unsubscribe?)
            && (m.Subscribe? || m.Unsubscribe? || m.Alert? || m.Authority? || m.RouteToTopic? || m.Ignored?)
  {
    hide LE32, FromLE32, Word, EncodeIds;
  }

  lemma {:induction false} RelayNothing(t: B.Tables, actions: seq<SpatialAction>, src: B.Addr)
    requires forall a :: a in actions ==> !a.Subscribe? && !a.Unsubscribe?
    ensures Relay(t, actions, src) == t
  {
    hide B.Parse, EncodeAction;
    if actions != [] {
      RelayNothing(t, actions[..|actions| - 1], src);
      assert actions[|actions| - 1] in actions;
      ActionKind(actions[|actions| - 1]);
    }
  }

  /** Relaying never adds a route or changes the server behind one. */
  lemma {:induction false} RelayKeepsAuthorities(t: B.Tables, actions: seq<SpatialAction>, src: B.Addr)
    ensures var u := Relay(t, actions, src);
            u.routes.Keys == t.routes.Keys && u.addresses == t.addresses
            && forall topic :: topic in t.routes ==> u.routes[topic].authority == t.routes[topic].authority
  {
    hide B.Parse, EncodeAction;
    if actions != [] {
      RelayKeepsAuthorities(t, actions[..|actions| - 1], src);
      ActionKind(actions[|actions| - 1]);
    }
  }

  // ---------------------------------------------------------------- one position update

  ghost function TopicSet(ids: set<nat>): set<Bytes> {
    set n | n in ids :: ShardTopic(n)
  }

  /** What one relayed subscription, or its withdrawal, does to the topics of each client. */
  lemma {:induction false} RelayOne(t: B.Tables, c: ClientId, topic: Bytes, src: B.Addr)
    requires |topic| == TOPIC_LEN
    ensures var u := B.Next(t, B.Parse(EncodeAction(Subscribe(c, topic))), src);
            B.TopicsOf(u, c) == B.TopicsOf(t, c) + {topic}
                && forall d :: d != c ==> B.TopicsOf(u, d) == B.TopicsOf(t, d)
    ensures var u := B.Next(t, B.Parse(EncodeAction(Unsubscribe(c, topic))), src);
            B.TopicsOf(u, c) == B.TopicsOf(t, c) - {topic}
                && forall d :: d != c ==> B.TopicsOf(u, d) == B.TopicsOf(t, d)
  {
    hide B.Parse, EncodeAction;
    ActionReads(Subscribe(c, topic));
    ActionReads(Unsubscribe(c, topic));
  }

  ghost function Gained(near: seq<nat>, current: seq<nat>): set<nat> {
    set n | n in near && n !in current
  }

  lemma {:induction false} GainedSnoc(front: seq<nat>, n: nat, current: seq<nat>)
    ensures TopicSet(Gained(front + [n], current)) == TopicSet(Gained(front, current)) + if n in current then {}
        else {ShardTopic(n)}
  {
    hide ShardTopic;
    assert Gained(front + [n], current) == Gained(front, current) + if n in current then {} else {n};
  }

  lemma {:induction false} RelaySnoc(t: B.Tables, actions: seq<SpatialAction>, a: SpatialAction, src: B.Addr)
    ensures Relay(t, actions + [a], src) == B.Next(Relay(t, actions, src), B.Parse(EncodeAction(a)), src)
  {
    assert (actions + [a])[..|actions + [a]| - 1] == actions;
  }

  lemma {:induction false} SubscribeSnoc(c: nat, front: seq<nat>, n: nat, current: seq<nat>)
    ensures SubscribeActions(c, front + [n], current)
         == SubscribeActions(c, front, current) + if n in current then [] else [Subscribe(c, ShardTopic(n))]
    ensures UnsubscribeActions(c, front + [n], current)
         == UnsubscribeActions(c, front, current) + if n in current then [] else [Unsubscribe(c, ShardTopic(n))]
  {
    assert (front + [n])[..|front + [n]| - 1] == front;
  }

  /** Relaying the Subscribes adds exactly the topics of the new shards, to that client alone. */
  lemma {:induction false} RelaySubscribes(t: B.Tables, c: ClientId, near: seq<nat>, current: seq<nat>, src: B.Addr)
    ensures var u := Relay(t, SubscribeActions(c, near, current), src);
            && B.TopicsOf(u, c) == B.TopicsOf(t, c) + TopicSet(Gained(near, current))
            && forall d :: d != c ==> B.TopicsOf(u, d) == B.TopicsOf(t, d)
  {
    if near == [] {
      assert TopicSet(Gained(near, current)) == {};
    } else {
      hide B.Parse, B.Next, B.TopicsOf, EncodeAction, ShardTopic, Relay, SubscribeActions, TopicSet, Gained;
      var front, n := near[..|near| - 1], near[|near| - 1];
      assert near == front + [n];
      RelaySubscribes(t, c, front, current, src);
      GainedSnoc(front, n, current);
      SubscribeSnoc(c, front, n, current);
      var before := SubscribeActions(c, front, current);
      if n in current {
        assert before + [] == before;
      } else {
        RelaySnoc(t, before, Subscribe(c, ShardTopic(n)), src);
        RelayOne(Relay(t, before, src), c, ShardTopic(n), src);
      }
    }
  }

  lemma {:induction false} MinusOne<T>(s: set<T>, gone: set<T>, x: T)
    ensures s - gone - {x} == s - (gone + {x})
  {
  }

  /** Relaying the Unsubscribes removes exactly the topics of the shards left behind. */
  lemma {:induction false} RelayUnsubscribes(t: B.Tables, c: ClientId, current: seq<nat>, near: seq<nat>, src: B.Addr)
    ensures var u := Relay(t, UnsubscribeActions(c, current, near), src);
            && B.TopicsOf(u, c) == B.TopicsOf(t, c) - TopicSet(Gained(current, near))
            && forall d :: d != c ==> B.TopicsOf(u, d) == B.TopicsOf(t, d)
  {
    if current == [] {
      assert TopicSet(Gained(current, near)) == {};
    } else {
      hide B.Parse, B.Next, B.TopicsOf, EncodeAction, ShardTopic, Relay, UnsubscribeActions, TopicSet, Gained;
      var front, n := current[..|current| - 1], current[|current| - 1];
      assert current == front + [n];
      RelayUnsubscribes(t, c, front, near, src);
      GainedSnoc(front, n, near);
      SubscribeSnoc(c, front, n, near);
      var before := UnsubscribeActions(c, front, near);
      if n in near {
        assert before + [] == before;
      } else {
        RelaySnoc(t, before, Unsubscribe(c, ShardTopic(n)), src);
        RelayOne(Relay(t, before, src), c, ShardTopic(n), src);
        MinusOne(B.TopicsOf(t, c), TopicSet(Gained(front, near)), ShardTopic(n));
      }
    }
  }

  /** The broker and the spatial server agree on the shards `c` listens to. */
  ghost predicate Synced(t: B.Tables, s: Service, c: ClientId) {
    forall n :: 0 <= n < U32 ==> (ShardTopic(n) in B.TopicsOf(t, c) <==> n in Current(s, c))
  }

  lemma {:induction false} ScaleSilent(s: Service, p: Option<nat>)
    ensures forall a :: a in ScaleCheck(s, p).actions ==> !a.Subscribe? && !a.Unsubscribe?
  {
  }

  /** What relaying one position update does to the topics of each client. */
  lemma {:induction false} UpdateTopics(s: Server, t: B.Tables, c: ClientId, pos: Vec2, src: B.Addr)
    ensures var u := Relay(t, PositionUpdate(s.svc, c, pos, s.pendingReady).actions, src);
            var near, current := NearAt(s.svc.tree, s.pendingReady, s.svc.margin, pos), Current(s.svc, c);
            && B.TopicsOf(u, c) == B.TopicsOf(t, c) + TopicSet(Gained(near, current)) - TopicSet(Gained(current, near))
            && forall d: ClientId :: d != c ==> B.TopicsOf(u, d) == B.TopicsOf(t, d)
  {
    hide PrimaryAt, NearAt, ScaleCheck, ShardTopic, Relay, SubscribeActions, UnsubscribeActions, TopicSet, Gained;
    var p, near := PrimaryAt(s.svc.tree, s.pendingReady, pos), NearAt(s.svc.tree, s.pendingReady, s.svc.margin, pos);
    var current := Current(s.svc, c);
    var m := Moved(s.svc, c, pos, s.pendingReady);
    var a, b := AuthorityActions(s.svc, c, p), SubscribeActions(c, near, current);
    var d, e := UnsubscribeActions(c, current, near), AlertActions(c, near);
    var f := ScaleCheck(m.service, p).actions;
    ScaleSilent(m.service, p);
    RelayAppend(t, a, b, src);
    RelayAppend(t, a + b, d, src);
    RelayAppend(t, a + b + d, e, src);
    RelayAppend(t, m.actions, f, src);
    RelayNothing(t, a, src);
    var x := Relay(t, b, src);
    var y := Relay(x, d, src);
    RelayNothing(y, e, src);
    RelayNothing(y, f, src);
    RelaySubscribes(t, c, near, current, src);
    RelayUnsubscribes(x, c, current, near, src);
  }

  lemma {:induction false} IdsFit(w: World, s: Server, c: ClientId, pos: Vec2)
    requires Inv(w, s) && s.svc.nextId <= U32
    ensures forall n :: n in NearAt(s.svc.tree, s.pendingReady, s.svc.margin, pos) ==> n < U32
    ensures forall n :: n in Current(s.svc, c) ==> n < U32
  {
    NearSettled(w, s, pos);
    forall n | n in Current(s.svc, c) ensures n < U32 {
      assert Settled(s.pendingReady, s.svc, n);
    }
  }

  lemma {:induction false} SubscribedAfter(s: Server, c: nat, pos: Vec2)
    ensures OnPosition(s, c, pos).svc.subscribed
        == s.svc.subscribed[c := NearAt(s.svc.tree, s.pendingReady, s.svc.margin, pos)]
  {
    hide PrimaryAt, NearAt, SplitLeaf;
    PositionInTwoParts(s, c, pos);
  }

  lemma {:induction false} TopicSetExact(ids: set<nat>, n: nat)
    requires n < U32 && forall m :: m in ids ==> m < U32
    ensures ShardTopic(n) in TopicSet(ids) <==> n in ids
  {
    hide ShardTopic;
    if ShardTopic(n) in TopicSet(ids) {
      var m :| m in ids && ShardTopic(m) == ShardTopic(n);
      ShardTopicInjective(m, n);
    }
  }

  /** Topics of distinct shards never collide, so set arithmetic on topics is set arithmetic on ids. */
  lemma {:induction false} SyncByReplay(before: set<Bytes>, after: set<Bytes>, near: seq<nat>, current: seq<nat>)
    requires (forall n :: n in near ==> n < U32) && (forall n :: n in current ==> n < U32)
    requires forall n :: 0 <= n < U32 ==> (ShardTopic(n) in before <==> n in current)
    requires after == before + TopicSet(Gained(near, current)) - TopicSet(Gained(current, near))
    ensures forall n :: 0 <= n < U32 ==> (ShardTopic(n) in after <==> n in near)
  {
    hide ShardTopic;
    var gained, lost := Gained(near, current), Gained(current, near);
    forall n | 0 <= n < U32 ensures ShardTopic(n) in after <==> n in near {
      TopicSetExact(gained, n);
      TopicSetExact(lost, n);
    }
  }

  /** Relaying one position update keeps every client in step whose records agreed before. */
  lemma {:induction false} UpdateKeepsSync(w: World, s: Server, t: B.Tables, c: ClientId, pos: Vec2, src: B.Addr,
          d: ClientId)
    requires Inv(w, s) && s.svc.nextId <= U32 && Synced(t, s.svc, d)
    ensures var u := Relay(t, PositionUpdate(s.svc, c, pos, s.pendingReady).actions, src);
            Synced(u, OnPosition(s, c, pos).svc, d)
  {
    hide PrimaryAt, NearAt, ShardTopic, Relay, Inv, OnPosition, PositionUpdate, TopicSet, Gained;
    var near, current := NearAt(s.svc.tree, s.pendingReady, s.svc.margin, pos), Current(s.svc, c);
    var u := Relay(t, PositionUpdate(s.svc, c, pos, s.pendingReady).actions, src);
    UpdateTopics(s, t, c, pos, src);
    SubscribedAfter(s, c, pos);
    if d == c {
      IdsFit(w, s, c, pos);
      SyncByReplay(B.TopicsOf(t, c), B.TopicsOf(u, c), near, current);
    }
  }

  // ---------------------------------------------------------------- the actions themselves

  /** How often a list of actions contains one action. */
  ghost function Count(actions: seq<SpatialAction>, a: SpatialAction): nat {
    multiset(actions)[a]
  }

  lemma {:induction false} CurrentIncreasing(w: World, s: Server, c: ClientId)
    requires Inv(w, s)
    ensures Increasing(Current(s.svc, c))
  {
  }

  lemma {:induction false} LastOfIncreasing(s: seq<nat>)
    requires Increasing(s) && s != []
    ensures var front, k := s[..|s| - 1], s[|s| - 1];
            s == front + [k] && k in s && k !in front && Increasing(front)
                && forall x :: x in s <==> x in front || x == k
  {
    var front, k := s[..|s| - 1], s[|s| - 1];
    assert s == front + [k] && s[|s| - 1] in s;
  }

  lemma {:induction false} SubscribeOnce(c: ClientId, near: seq<nat>, current: seq<nat>, n: nat)
    requires Increasing(near) && n < U32 && forall k :: k in near ==> k < U32
    ensures Count(SubscribeActions(c, near, current), Subscribe(c, ShardTopic(n))) == if n in near
        && n !in current then 1 else 0
  {
    hide ShardTopic;
    if near != [] {
      var front, k := near[..|near| - 1], near[|near| - 1];
      LastOfIncreasing(near);
      SubscribeOnce(c, front, current, n);
      hide SubscribeActions;
      SubscribeSnoc(c, front, k, current);
      if ShardTopic(k) == ShardTopic(n) { ShardTopicInjective(k, n); }
    }
  }

  lemma {:induction false} UnsubscribeOnce(c: ClientId, current: seq<nat>, near: seq<nat>, n: nat)
    requires Increasing(current) && n < U32 && forall k :: k in current ==> k < U32
    ensures Count(UnsubscribeActions(c, current, near), Unsubscribe(c, ShardTopic(n))) == if n in current
        && n !in near then 1 else 0
  {
    hide ShardTopic;
    if current != [] {
      var front, k := current[..|current| - 1], current[|current| - 1];
      LastOfIncreasing(current);
      UnsubscribeOnce(c, front, near, n);
      hide UnsubscribeActions;
      SubscribeSnoc(c, front, k, near);
      if ShardTopic(k) == ShardTopic(n) { ShardTopicInjective(k, n); }
    }
  }

  /**
   * A position update subscribes to exactly the new shards and unsubscribes from exactly the old
   * ones, once each: no duplicates, and never both for the same shard.
   */
  lemma {:induction false} SubscriptionActionsExact(w: World, s: Server, c: ClientId, pos: Vec2, n: nat)
    requires Inv(w, s) && s.svc.nextId <= U32 && n < U32
    ensures var actions := PositionUpdate(s.svc, c, pos, s.pendingReady).actions;
            var near, current := NearAt(s.svc.tree, s.pendingReady, s.svc.margin, pos), Current(s.svc, c);
            && Count(actions, Subscribe(c, ShardTopic(n))) == (if n in near && n !in current then 1 else 0)
            && Count(actions, Unsubscribe(c, ShardTopic(n))) == (if n in current && n !in near then 1 else 0)
  {
    hide PrimaryAt, NearAt, ScaleCheck, ShardTopic, SubscribeActions, UnsubscribeActions, Inv, Increasing;
    var p, near := PrimaryAt(s.svc.tree, s.pendingReady, pos), NearAt(s.svc.tree, s.pendingReady, s.svc.margin, pos);
    var current := Current(s.svc, c);
    var a, b, d, e := AuthorityActions(s.svc, c, p), SubscribeActions(c, near, current),
        UnsubscribeActions(c, current, near), AlertActions(c, near);
    var f := ScaleCheck(Moved(s.svc, c, pos, s.pendingReady).service, p).actions;
    ScaleSilent(Moved(s.svc, c, pos, s.pendingReady).service, p);
    SubscribeShape(c, near, current);
    UnsubscribeShape(c, current, near);
    IdsFit(w, s, c, pos);
    CurrentIncreasing(w, s, c);
    SubscribeOnce(c, near, current, n);
    UnsubscribeOnce(c, current, near, n);
  }

  // ---------------------------------------------------------------- alerts, and the order of the actions

  /** The kinds of actions in the order in which an update emits them. */
  ghost function Rank(a: SpatialAction): nat {
    match a
    case AuthorityChange(_, _, _) => 0
    case Subscribe(_, _) => 1
    case Unsubscribe(_, _) => 2
    case CrossingAlert(_, _) => 3
    case ScaleUp(_, _) => 4
    case ScaleDown(_, _) => 5
  }

  ghost predicate OfRank(actions: seq<SpatialAction>, rank: nat) {
    forall a :: a in actions ==> Rank(a) == rank
  }

  ghost predicate InOrder(actions: seq<SpatialAction>) {
    forall i, j :: 0 <= i < j < |actions| ==> Rank(actions[i]) <= Rank(actions[j])
  }

  lemma {:induction false} FiveParts(a: seq<SpatialAction>, b: seq<SpatialAction>, d: seq<SpatialAction>,
          e: seq<SpatialAction>, f: seq<SpatialAction>)
    requires OfRank(a, 0) && OfRank(b, 1) && OfRank(d, 2) && OfRank(e, 3) && OfRank(f, 4)
    ensures InOrder(a + b + d + e + f)
    ensures forall x :: Rank(x) == 0 ==> (x in a + b + d + e + f <==> x in a)
    ensures forall x :: Rank(x) == 3 ==> multiset(a + b + d + e + f)[x] == multiset(e)[x]
    ensures forall x :: x in a + b + d + e + f && Rank(x) == 3 ==> x in e
  {
    hide Rank;
    var all := a + b + d + e + f;
    forall i | 0 <= i < |all|
      ensures Rank(all[i]) ==
              if i < |a| then 0 else if i < |a| + |b| then 1 else if i < |a| + |b| + |d| then 2
              else if i < |a| + |b| + |d| + |e| then 3 else 4
    {
      assert all[i] in a || all[i] in b || all[i] in d || all[i] in e || all[i] in f;
      if i < |a| { assert all[i] in a; }
      else if i < |a| + |b| { assert all[i] == b[i - |a|]; }
      else if i < |a| + |b| + |d| { assert all[i] == d[i - |a| - |b|]; }
      else if i < |a| + |b| + |d| + |e| { assert all[i] == e[i - |a| - |b| - |d|]; }
      else { assert all[i] == f[i - |a| - |b| - |d| - |e|]; }
    }
    forall x | Rank(x) == 3 ensures multiset(all)[x] == multiset(e)[x] {
      assert x !in a && x !in b && x !in d && x !in f;
    }
  }

  lemma {:induction false} UpdateParts(s: Server, c: nat, pos: Vec2)
    ensures var near := NearAt(s.svc.tree, s.pendingReady, s.svc.margin, pos);
            var p, current := PrimaryAt(s.svc.tree, s.pendingReady, pos), Current(s.svc, c);
            var f := ScaleCheck(Moved(s.svc, c, pos, s.pendingReady).service, p).actions;
            && PositionUpdate(s.svc, c, pos, s.pendingReady).actions
               == AuthorityActions(s.svc, c, p) + SubscribeActions(c, near, current)
                  + UnsubscribeActions(c, current, near) + AlertActions(c, near) + f
            && OfRank(AuthorityActions(s.svc, c, p), 0) && OfRank(SubscribeActions(c, near, current), 1)
            && OfRank(UnsubscribeActions(c, current, near), 2) && OfRank(AlertActions(c, near), 3) && OfRank(f, 4)
  {
    hide PrimaryAt, NearAt, SplitLeaf, SubscribeActions, UnsubscribeActions;
    var near := NearAt(s.svc.tree, s.pendingReady, s.svc.margin, pos);
    SubscribeShape(c, near, Current(s.svc, c));
    UnsubscribeShape(c, Current(s.svc, c), near);
  }

  lemma {:induction false} Ranks(a: SpatialAction)
    ensures (a.AuthorityChange? ==> Rank(a) == 0) && (a.CrossingAlert? ==> Rank(a) == 3)
  {
  }

  lemma {:induction false} AuthorityListed(s: Service, c: nat, p: Option<nat>, src: nat, dst: nat)
    ensures AuthorityChange(c, src, dst) in AuthorityActions(s, c, p) <==>
              p == Some(dst) && (if c in s.primary then s.primary[c] == src && src != dst else src == 0)
  {
  }

  lemma {:induction false} AlertListed(c: nat, near: seq<nat>)
    ensures Count(AlertActions(c, near), CrossingAlert(c, near)) == if |near| >= 2 then 1 else 0
    ensures forall d, l :: CrossingAlert(d, l) in AlertActions(c, near) ==> d == c && l == near
  {
  }

  /**
   * A position update emits its actions in a fixed order: at most one change of authority, exactly when
   * the client is not recorded where it stands; Subscribes; Unsubscribes; one CrossingAlert that lists the
   * new record, exactly when that record has two shards or more; the request for new servers.
   */
  lemma {:induction false} UpdateInOrder(s: Server, c: nat, pos: Vec2, src: nat, dst: nat, shards: seq<nat>)
    ensures var actions := PositionUpdate(s.svc, c, pos, s.pendingReady).actions;
            var p, record := PrimaryAt(s.svc.tree, s.pendingReady, pos), OnPosition(s, c, pos).svc.subscribed;
            && InOrder(actions) && c in record
            && (AuthorityChange(c, src, dst) in actions <==>
                  && p == Some(dst)
                  && (if c in s.svc.primary then s.svc.primary[c] == src && src != dst else src == 0))
            && Count(actions, CrossingAlert(c, record[c])) == (if |record[c]| >= 2 then 1 else 0)
            && (forall d, l :: CrossingAlert(d, l) in actions ==> d == c && l == record[c])
  {
    hide PrimaryAt, NearAt, PositionUpdate, ScaleCheck, OnPosition, Moved, SubscribeActions, UnsubscribeActions,
      AuthorityActions, AlertActions, Current, Rank, OfRank, InOrder;
    var near := NearAt(s.svc.tree, s.pendingReady, s.svc.margin, pos);
    var p, current := PrimaryAt(s.svc.tree, s.pendingReady, pos), Current(s.svc, c);
    SubscribedAfter(s, c, pos);
    UpdateParts(s, c, pos);
    FiveParts(AuthorityActions(s.svc, c, p), SubscribeActions(c, near, current), UnsubscribeActions(c, current, near),
      AlertActions(c, near), ScaleCheck(Moved(s.svc, c, pos, s.pendingReady).service, p).actions);
    AuthorityListed(s.svc, c, p, src, dst);
    AlertListed(c, near);
    Ranks(AuthorityChange(c, src, dst));
    forall d, l ensures Rank(CrossingAlert(d, l)) == 3 { Ranks(CrossingAlert(d, l)); }
  }

  /** Of two Subscribes, or two Unsubscribes, the one for the lower shard comes first. */
  ghost predicate Ascending(actions: seq<SpatialAction>, c: nat, m: nat, n: nat) {
    forall i, j :: 0 <= i < j < |actions| ==>
      && (actions[i] == Subscribe(c, ShardTopic(m)) && actions[j] == Subscribe(c, ShardTopic(n)) ==> m < n)
      && (actions[i] == Unsubscribe(c, ShardTopic(m)) && actions[j] == Unsubscribe(c, ShardTopic(n)) ==> m < n)
  }

  lemma {:induction false} SubscribesListed(c: nat, near: seq<nat>, current: seq<nat>, n: nat)
    requires n < U32 && forall k :: k in near ==> k < U32
    ensures Subscribe(c, ShardTopic(n)) in SubscribeActions(c, near, current) ==> n in near
    ensures Unsubscribe(c, ShardTopic(n)) in UnsubscribeActions(c, near, current) ==> n in near
  {
    hide ShardTopic;
    if near == [] {
      assert SubscribeActions(c, near, current) == [] && UnsubscribeActions(c, near, current) == [];
    } else {
      hide SubscribeActions, UnsubscribeActions;
      var front, k := near[..|near| - 1], near[|near| - 1];
      assert k in near && forall x :: x in front ==> x in near;
      assert near == front + [k];
      SubscribesListed(c, front, current, n);
      SubscribeSnoc(c, front, k, current);
      if ShardTopic(k) == ShardTopic(n) { ShardTopicInjective(k, n); }
      var s, u := Subscribe(c, ShardTopic(n)), Unsubscribe(c, ShardTopic(n));
      assert s in SubscribeActions(c, near, current) ==>
          s in SubscribeActions(c, front, current) || s == Subscribe(c, ShardTopic(k));
      assert u in UnsubscribeActions(c, near, current) ==>
          u in UnsubscribeActions(c, front, current) || u == Unsubscribe(c, ShardTopic(k));
    }
  }

  lemma {:induction false} AscendingSnoc(l: seq<SpatialAction>, x: SpatialAction, c: nat, m: nat, n: nat)
    requires Ascending(l, c, m, n)
    requires Subscribe(c, ShardTopic(m)) in l && x == Subscribe(c, ShardTopic(n)) ==> m < n
    requires Unsubscribe(c, ShardTopic(m)) in l && x == Unsubscribe(c, ShardTopic(n)) ==> m < n
    ensures Ascending(l + [x], c, m, n)
  {
    hide ShardTopic;
    var all := l + [x];
    forall i, j | 0 <= i < j < |all|
      ensures all[i] == Subscribe(c, ShardTopic(m)) && all[j] == Subscribe(c, ShardTopic(n)) ==> m < n
      ensures all[i] == Unsubscribe(c, ShardTopic(m)) && all[j] == Unsubscribe(c, ShardTopic(n)) ==> m < n
    {
      assert all[i] == l[i] && all[i] in l;
      assert j < |l| ==> all[j] == l[j];
    }
  }

  lemma {:induction false} BelowLast(near: seq<nat>, m: nat)
    requires Increasing(near) && near != []
    ensures m in near[..|near| - 1] ==> m < near[|near| - 1]
  {
  }

  lemma {:induction false} SubscribesAscend(c: nat, near: seq<nat>, current: seq<nat>, m: nat, n: nat)
    requires Increasing(near) && m < U32 && n < U32 && forall k :: k in near ==> k < U32
    ensures Ascending(SubscribeActions(c, near, current), c, m, n)
    ensures Ascending(UnsubscribeActions(c, near, current), c, m, n)
  {
    hide ShardTopic, Increasing;
    if near == [] {
      assert SubscribeActions(c, near, current) == [] && UnsubscribeActions(c, near, current) == [];
    } else {
      hide Ascending, SubscribeActions, UnsubscribeActions;
      var front, k := near[..|near| - 1], near[|near| - 1];
      LastOfIncreasing(near);
      BelowLast(near, m);
      SubscribesAscend(c, front, current, m, n);
      SubscribesListed(c, front, current, m);
      SubscribeSnoc(c, front, k, current);
      if ShardTopic(k) == ShardTopic(n) { ShardTopicInjective(k, n); }
      if k in current {
        assert SubscribeActions(c, front, current) + [] == SubscribeActions(c, front, current);
        assert UnsubscribeActions(c, front, current) + [] == UnsubscribeActions(c, front, current);
      } else {
        AscendingSnoc(SubscribeActions(c, front, current), Subscribe(c, ShardTopic(k)), c, m, n);
        AscendingSnoc(UnsubscribeActions(c, front, current), Unsubscribe(c, ShardTopic(k)), c, m, n);
      }
    }
  }

  lemma {:induction false} AscendingParts(a: seq<SpatialAction>, b: seq<SpatialAction>, d: seq<SpatialAction>,
          e: seq<SpatialAction>, f: seq<SpatialAction>, c: nat, m: nat, n: nat)
    requires OfRank(a, 0) && OfRank(b, 1) && OfRank(d, 2) && OfRank(e, 3) && OfRank(f, 4)
    requires Ascending(b, c, m, n) && Ascending(d, c, m, n)
    ensures Ascending(a + b + d + e + f, c, m, n)
  {
    hide ShardTopic;
    var all := a + b + d + e + f;
    forall i | 0 <= i < |all|
      ensures all[i].Subscribe? ==> |a| <= i < |a| + |b| && all[i] == b[i - |a|]
      ensures all[i].Unsubscribe? ==> |a| + |b| <= i < |a| + |b| + |d| && all[i] == d[i - |a| - |b|]
    {
      if i < |a| { assert all[i] in a; }
      else if i < |a| + |b| { assert all[i] == b[i - |a|] && all[i] in b; }
      else if i < |a| + |b| + |d| { assert all[i] == d[i - |a| - |b|] && all[i] in d; }
      else if i < |a| + |b| + |d| + |e| { assert all[i] == e[i - |a| - |b| - |d|] && all[i] in e; }
      else { assert all[i] == f[i - |a| - |b| - |d| - |e|] && all[i] in f; }
    }
  }

  /** In every reachable state an update subscribes, and unsubscribes, in ascending order of shards. */
  lemma {:induction false} UpdateAscends(w: World, s: Server, c: ClientId, pos: Vec2, m: nat, n: nat)
    requires Inv(w, s) && s.svc.nextId <= U32 && m < U32 && n < U32
    ensures Ascending(PositionUpdate(s.svc, c, pos, s.pendingReady).actions, c, m, n)
  {
    hide PrimaryAt, NearAt, PositionUpdate, ScaleCheck, Moved, SubscribeActions, UnsubscribeActions, AuthorityActions,
      AlertActions, Current, OfRank, Ascending, Inv, Increasing;
    var near := NearAt(s.svc.tree, s.pendingReady, s.svc.margin, pos);
    var current := Current(s.svc, c);
    IdsFit(w, s, c, pos);
    CurrentIncreasing(w, s, c);
    UpdateParts(s, c, pos);
    SubscribesAscend(c, near, current, m, n);
    SubscribesAscend(c, current, near, m, n);
    AscendingParts(AuthorityActions(s.svc, c, PrimaryAt(s.svc.tree, s.pendingReady, pos)),
      SubscribeActions(c, near, current), UnsubscribeActions(c, current, near), AlertActions(c, near),
      ScaleCheck(Moved(s.svc, c, pos, s.pendingReady).service, PrimaryAt(s.svc.tree, s.pendingReady, pos)).actions,
      c, m, n);
  }
}
