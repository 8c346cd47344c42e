/** Who is sent the frames of a shard: the listeners of its topic, and the shards on record for a client. */
module Listeners {
  import opened Geometry
  import opened Wire
  import opened Spatial
  import opened SpatialInvariant
  import opened SpatialPackets
  import opened Subscriptions
  import opened BrokeredRuns
  import opened Trees
  import SpatialLocks
  import B = BrokerModel

  // ---------------------------------------------------------------- one topic and one client

  /** The route lists the client exactly if the client is subscribed; a topic without a route lists nobody. */
  ghost predicate Listens(t: B.Tables, c: ClientId, topic: Bytes) {
    c in B.ListenersOf(t, topic) <==> topic in B.TopicsOf(t, c)
  }

  /** Everybody who is subscribed to a shard is sent its frames, and nobody else is. */
  ghost predicate AllListen(t: B.Tables) {
    forall c: ClientId, n :: c != WARM_UP && 0 <= n < U32 ==> Listens(t, c, ShardTopic(n))
  }

  /** As long as the topic has a route, its two records agree. */
  ghost predicate Tuned(t: B.Tables, c: ClientId, topic: Bytes) {
    if topic in t.routes then Listens(t, c, topic) else c !in B.ListenersOf(t, topic)
  }

  lemma {:induction false} TunedStep(t: B.Tables, m: B.Message, src: B.Addr, c: ClientId, topic: Bytes)
    requires Tuned(t, c, topic) && !m.RegisterShard?
    ensures Tuned(B.Next(t, m, src), c, topic)
  {
  }

  lemma {:induction false} RelayKeepsTuned(t: B.Tables, actions: seq<SpatialAction>, src: B.Addr, c: ClientId,
          topic: Bytes)
    requires Tuned(t, c, topic)
    ensures Tuned(Relay(t, actions, src), c, topic)
  {
    hide B.Parse, B.Next, EncodeAction, Tuned;
    if actions != [] {
      var front, a := actions[..|actions| - 1], actions[|actions| - 1];
      RelayKeepsTuned(t, front, src, c, topic);
      ActionKind(a);
      TunedStep(Relay(t, front, src), B.Parse(EncodeAction(a)), src, c, topic);
    }
  }

  lemma {:induction false} ListensTuned(t: B.Tables, c: ClientId, topic: Bytes)
    ensures Listens(t, c, topic) <==> Tuned(t, c, topic) && (topic in B.TopicsOf(t, c) ==> topic in t.routes)
  {
  }

  lemma {:induction false} RoutedIfListening(t: B.Tables, c: ClientId, topic: Bytes)
    ensures c in B.ListenersOf(t, topic) ==> topic in t.routes
  {
  }

  /** One message of somebody else than the spatial server. */
  lemma {:induction false} ReceivedKeepsListening(site: Site, t: B.Tables, h: Happening)
    requires Allowed(site, h) && AllListen(t)
    ensures AllListen(Received(t, h))
  {
    hide ShardTopic, BrokeredRuns.Harmless, B.Next, B.ListenersOf, B.TopicsOf;
    if h.AtBroker? {
      forall c: ClientId, n | c != WARM_UP && 0 <= n < U32 ensures Listens(Received(t, h), c, ShardTopic(n)) {
        assert Listens(t, c, ShardTopic(n));
        assert NamesShard(ShardTopic(n));
        RoutedIfListening(t, c, ShardTopic(n));
        B.StepTables(t, h.message, h.from, c, ShardTopic(n));
      }
    }
  }

  // ---------------------------------------------------------------- one step

  /** The update subscribes its client to a shard whose topic nobody has claimed: it will hear nothing of it. */
  ghost predicate Deafens(site: Site, j: Joint, h: Happening) {
    var e := EventAt(site, j.tables, h);
    && e.Some? && e.value.Position? && e.value.client != WARM_UP
    && exists n ::
         && n in NearAt(j.server.svc.tree, j.server.pendingReady, j.server.svc.margin, e.value.pos)
         && n !in Current(j.server.svc, e.value.client) && ShardTopic(n) !in j.tables.routes
  }

  lemma {:induction false} GainedTopic(near: seq<nat>, current: seq<nat>, n: nat)
    requires n < U32 && forall k :: k in near ==> k < U32
    ensures ShardTopic(n) in TopicSet(Gained(near, current)) <==> n in near && n !in current
  {
    hide ShardTopic, TopicSet;
    TopicSetExact(Gained(near, current), n);
  }

  /** After a relayed update of `c`, somebody is subscribed in vain exactly if `c` gained an unrouted topic. */
  lemma {:induction false} UpdateListening(w: World, s: Server, t: B.Tables, c: ClientId, pos: Vec2, src: B.Addr,
          d: ClientId, n: nat)
    requires Inv(w, s) && s.svc.nextId <= U32 && n < U32 && Listens(t, d, ShardTopic(n))
    ensures var u := Relay(t, PositionUpdate(s.svc, c, pos, s.pendingReady).actions, src);
            var near := NearAt(s.svc.tree, s.pendingReady, s.svc.margin, pos);
            Listens(u, d, ShardTopic(n)) <==>
              !(d == c && n in near && n !in Current(s.svc, c) && ShardTopic(n) !in t.routes)
  {
    hide Inv, PositionUpdate, NearAt, TopicSet, Gained, Relay, ShardTopic, Tuned, Listens, Current;
    var actions := PositionUpdate(s.svc, c, pos, s.pendingReady).actions;
    var near, current := NearAt(s.svc.tree, s.pendingReady, s.svc.margin, pos), Current(s.svc, c);
    var u, topic := Relay(t, actions, src), ShardTopic(n);
    UpdateTopics(s, t, c, pos, src);
    RelayKeepsAuthorities(t, actions, src);
    ListensTuned(t, d, topic);
    RelayKeepsTuned(t, actions, src, d, topic);
    ListensTuned(u, d, topic);
    IdsFit(w, s, c, pos);
    GainedTopic(near, current, n);
    GainedTopic(current, near, n);
  }

  /** An event other than a position changes no table. */
  lemma {:induction false} OtherEvents(site: Site, s: Server, t: B.Tables, e: Event)
    requires !e.Position?
    ensures Handled(site, s, t, e).tables == t
  {
    hide Step, Emitted, Relay;
    match e
    case Disconnect(c) => DepartureEvent(s, t, c, site.spatial);
    case _ => QuietEvent(s, t, e, site.spatial);
  }

  lemma {:induction false} ListeningPosition(site: Site, s: Server, t: B.Tables, c: ClientId, pos: Vec2)
    requires Inv(site.world, s) && s.svc.nextId <= U32 && AllListen(t)
    ensures AllListen(Handled(site, s, t, Position(c, pos)).tables) <==>
            c == WARM_UP || forall n ::
              n in NearAt(s.svc.tree, s.pendingReady, s.svc.margin, pos) && n !in Current(s.svc, c) ==>
                ShardTopic(n) in t.routes
  {
    hide Inv, PositionUpdate, NearAt, Relay, ShardTopic, Listens, Current, OnPosition;
    var near := NearAt(s.svc.tree, s.pendingReady, s.svc.margin, pos);
    var u := Handled(site, s, t, Position(c, pos)).tables;
    IdsFit(site.world, s, c, pos);
    forall d: ClientId, n: nat | d != WARM_UP && n < U32
      ensures Listens(u, d, ShardTopic(n)) <==>
        !(d == c && n in near && n !in Current(s.svc, c) && ShardTopic(n) !in t.routes)
    {
      UpdateListening(site.world, s, t, c, pos, site.spatial, d, n);
    }
    if AllListen(u) && c != WARM_UP {
      forall n | n in near && n !in Current(s.svc, c) ensures ShardTopic(n) in t.routes {
        assert Listens(u, c, ShardTopic(n));
      }
    }
  }

  /** One happening keeps every subscriber a listener if and only if it does not deafen a client. */
  lemma {:induction false} ListeningExact(site: Site, j: Joint, h: Happening)
    requires Allowed(site, h) && Inv(site.world, j.server) && j.server.svc.nextId <= U32 && AllListen(j.tables)
    ensures AllListen(JointStep(site, j, h).tables) <==> !Deafens(site, j, h)
  {
    hide Inv, AllListen, Allowed, EventAt, Handled, ShardTopic, NearAt, Current, Heard;
    EventKinds(site, j.tables, h);
    ReceivedKeepsListening(site, j.tables, h);
    var t, e := Received(j.tables, h), EventAt(site, j.tables, h);
    if e.Some? {
      if e.value.Position? {
        assert t.routes == j.tables.routes;
        ListeningPosition(site, j.server, t, e.value.client, e.value.pos);
      } else {
        OtherEvents(site, j.server, t, e.value);
      }
    }
  }

  // ---------------------------------------------------------------- all runs

  /** At every moment of the run everybody who is subscribed to a shard is sent its frames. */
  ghost predicate AlwaysListen(site: Site, hs: seq<Happening>) {
    AllListen(JointAfter(site, hs).tables) && (hs != [] ==> AlwaysListen(site, hs[..|hs| - 1]))
  }

  ghost predicate NeverDeafens(site: Site, hs: seq<Happening>) {
    hs != [] ==>
      var front := hs[..|hs| - 1];
      NeverDeafens(site, front) && !Deafens(site, JointAfter(site, front), hs[|hs| - 1])
  }

  lemma {:induction false} JointInv(site: Site, hs: seq<Happening>)
    requires Sound(site.world)
    ensures Inv(site.world, JointAfter(site, hs).server)
  {
    hide Inv, Step, Relay, Emitted, EventAt, Received;
    if hs == [] {
      ReachableInv(site.world, []);
      assert After(site.world, []) == Initial(site.world);
    } else {
      var front, h := hs[..|hs| - 1], hs[|hs| - 1];
      var j := JointAfter(site, front);
      JointInv(site, front);
      var e := EventAt(site, j.tables, h);
      if e.Some? { StepKeepsInv(site.world, j.server, e.value); }
    }
  }

  lemma {:induction false} NobodyListens(site: Site)
    ensures AllListen(JointAfter(site, []).tables)
  {
    hide ShardTopic;
  }

  /**
   * In every run: at every moment everybody who is subscribed to a shard is also sent its frames, if and
   * only if no update of the run subscribed its client to a shard that no server had claimed.
   */
  lemma {:induction false} ListeningAlwaysExact(site: Site, hs: seq<Happening>)
    requires Sound(site.world) && JointAfter(site, hs).server.svc.nextId <= U32
    requires forall i :: 0 <= i < |hs| ==> Allowed(site, hs[i])
    ensures AlwaysListen(site, hs) <==> NeverDeafens(site, hs)
  {
    hide JointStep, Allowed, Deafens, AllListen, Inv;
    if hs == [] {
      NobodyListens(site);
    } else {
      var front, last := hs[..|hs| - 1], hs[|hs| - 1];
      var j := JointAfter(site, front);
      JointIdsGrow(site, j, last);
      ListeningAlwaysExact(site, front);
      if AlwaysListen(site, front) {
        JointInv(site, front);
        ListeningExact(site, j, last);
      }
    }
  }

  // ---------------------------------------------------------------- claims before Readys

  /** Some server has claimed the topic of the shard in these happenings. */
  ghost predicate Claimed(hs: seq<Happening>, n: nat) {
    exists i :: 0 <= i < |hs| && hs[i].AtBroker? && hs[i].message == B.RegisterShard(ShardTopic(n))
  }

  /**
   * Every server claims the topic of a shard before it reports the shard ready, and that of shard 0 is
   * claimed before the first position.
   */
  ghost predicate ClaimsFirst(site: Site, hs: seq<Happening>) {
    hs != [] ==>
      var front := hs[..|hs| - 1];
      var e := EventAt(site, JointAfter(site, front).tables, hs[|hs| - 1]);
      && ClaimsFirst(site, front)
      && (e.Some? && e.value.Ready? ==> Claimed(front, e.value.shard))
      && (e.Some? && e.value.Position? ==> Claimed(front, 0))
  }

  lemma {:induction false} JointRoutes(site: Site, j: Joint, h: Happening, topic: Bytes)
    ensures topic in JointStep(site, j, h).tables.routes <==>
            topic in j.tables.routes || (h.AtBroker? && h.message == B.RegisterShard(topic))
  {
    hide Step, Emitted, Relay, EventAt;
    var e := EventAt(site, j.tables, h);
    if e.Some? {
      RelayKeepsAuthorities(Received(j.tables, h), Emitted(j.server, e.value), site.spatial);
    }
  }

  /** A shard's topic has a route exactly once somebody has claimed it. */
  lemma {:induction false} RoutedWhenClaimed(site: Site, hs: seq<Happening>, n: nat)
    ensures ShardTopic(n) in JointAfter(site, hs).tables.routes <==> Claimed(hs, n)
  {
    hide JointStep, ShardTopic;
    if hs != [] {
      var front, h := hs[..|hs| - 1], hs[|hs| - 1];
      assert forall i :: 0 <= i < |front| ==> hs[i] == front[i];
      RoutedWhenClaimed(site, front, n);
      JointRoutes(site, JointAfter(site, front), h, ShardTopic(n));
      if Claimed(front, n) {
        var i :| 0 <= i < |front| && front[i].AtBroker? && front[i].message == B.RegisterShard(ShardTopic(n));
        assert hs[i].AtBroker? && hs[i].message == B.RegisterShard(ShardTopic(n));
      }
    }
  }

  /** Everybody but shard 0 who is settled has been claimed. */
  ghost predicate SettledClaimed(s: Server, hs: seq<Happening>) {
    forall n :: Settled(s.pendingReady, s.svc, n) && n != 0 ==> Claimed(hs, n)
  }

  lemma {:induction false} ClaimedGrows(hs: seq<Happening>, h: Happening, n: nat)
    requires Claimed(hs, n)
    ensures Claimed(hs + [h], n)
  {
    hide ShardTopic;
    var i :| 0 <= i < |hs| && hs[i].AtBroker? && hs[i].message == B.RegisterShard(ShardTopic(n));
    assert (hs + [h])[i] == hs[i];
  }

  /** What an event settles, beyond what was settled before: at most the shard that signals. */
  lemma {:induction false} EventSettles(w: World, s: Server, e: Event, n: nat)
    requires Inv(w, s) && Settled(Step(s, e).pendingReady, Step(s, e).svc, n)
    ensures Settled(s.pendingReady, s.svc, n) || (e.Ready? && e.shard == n)
  {
    hide Inv, OnPosition, OnReady, OnDisconnect, ForceCollapse;
    match e
    case Position(c, pos) => SpatialLocks.PositionSettlesNobody(w, s, c, pos);
    case Ready(k) => ReadyFrame(s, k);
    case Disconnect(c) => SpatialLocks.DisconnectSettlesNobody(w, s, c);
    case Crash(ids) =>
  }

  lemma {:induction false} NothingSettled(site: Site)
    ensures SettledClaimed(JointAfter(site, []).server, [])
  {
  }

  lemma {:induction false} ClaimsSettle(site: Site, hs: seq<Happening>)
    requires Sound(site.world) && ClaimsFirst(site, hs)
    ensures SettledClaimed(JointAfter(site, hs).server, hs)
  {
    hide Inv, Step, Relay, Emitted, EventAt, Received, Settled, Claimed;
    if hs == [] {
      NothingSettled(site);
    } else {
      var front, h := hs[..|hs| - 1], hs[|hs| - 1];
      var j, k := JointAfter(site, front), JointAfter(site, hs);
      var e := EventAt(site, j.tables, h);
      ClaimsSettle(site, front);
      JointInv(site, front);
      assert hs == front + [h];
      forall n | Settled(k.server.pendingReady, k.server.svc, n) && n != 0 ensures Claimed(hs, n) {
        if e.Some? { EventSettles(site.world, j.server, e.value, n); }
        ClaimedGrows(front, h, n);
      }
    }
  }

  lemma {:induction false} ClaimsNeverDeafen(site: Site, hs: seq<Happening>)
    requires Sound(site.world) && ClaimsFirst(site, hs)
    ensures NeverDeafens(site, hs)
  {
    hide Inv, JointAfter, EventAt, Settled, Claimed, NearAt, Current, ShardTopic;
    if hs != [] {
      var front, h := hs[..|hs| - 1], hs[|hs| - 1];
      var j := JointAfter(site, front);
      var e := EventAt(site, j.tables, h);
      ClaimsNeverDeafen(site, front);
      if e.Some? && e.value.Position? {
        ClaimsSettle(site, front);
        JointInv(site, front);
        NearSettled(site.world, j.server, e.value.pos);
        forall n | n in NearAt(j.server.svc.tree, j.server.pendingReady, j.server.svc.margin, e.value.pos)
          ensures ShardTopic(n) in j.tables.routes
        {
          RoutedWhenClaimed(site, front, n);
        }
      }
    }
  }

  lemma {:induction false} AlwaysNow(site: Site, hs: seq<Happening>)
    requires AlwaysListen(site, hs)
    ensures AllListen(JointAfter(site, hs).tables)
  {
  }

  /**
   * Frames go where the spatial server says: when every server claims the topic of a shard before it
   * reports the shard ready, and shard 0 is claimed before the first position, then in every run the
   * listeners of a shard at the broker are exactly the clients that have the shard on record.
   */
  lemma {:induction false} ListenersExact(site: Site, hs: seq<Happening>, c: ClientId, n: nat)
    requires Sound(site.world) && JointAfter(site, hs).server.svc.nextId <= U32 && c != WARM_UP && n < U32
    requires forall i :: 0 <= i < |hs| ==> Allowed(site, hs[i]) && Steady(site, hs[i])
    requires ClaimsFirst(site, hs)
    ensures var j := JointAfter(site, hs);
            c in B.ListenersOf(j.tables, ShardTopic(n)) <==> n in Current(j.server.svc, c)
  {
    hide JointAfter, Allowed, Steady, Inv, ShardTopic, AlwaysListen, NeverDeafens, ClaimsFirst, Tethered, Current,
      B.ListenersOf, B.TopicsOf;
    SubscriptionsAgree(site, hs);
    ClaimsNeverDeafen(site, hs);
    ListeningAlwaysExact(site, hs);
    AlwaysNow(site, hs);
    assert Synced(JointAfter(site, hs).tables, JointAfter(site, hs).server.svc, c);
    assert Listens(JointAfter(site, hs).tables, c, ShardTopic(n));
  }
}
