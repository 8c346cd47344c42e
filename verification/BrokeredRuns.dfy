/**
 * The spatial server behind the broker: every position and every departure comes to it as a datagram
 * that the broker chose to forward, and every action it emits goes back to the broker.
 */
module BrokeredRuns {
  import opened Geometry
  import opened Options
  import opened Trees
  import opened Wire
  import opened Spatial
  import opened SpatialInvariant
  import opened SpatialPackets
  import opened Subscriptions
  import SpatialLocks
  import B = BrokerModel

  /** The world, the address of the spatial server, and how the bits of a float are read. */
  datatype Site = Site(world: World, spatial: B.Addr, float: nat -> real)

  datatype Joint = Joint(server: Server, tables: B.Tables)

  /** A message arrives at the broker, or a Ready or a crash report straight at the spatial server. */
  datatype Happening =
    | AtBroker(message: B.Message, from: B.Addr)
    | AtSpatial(event: Event)

  /** The client id with which a booting game server listens to its parent. */
  const WARM_UP: ClientId := 0xFFFF_FFFF

  // ---------------------------------------------------------------- one step

  ghost predicate ServesSpatial(t: B.Tables, src: B.Addr) {
    B.SPATIAL_TOPIC in t.routes && t.routes[B.SPATIAL_TOPIC].authority == src
  }

  /** The broker forwards what this client sends, and reports its departure, to the spatial server. */
  ghost predicate Heard(t: B.Tables, c: ClientId, src: B.Addr) {
    B.SPATIAL_TOPIC in B.TopicsOf(t, c) && ServesSpatial(t, src)
  }

  /** The datagram that a message makes the broker send to the spatial server, if any. */
  ghost function ToSpatial(t: B.Tables, m: B.Message, src: B.Addr): Option<Bytes> {
    match m
    case ClientInput(c, input) =>
      if Heard(t, c, src) && 5 + |input| <= B.INPUT_LIMIT then Some([5] + LE32(c) + input) else None
    case ClientDisconnect(c) => if Heard(t, c, src) then Some([7] + LE32(c)) else None
    case RouteToTopic(topic, payload) => if topic == B.SPATIAL_TOPIC && ServesSpatial(t, src) then Some(payload)
        else None
    case ServerReady(data) => if ServesSpatial(t, src) then Some([5] + LE32(0) + [20] + data) else None
    case _ => None
  }

  ghost function Reading(site: Site, packet: Bytes): Option<Event> {
    EventOf(Receive(packet, SPATIAL_BUFFER), site.float)
  }

  /** The event that a happening means to the spatial server, if any. */
  ghost function EventAt(site: Site, t: B.Tables, h: Happening): Option<Event> {
    match h
    case AtSpatial(e) => Some(e)
    case AtBroker(m, _) =>
      var p := ToSpatial(t, m, site.spatial);
      if p.None? then None else Reading(site, p.value)
  }

  /** What the happening itself does to the broker's tables. */
  ghost function Received(t: B.Tables, h: Happening): B.Tables {
    match h
    case AtSpatial(_) => t
    case AtBroker(m, from) => B.Next(t, m, from)
  }

  /** The actions of an event, up to the rescues of a crash, which no table notices. */
  ghost function Emitted(s: Server, e: Event): seq<SpatialAction> {
    match e
    case Position(c, pos) => PositionUpdate(s.svc, c, pos, s.pendingReady).actions
    case Ready(_) => []
    case Disconnect(c) => CheckMerges(Forget(s.svc, c)).actions
    case Crash(_) => []
  }

  /** The spatial server handles the event, and the broker receives the actions it emits. */
  ghost function Handled(site: Site, s: Server, t: B.Tables, e: Event): Joint {
    Joint(Step(s, e), Relay(t, Emitted(s, e), site.spatial))
  }

  ghost function JointStep(site: Site, j: Joint, h: Happening): Joint {
    var e := EventAt(site, j.tables, h);
    if e.None? then Joint(j.server, Received(j.tables, h))
    else Handled(site, j.server, Received(j.tables, h), e.value)
  }

  ghost function JointAfter(site: Site, hs: seq<Happening>): Joint {
    if hs == [] then Joint(Initial(site.world), B.NO_TABLES)
    else JointStep(site, JointAfter(site, hs[..|hs| - 1]), hs[|hs| - 1])
  }

  /** Leaving the rescues out of `Emitted` is exact: relaying them in any order changes no table. */
  lemma {:induction false} EmittedExact(s: Server, e: Event, actions: seq<SpatialAction>, t: B.Tables, src: B.Addr)
    requires Emits(s, e, actions)
    ensures Relay(t, actions, src) == Relay(t, Emitted(s, e), src)
  {
    hide B.Parse, EncodeAction, PositionUpdate, TryMerge;
    if e.Crash? {
      RelayNothing(t, actions, src);
      RelayNothing(t, [], src);
    }
  }

  // ---------------------------------------------------------------- who may say what

  ghost predicate NamesShard(topic: Bytes) {
    exists n :: 0 <= n < U32 && topic == ShardTopic(n)
  }

  /** A datagram that reads as neither a position nor a departure. */
  ghost predicate Harmless(site: Site, packet: Bytes) {
    var e := Reading(site, packet);
    e.None? || e.value.Ready? || e.value.Crash?
  }

  /**
   * Nobody but the spatial server subscribes clients to shards, apart from the warm-up id; nobody forges
   * positions or departures; and the spatial server claims no topic but its own.
   */
  ghost predicate Allowed(site: Site, h: Happening) {
    match h
    case AtSpatial(e) => e.Ready? || e.Crash?
    case AtBroker(m, from) =>
      && (m.Subscribe? && NamesShard(m.topic) ==> m.client == WARM_UP)
      && (m.Unsubscribe? && NamesShard(m.topic) ==> m.client == WARM_UP)
      && (m.RouteToTopic? && m.topic == B.SPATIAL_TOPIC ==> Harmless(site, m.payload))
      && (m.RegisterShard? && from == site.spatial ==> m.topic == B.SPATIAL_TOPIC)
      && (m.ClientInput? ==> from != site.spatial)
  }

  /** Nobody is unsubscribed from the spatial topic and no other server claims it. */
  ghost predicate Steady(site: Site, h: Happening) {
    h.AtBroker? ==>
      && !(h.message.Unsubscribe? && h.message.topic == B.SPATIAL_TOPIC)
      && (h.message.RegisterShard? && h.message.topic == B.SPATIAL_TOPIC ==> h.from == site.spatial)
  }

  /** The broker and the spatial server agree on every client. */
  ghost predicate Good(site: Site, j: Joint) {
    Inv(site.world, j.server) && forall c: ClientId :: c != WARM_UP ==> Synced(j.tables, j.server.svc, c)
  }

  /** A departure that the spatial server never learns of although it has shards on record for the client. */
  ghost predicate Strands(site: Site, j: Joint, h: Happening) {
    && h.AtBroker? && h.message.ClientDisconnect? && h.message.client != WARM_UP
    && !Heard(j.tables, h.message.client, site.spatial) && Current(j.server.svc, h.message.client) != []
  }

  // ---------------------------------------------------------------- what the spatial server is told

  /** A forwarded input is a position of its own client, a Ready, a crash report or nothing. */
  lemma {:induction false} InputReads(site: Site, c: ClientId, input: Bytes)
    requires 5 + |input| <= B.INPUT_LIMIT
    ensures var e := Reading(site, [5] + LE32(c) + input);
            e.None? || (e.value.Position? && e.value.client == c) || e.value.Ready? || e.value.Crash?
  {
    hide LE32, FromLE32, IdsFrom;
    LE32RoundTrip(c);
    var packet := [5] + LE32(c) + input;
    assert packet[1..5] == LE32(c);
  }

  lemma {:induction false} DepartureReads(site: Site, c: ClientId)
    ensures Reading(site, [7] + LE32(c)) == Some(Disconnect(c))
  {
    hide LE32;
    DepartureArrives(c);
  }

  lemma {:induction false} ReadyReads(site: Site, data: Bytes)
    ensures Harmless(site, [5] + LE32(0) + [20] + data)
  {
    hide LE32, FromLE32, IdsFrom;
    var packet := [5] + LE32(0) + [20] + data;
    assert packet[5] == 20;
    assert Receive(packet, SPATIAL_BUFFER)[5] == 20;
  }

  /** Positions and departures reach the spatial server only as forwarded by the broker. */
  lemma {:induction false} EventKinds(site: Site, t: B.Tables, h: Happening)
    requires Allowed(site, h)
    ensures var e := EventAt(site, t, h);
            e.Some? ==>
              && (e.value.Position? ==> h.AtBroker? && h.message.ClientInput? && h.message.client == e.value.client
                                        && Heard(t, e.value.client, site.spatial))
              && (e.value.Disconnect? ==> h.AtBroker? && h.message == B.ClientDisconnect(e.value.gone))
    ensures h.AtBroker? && h.message.ClientDisconnect? ==>
              var c := h.message.client;
              EventAt(site, t, h) == if Heard(t, c, site.spatial) then Some(Disconnect(c)) else None
  {
    hide Reading, LE32;
    match h
    case AtSpatial(_) =>
    case AtBroker(m, _) =>
      match m
      case ClientInput(c, input) => if 5 + |input| <= B.INPUT_LIMIT { InputReads(site, c, input); }
      case ClientDisconnect(c) => DepartureReads(site, c);
      case ServerReady(data) => ReadyReads(site, data);
      case _ =>
  }

  // ---------------------------------------------------------------- what keeps the records in step

  lemma {:induction false} ReceivedKeepsSync(site: Site, t: B.Tables, s: Service, h: Happening, c: ClientId)
    requires Allowed(site, h) && Synced(t, s, c) && c != WARM_UP
    requires !(h.AtBroker? && h.message == B.ClientDisconnect(c))
    ensures Synced(Received(t, h), s, c)
  {
    hide ShardTopic, Harmless;
    assert forall n :: 0 <= n < U32 ==> NamesShard(ShardTopic(n));
  }

  lemma {:induction false} QuietKeepsSync(t: B.Tables, s: Service, u: Service, c: ClientId)
    requires Synced(t, s, c) && Current(u, c) == Current(s, c)
    ensures Synced(t, u, c)
  {
  }

  lemma {:induction false} EmptySync(t: B.Tables, s: Service, c: ClientId)
    requires B.TopicsOf(t, c) == {} && forall n :: n in Current(s, c) ==> n < U32
    ensures Synced(t, s, c) <==> Current(s, c) == []
  {
    hide ShardTopic;
    if Current(s, c) != [] {
      assert Current(s, c)[0] in Current(s, c);
    }
  }

  lemma {:induction false} CurrentFits(w: World, s: Server, c: nat)
    requires Inv(w, s) && s.svc.nextId <= U32
    ensures forall n :: n in Current(s.svc, c) ==> n < U32
  {
    forall n | n in Current(s.svc, c) ensures n < U32 {
      assert Settled(s.pendingReady, s.svc, n);
    }
  }

  /** The events that change no subscription: they relay nothing that matters. */
  lemma {:induction false} QuietEvent(s: Server, t: B.Tables, e: Event, src: B.Addr)
    requires e.Ready? || e.Crash?
    ensures Relay(t, Emitted(s, e), src) == t && Step(s, e).svc.subscribed == s.svc.subscribed
  {
    hide OnReady;
    RelayNothing(t, [], src);
    if e.Ready? { ReadyFrame(s, e.shard); }
  }

  lemma {:induction false} DepartureEvent(s: Server, t: B.Tables, c: nat, src: B.Addr)
    ensures Relay(t, Emitted(s, Disconnect(c)), src) == t
    ensures Step(s, Disconnect(c)).svc.subscribed == s.svc.subscribed - {c}
  {
    hide TryMerge, OnDisconnect, Relay;
    RelayNothing(t, Emitted(s, Disconnect(c)), src);
    DisconnectForm(s, c);
  }

  /**
   * After a departure everybody else still agrees, and the two servers agree on the client if and only
   * if the broker reported it or the spatial server has no shards on record for it.
   */
  lemma {:induction false} LeaveExact(site: Site, j: Joint, c: ClientId, from: B.Addr)
    requires Good(site, j) && j.server.svc.nextId <= U32
    ensures var k := JointStep(site, j, AtBroker(B.ClientDisconnect(c), from));
            && Inv(site.world, k.server)
            && (forall d: ClientId :: d != c && d != WARM_UP ==> Synced(k.tables, k.server.svc, d))
            && (Synced(k.tables, k.server.svc, c)
                <==> (Heard(j.tables, c, site.spatial) || Current(j.server.svc, c) == []))
  {
    hide Inv, Synced, Step, Emitted, Reading, LE32;
    var h := AtBroker(B.ClientDisconnect(c), from);
    var t, k := Received(j.tables, h), JointStep(site, j, h);
    DepartureReads(site, c);
    DepartureEvent(j.server, t, c, site.spatial);
    StepKeepsInv(site.world, j.server, Disconnect(c));
    CurrentFits(site.world, j.server, c);
    assert k.tables == t;
    assert B.TopicsOf(k.tables, c) == {};
    EmptySync(k.tables, k.server.svc, c);
    forall d: ClientId | d != c && d != WARM_UP ensures Synced(k.tables, k.server.svc, d) {
      assert Synced(j.tables, j.server.svc, d);
      ReceivedKeepsSync(site, j.tables, j.server.svc, h, d);
      QuietKeepsSync(t, j.server.svc, k.server.svc, d);
    }
  }

  lemma {:induction false} EventKeepsSync(site: Site, s: Server, t: B.Tables, e: Event, d: ClientId)
    requires Inv(site.world, s) && s.svc.nextId <= U32 && Synced(t, s.svc, d)
    requires !e.Disconnect? && (e.Position? ==> e.client < U32)
    ensures var k := Handled(site, s, t, e); Synced(k.tables, k.server.svc, d)
  {
    hide Inv, Synced, OnPosition, PositionUpdate;
    if e.Position? {
      UpdateKeepsSync(site.world, s, t, e.client, e.pos, site.spatial, d);
    } else {
      QuietEvent(s, t, e, site.spatial);
      QuietKeepsSync(t, s.svc, Step(s, e).svc, d);
    }
  }

  lemma {:induction false} OtherKeepsGood(site: Site, j: Joint, h: Happening)
    requires Good(site, j) && Allowed(site, h) && j.server.svc.nextId <= U32
    requires !(h.AtBroker? && h.message.ClientDisconnect?)
    ensures Good(site, JointStep(site, j, h))
  {
    hide Inv, Synced, Step, Emitted, Relay, Allowed, EventAt, Received;
    EventKinds(site, j.tables, h);
    var t, e, k := Received(j.tables, h), EventAt(site, j.tables, h), JointStep(site, j, h);
    if e.Some? {
      StepKeepsInv(site.world, j.server, e.value);
    }
    forall d: ClientId | d != WARM_UP ensures Synced(k.tables, k.server.svc, d) {
      assert Synced(j.tables, j.server.svc, d);
      ReceivedKeepsSync(site, j.tables, j.server.svc, h, d);
      if e.Some? {
        EventKeepsSync(site, j.server, t, e.value, d);
      }
    }
  }

  /** One happening keeps the agreement if and only if it does not strand a client. */
  lemma {:induction false} JointExact(site: Site, j: Joint, h: Happening)
    requires Good(site, j) && Allowed(site, h) && j.server.svc.nextId <= U32
    ensures Good(site, JointStep(site, j, h)) <==> !Strands(site, j, h)
  {
    hide Inv, Synced, Step, Emitted, Reading, LE32, Relay, Allowed, ToSpatial;
    EventKinds(site, j.tables, h);
    if h.AtBroker? && h.message.ClientDisconnect? {
      LeaveExact(site, j, h.message.client, h.from);
    } else {
      OtherKeepsGood(site, j, h);
    }
  }

  // ---------------------------------------------------------------- whoever has shards is heard

  /** The spatial server has shards on record only for clients it hears of through the broker. */
  ghost predicate Tethered(site: Site, j: Joint) {
    forall c: ClientId :: Current(j.server.svc, c) != [] ==> Heard(j.tables, c, site.spatial)
  }

  lemma {:induction false} ShardTopicsApart(n: nat)
    ensures ShardTopic(n) != B.SPATIAL_TOPIC
  {
    hide Decimal;
    assert ShardTopic(n)[1] == 104 && B.SPATIAL_TOPIC[1] == 112;
  }

  lemma {:induction false} SetApart(ids: set<nat>)
    ensures B.SPATIAL_TOPIC !in TopicSet(ids)
  {
    hide ShardTopic;
    if B.SPATIAL_TOPIC in TopicSet(ids) {
      var n :| n in ids && ShardTopic(n) == B.SPATIAL_TOPIC;
      ShardTopicsApart(n);
    }
  }

  /** Relaying a position update leaves everybody as heard as before. */
  lemma {:induction false} UpdateKeepsHeard(s: Server, t: B.Tables, c: ClientId, pos: Vec2, src: B.Addr, d: ClientId)
    ensures Heard(Relay(t, PositionUpdate(s.svc, c, pos, s.pendingReady).actions, src), d, src) <==> Heard(t, d, src)
  {
    hide PositionUpdate, NearAt, TopicSet, Gained, Relay;
    UpdateTopics(s, t, c, pos, src);
    RelayKeepsAuthorities(t, PositionUpdate(s.svc, c, pos, s.pendingReady).actions, src);
    var near, current := NearAt(s.svc.tree, s.pendingReady, s.svc.margin, pos), Current(s.svc, c);
    SetApart(Gained(near, current));
    SetApart(Gained(current, near));
  }

  lemma {:induction false} ReceivedKeepsHeard(site: Site, t: B.Tables, h: Happening, c: ClientId)
    requires Steady(site, h) && Heard(t, c, site.spatial)
    requires !(h.AtBroker? && h.message == B.ClientDisconnect(c))
    ensures Heard(Received(t, h), c, site.spatial)
  {
  }

  /** A reported departure clears the record, and an unreported one finds none. */
  lemma {:induction false} LeaverForgotten(site: Site, j: Joint, h: Happening, c: ClientId)
    requires Tethered(site, j) && h.AtBroker? && h.message == B.ClientDisconnect(c)
    ensures Current(JointStep(site, j, h).server.svc, c) == []
  {
    hide Step, Emitted, Reading, LE32, Relay;
    DepartureReads(site, c);
    DepartureEvent(j.server, Received(j.tables, h), c, site.spatial);
  }

  lemma {:induction false} OthersKept(site: Site, s: Server, t: B.Tables, e: Event, c: ClientId)
    requires (e.Position? ==> e.client != c) && (e.Disconnect? ==> e.gone != c)
    ensures Current(Step(s, e).svc, c) == Current(s.svc, c)
  {
    hide OnPosition, OnReady, OnDisconnect, NearAt;
    match e
    case Position(d, pos) => SubscribedAfter(s, d, pos);
    case Ready(k) => ReadyFrame(s, k);
    case Disconnect(d) => DepartureEvent(s, t, d, site.spatial);
    case Crash(_) =>
  }

  lemma {:induction false} HandledKeepsHeard(site: Site, s: Server, t: B.Tables, e: Event, c: ClientId)
    requires Heard(t, c, site.spatial) && (e.Position? ==> e.client < U32)
    ensures Heard(Handled(site, s, t, e).tables, c, site.spatial)
  {
    hide Step, Heard, Relay, PositionUpdate, TryMerge;
    match e
    case Position(d, pos) => UpdateKeepsHeard(s, t, d, pos, site.spatial, c);
    case Disconnect(d) => DepartureEvent(s, t, d, site.spatial);
    case _ => QuietEvent(s, t, e, site.spatial);
  }

  lemma {:induction false} TetheredStep(site: Site, j: Joint, h: Happening)
    requires Tethered(site, j) && Allowed(site, h) && Steady(site, h)
    ensures Tethered(site, JointStep(site, j, h)) && !Strands(site, j, h)
  {
    hide Step, Emitted, Relay, Allowed, EventAt, Received, Heard, Steady;
    EventKinds(site, j.tables, h);
    var t, e, k := Received(j.tables, h), EventAt(site, j.tables, h), JointStep(site, j, h);
    forall c: ClientId | Current(k.server.svc, c) != [] ensures Heard(k.tables, c, site.spatial) {
      if h.AtBroker? && h.message == B.ClientDisconnect(c) {
        LeaverForgotten(site, j, h, c);
      } else {
        if e.Some? && e.value.Position? && e.value.client == c {
          assert Heard(j.tables, c, site.spatial);
        } else if e.Some? {
          OthersKept(site, j.server, t, e.value, c);
        }
        ReceivedKeepsHeard(site, j.tables, h, c);
        if e.Some? {
          HandledKeepsHeard(site, j.server, t, e.value, c);
        }
      }
    }
  }

  // ---------------------------------------------------------------- all runs

  lemma {:induction false} JointIdsGrow(site: Site, j: Joint, h: Happening)
    ensures j.server.svc.nextId <= JointStep(site, j, h).server.svc.nextId
  {
    hide EventAt, Received, Relay, Emitted, Step;
    var e := EventAt(site, j.tables, h);
    if e.Some? {
      SpatialLocks.StepIdsGrow(j.server, e.value);
    }
  }

  lemma {:induction false} InitialGood(site: Site)
    requires Sound(site.world)
    ensures Good(site, JointAfter(site, [])) && Tethered(site, JointAfter(site, []))
  {
    ReachableInv(site.world, []);
    assert After(site.world, []) == Initial(site.world);
  }

  /**
   * Subscriptions agree: over every history of messages at the broker, and of Ready signals and crash
   * reports, the shard topics the broker has for a client are exactly the shards the spatial server has
   * on record for it. Nothing is assumed of positions and departures: whoever sends them, repeats them or
   * leaves unheard, the broker forwards what its own tables say.
   */
  lemma {:induction false} SubscriptionsAgree(site: Site, hs: seq<Happening>)
    requires Sound(site.world) && JointAfter(site, hs).server.svc.nextId <= U32
    requires forall i :: 0 <= i < |hs| ==> Allowed(site, hs[i]) && Steady(site, hs[i])
    ensures Good(site, JointAfter(site, hs)) && Tethered(site, JointAfter(site, hs))
  {
    hide Good, Tethered, JointStep, Allowed, Steady, Strands;
    if hs == [] {
      InitialGood(site);
    } else {
      var front, last := hs[..|hs| - 1], hs[|hs| - 1];
      var j := JointAfter(site, front);
      JointIdsGrow(site, j, last);
      SubscriptionsAgree(site, front);
      TetheredStep(site, j, last);
      JointExact(site, j, last);
    }
  }

  /** The two servers agree at every moment of the run. */
  ghost predicate AlwaysGood(site: Site, hs: seq<Happening>) {
    forall i :: 0 <= i <= |hs| ==> Good(site, JointAfter(site, hs[..i]))
  }

  /** No departure of the run strands a client. */
  ghost predicate NeverStrands(site: Site, hs: seq<Happening>) {
    forall i :: 0 <= i < |hs| ==> !Strands(site, JointAfter(site, hs[..i]), hs[i])
  }

  lemma {:induction false} AlwaysGoodSnoc(site: Site, hs: seq<Happening>)
    requires hs != []
    ensures AlwaysGood(site, hs) <==> AlwaysGood(site, hs[..|hs| - 1]) && Good(site, JointAfter(site, hs))
  {
    hide Good, JointAfter;
    var front, n := hs[..|hs| - 1], |hs| - 1;
    assert hs[..n + 1] == hs;
    forall i | 0 <= i <= n ensures hs[..i] == front[..i] {}
    if AlwaysGood(site, front) && Good(site, JointAfter(site, hs)) {
      forall i | 0 <= i <= |hs| ensures Good(site, JointAfter(site, hs[..i])) {
        assert i <= n ==> Good(site, JointAfter(site, front[..i]));
      }
    }
    if AlwaysGood(site, hs) {
      assert Good(site, JointAfter(site, hs[..n + 1]));
      forall i | 0 <= i <= |front| ensures Good(site, JointAfter(site, front[..i])) {
        assert Good(site, JointAfter(site, hs[..i]));
      }
    }
  }

  lemma {:induction false} NeverStrandsSnoc(site: Site, hs: seq<Happening>)
    requires hs != []
    ensures var front := hs[..|hs| - 1];
            NeverStrands(site, hs)
            <==> NeverStrands(site, front) && !Strands(site, JointAfter(site, front), hs[|hs| - 1])
  {
    hide Strands, JointAfter;
    var front, n := hs[..|hs| - 1], |hs| - 1;
    forall i | 0 <= i <= n ensures hs[..i] == front[..i] {}
    assert front[..n] == front;
    if NeverStrands(site, front) && !Strands(site, JointAfter(site, front), hs[n]) {
      forall i | 0 <= i < |hs| ensures !Strands(site, JointAfter(site, hs[..i]), hs[i]) {
        assert i < n ==> !Strands(site, JointAfter(site, front[..i]), front[i]);
      }
    }
    if NeverStrands(site, hs) {
      assert !Strands(site, JointAfter(site, hs[..n]), hs[n]);
      forall i | 0 <= i < |front| ensures !Strands(site, JointAfter(site, front[..i]), front[i]) {
        assert !Strands(site, JointAfter(site, hs[..i]), hs[i]);
      }
    }
  }

  lemma {:induction false} AlwaysGoodNow(site: Site, hs: seq<Happening>)
    requires AlwaysGood(site, hs)
    ensures Good(site, JointAfter(site, hs))
  {
    hide Good, JointAfter;
    assert hs[..|hs|] == hs;
  }

  lemma {:induction false} NothingYet(site: Site)
    requires Sound(site.world)
    ensures AlwaysGood(site, []) && NeverStrands(site, [])
  {
    hide Good, JointAfter;
    var none: seq<Happening> := [];
    InitialGood(site);
    assert forall i :: 0 <= i <= 0 ==> none[..i] == none;
  }

  /**
   * Without assuming that clients stay subscribed to the spatial topic: the two servers agree at every
   * moment of a run if and only if no departure of the run strands a client.
   */
  lemma {:induction false} AgreementExact(site: Site, hs: seq<Happening>)
    requires Sound(site.world) && JointAfter(site, hs).server.svc.nextId <= U32
    requires forall i :: 0 <= i < |hs| ==> Allowed(site, hs[i])
    ensures AlwaysGood(site, hs) <==> NeverStrands(site, hs)
  {
    hide Good, JointStep, Allowed, Strands, AlwaysGood, NeverStrands;
    if hs == [] {
      NothingYet(site);
    } else {
      var front, last := hs[..|hs| - 1], hs[|hs| - 1];
      var j := JointAfter(site, front);
      JointIdsGrow(site, j, last);
      AgreementExact(site, front);
      AlwaysGoodSnoc(site, hs);
      NeverStrandsSnoc(site, hs);
      if AlwaysGood(site, front) {
        AlwaysGoodNow(site, front);
        JointExact(site, j, last);
      }
    }
  }

  // ---------------------------------------------------------------- what the broker sends the spatial server

  /** The spatial server is the authority of no topic but its own, and no client is at its address. */
  ghost predicate OnlySpatial(t: B.Tables, src: B.Addr) {
    && (forall topic :: topic in t.routes && t.routes[topic].authority == src ==> topic == B.SPATIAL_TOPIC)
    && (forall c :: c in t.addresses ==> t.addresses[c] != src)
  }

  lemma {:induction false} ReceivedKeepsOnlySpatial(site: Site, t: B.Tables, h: Happening)
    requires OnlySpatial(t, site.spatial) && Allowed(site, h)
    ensures OnlySpatial(Received(t, h), site.spatial)
  {
    hide Harmless, NamesShard, B.TopicsOf;
  }

  lemma {:induction false} JointKeepsOnlySpatial(site: Site, j: Joint, h: Happening)
    requires OnlySpatial(j.tables, site.spatial) && Allowed(site, h)
    ensures OnlySpatial(JointStep(site, j, h).tables, site.spatial)
  {
    hide Step, Emitted, Relay, EventAt, Allowed, Received;
    var e := EventAt(site, j.tables, h);
    ReceivedKeepsOnlySpatial(site, j.tables, h);
    if e.Some? {
      RelayKeepsAuthorities(Received(j.tables, h), Emitted(j.server, e.value), site.spatial);
    }
  }

  lemma {:induction false} SpatialRouteOnly(site: Site, hs: seq<Happening>)
    requires forall i :: 0 <= i < |hs| ==> Allowed(site, hs[i])
    ensures OnlySpatial(JointAfter(site, hs).tables, site.spatial)
  {
    hide JointStep, Allowed;
    if hs != [] {
      SpatialRouteOnly(site, hs[..|hs| - 1]);
      JointKeepsOnlySpatial(site, JointAfter(site, hs[..|hs| - 1]), hs[|hs| - 1]);
    }
  }

  /** The datagrams of a list of packets that go to one address, in order. */
  ghost function SentTo(sent: seq<B.Packet>, a: B.Addr): seq<Bytes> {
    if sent == [] then []
    else
      var p := sent[|sent| - 1];
      SentTo(sent[..|sent| - 1], a) + if p.to == a then [p.data] else []
  }

  lemma {:induction false} SentNowhere(sent: seq<B.Packet>, a: B.Addr)
    requires forall i :: 0 <= i < |sent| ==> sent[i].to != a
    ensures SentTo(sent, a) == []
  {
    if sent != [] {
      SentNowhere(sent[..|sent| - 1], a);
    }
  }

  lemma {:induction false} SentOnce(sent: seq<B.Packet>, a: B.Addr, k: nat)
    requires k < |sent| && sent[k].to == a && forall i :: 0 <= i < |sent| && i != k ==> sent[i].to != a
    ensures SentTo(sent, a) == [sent[k].data]
  {
    var front := sent[..|sent| - 1];
    if k == |sent| - 1 {
      SentNowhere(front, a);
    } else {
      SentOnce(front, a, k);
    }
  }

  lemma {:induction false} FanOutToSpatial(t: B.Tables, c: ClientId, data: Bytes, sent: seq<B.Packet>, src: B.Addr)
    requires OnlySpatial(t, src) && B.FanOut(t, c, data, sent)
    ensures SentTo(sent, src) == if Heard(t, c, src) then [data] else []
  {
    var order :| B.Enumerates(order, B.Routed(t, c)) && |sent| == |order|
      && forall i :: 0 <= i < |order| ==>
           order[i] in t.routes && sent[i] == B.Packet(t.routes[order[i]].authority, data);
    if Heard(t, c, src) {
      assert B.SPATIAL_TOPIC in B.Routed(t, c);
      var k :| 0 <= k < |order| && order[k] == B.SPATIAL_TOPIC;
      SentOnce(sent, src, k);
    } else {
      forall i | 0 <= i < |sent| ensures sent[i].to != src {
        assert order[i] in order && order[i] in B.Routed(t, c);
      }
      SentNowhere(sent, src);
    }
  }

  lemma {:induction false} OneToSpatial(p: B.Packet, src: B.Addr)
    ensures SentTo([p], src) == if p.to == src then [p.data] else []
    ensures SentTo([], src) == []
  {
    if p.to == src { SentOnce([p], src, 0); } else { SentNowhere([p], src); }
  }

  /**
   * In every run, whatever message the broker receives, it sends the spatial server exactly the one
   * datagram that `ToSpatial` says, or none, in whatever order it goes through its tables.
   */
  lemma {:induction false} ForwardingExact(site: Site, hs: seq<Happening>, m: B.Message, from: B.Addr,
          sent: seq<B.Packet>)
    requires forall i :: 0 <= i < |hs| ==> Allowed(site, hs[i])
    requires B.Sends(JointAfter(site, hs).tables, m, from, sent)
    ensures var p := ToSpatial(JointAfter(site, hs).tables, m, site.spatial);
            SentTo(sent, site.spatial) == if p.Some? then [p.value] else []
  {
    hide JointAfter, Allowed, Heard, B.FanOut, LE32, ShardTopic, SentTo;
    SpatialRouteOnly(site, hs);
    var t, src := JointAfter(site, hs).tables, site.spatial;
    match m
    case ClientInput(c, input) =>
      if 5 + |input| <= B.INPUT_LIMIT { FanOutToSpatial(t, c, [5] + LE32(c) + input, sent, src); }
          else { SentNowhere(sent, src); }
    case ClientDisconnect(c) => FanOutToSpatial(t, c, [7] + LE32(c), sent, src);
    case RouteToTopic(topic, payload) => OneToSpatial(if sent != [] then sent[0] else B.Packet(0, []), src);
    case ServerReady(data) => OneToSpatial(if sent != [] then sent[0] else B.Packet(0, []), src);
    case Authority(c, a, b, data) =>
      ShardTopicsApart(a);
      ShardTopicsApart(b);
      SentNowhere(sent, src);
    case _ => SentNowhere(sent, src);
  }

  /**
   * In every run the broker sends the spatial server exactly one copy of a departure that it is able
   * to hear of, and none of any other.
   */
  lemma {:induction false} DepartureReportedOnce(site: Site, hs: seq<Happening>, c: ClientId, from: B.Addr,
          sent: seq<B.Packet>)
    requires forall i :: 0 <= i < |hs| ==> Allowed(site, hs[i])
    requires B.Sends(JointAfter(site, hs).tables, B.ClientDisconnect(c), from, sent)
    ensures SentTo(sent, site.spatial) == if Heard(JointAfter(site, hs).tables, c, site.spatial)
        then [[7] + LE32(c)] else []
  {
    hide JointAfter, Allowed, Heard, B.FanOut, LE32, SentTo;
    ForwardingExact(site, hs, B.ClientDisconnect(c), from, sent);
  }

  // ---------------------------------------------------------------- a departure nobody reports

  lemma {:induction false} JointLast(site: Site, hs: seq<Happening>, h: Happening)
    ensures JointAfter(site, hs + [h]) == JointStep(site, JointAfter(site, hs), h)
  {
    hide JointStep;
    assert (hs + [h])[..|hs + [h]| - 1] == hs;
  }

  /** The spatial server registers, and client 1 at address `a` subscribes to its topic. */
  ghost function Arrival(site: Site, a: B.Addr): seq<Happening> {
    [AtBroker(B.RegisterShard(B.SPATIAL_TOPIC), site.spatial)] + [AtBroker(B.Subscribe(1, B.SPATIAL_TOPIC), a)]
  }

  /** It then reports its position. */
  ghost function Tracked(site: Site, a: B.Addr, x: nat, y: nat): seq<Happening>
    requires x < U32 && y < U32
  {
    Arrival(site, a) + [AtBroker(B.ClientInput(1, [16] + LE32(x) + LE32(y)), a)]
  }

  /** It unsubscribes from the spatial topic and leaves. */
  ghost function Strayed(site: Site, a: B.Addr, x: nat, y: nat): seq<Happening>
    requires x < U32 && y < U32
  {
    Tracked(site, a, x, y) + [AtBroker(B.Unsubscribe(1, B.SPATIAL_TOPIC), a)] + [AtBroker(B.ClientDisconnect(1), a)]
  }

  lemma {:induction false} PlainStep(site: Site, j: Joint, m: B.Message, from: B.Addr)
    requires ToSpatial(j.tables, m, site.spatial).None?
    ensures JointStep(site, j, AtBroker(m, from)) == Joint(j.server, B.Next(j.tables, m, from))
  {
  }

  lemma {:induction false} EnrolledTables(topic: Bytes, src: B.Addr, a: B.Addr)
    ensures var t := B.Next(B.Next(B.NO_TABLES, B.RegisterShard(topic), src), B.Subscribe(1, topic), a);
            topic in B.TopicsOf(t, 1) && topic in t.routes && t.routes[topic].authority == src
  {
  }

  lemma {:induction false} SpatialIsNoShard()
    ensures !NamesShard(B.SPATIAL_TOPIC)
  {
    hide ShardTopic;
    if NamesShard(B.SPATIAL_TOPIC) {
      var n :| 0 <= n < U32 && B.SPATIAL_TOPIC == ShardTopic(n);
      ShardTopicsApart(n);
    }
  }

  lemma {:induction false} Arrived(site: Site, a: B.Addr)
    ensures var j := JointAfter(site, Arrival(site, a));
            j.server == Initial(site.world) && Heard(j.tables, 1, site.spatial)
  {
    hide JointStep, TopicOf, Initial, B.Next;
    var none: seq<Happening> := [];
    var one, two := AtBroker(B.RegisterShard(B.SPATIAL_TOPIC), site.spatial),
        AtBroker(B.Subscribe(1, B.SPATIAL_TOPIC), a);
    assert none + [one] == [one];
    JointLast(site, none, one);
    JointLast(site, [one], two);
    PlainStep(site, Joint(Initial(site.world), B.NO_TABLES), one.message, one.from);
    PlainStep(site, JointAfter(site, [one]), two.message, two.from);
    EnrolledTables(B.SPATIAL_TOPIC, site.spatial, a);
  }

  lemma {:induction false} ArrivalAllowed(site: Site, a: B.Addr, x: nat, y: nat)
    requires x < U32 && y < U32 && a != site.spatial
    ensures forall i :: 0 <= i < |Tracked(site, a, x, y)| ==>
              Allowed(site, Tracked(site, a, x, y)[i]) && Steady(site, Tracked(site, a, x, y)[i])
  {
    hide TopicOf, LE32, NamesShard;
    SpatialIsNoShard();
  }

  lemma {:induction false} PositionStep(site: Site, j: Joint, h: Happening, pos: Vec2)
    requires EventAt(site, j.tables, h) == Some(Position(1, pos))
    ensures JointStep(site, j, h).server == OnPosition(j.server, 1, pos)
  {
    hide EventAt, Relay, Emitted, OnPosition;
  }

  lemma {:induction false} RootNear(w: World, pos: Vec2)
    requires Contains(w.bounds, pos)
    ensures 0 in NearAt(Initial(w).svc.tree, map[], w.margin, pos)
  {
    assert PrimaryAt(Initial(w).svc.tree, map[], pos) == Some(0);
  }

  /** The position of client 1 goes through the broker and gives it shard 0. */
  lemma {:induction false} FirstPosition(site: Site, a: B.Addr, x: nat, y: nat)
    requires Sound(site.world) && x < U32 && y < U32 && a != site.spatial
    requires Contains(site.world.bounds, Vec2(site.float(x), site.float(y)))
    ensures var j := JointAfter(site, Tracked(site, a, x, y));
            Good(site, j) && j.server.svc.nextId <= U32 && 0 in Current(j.server.svc, 1)
  {
    hide JointStep, JointAfter, Good, Allowed, Steady, OnPosition, PositionUpdate, ParseSpatial, LE32, Heard, NearAt,
        Relay;
    var input := [16] + LE32(x) + LE32(y);
    var h, pos := AtBroker(B.ClientInput(1, input), a), Vec2(site.float(x), site.float(y));
    var j := JointAfter(site, Arrival(site, a));
    Arrived(site, a);
    JointLast(site, Arrival(site, a), h);
    PositionReads(1, x, y);
    PositionStep(site, j, h, pos);
    SubscribedAfter(j.server, 1, pos);
    RootNear(site.world, pos);
    SpatialLocks.StepIdsGrow(j.server, Position(1, pos));
    ArrivalAllowed(site, a, x, y);
    SubscriptionsAgree(site, Tracked(site, a, x, y));
  }

  lemma {:induction false} UnsubscribedUnheard(t: B.Tables, a: B.Addr, src: B.Addr)
    ensures !Heard(B.Next(t, B.Unsubscribe(1, B.SPATIAL_TOPIC), a), 1, src)
  {
    hide TopicOf;
  }

  /**
   * "Both servers always agree" is false: a client that the broker has forwarded unsubscribes from the
   * spatial topic and leaves; nobody reports it, and the spatial server keeps shards the broker dropped.
   */
  lemma {:induction false} UnheardLeaveDesyncs(site: Site, a: B.Addr, x: nat, y: nat)
    requires Sound(site.world) && x < U32 && y < U32 && a != site.spatial
    requires Contains(site.world.bounds, Vec2(site.float(x), site.float(y)))
    ensures Heard(JointAfter(site, Arrival(site, a)).tables, 1, site.spatial)
    ensures forall i :: 0 <= i < |Strayed(site, a, x, y)| ==> Allowed(site, Strayed(site, a, x, y)[i])
    ensures var j := JointAfter(site, Strayed(site, a, x, y));
            !Synced(j.tables, j.server.svc, 1)
  {
    hide JointStep, JointAfter, Good, Heard, Synced, LE32, TopicOf, NamesShard, Arrival;
    Arrived(site, a);
    FirstPosition(site, a, x, y);
    ArrivalAllowed(site, a, x, y);
    SpatialIsNoShard();
    var hs := Tracked(site, a, x, y);
    var h, l := AtBroker(B.Unsubscribe(1, B.SPATIAL_TOPIC), a), AtBroker(B.ClientDisconnect(1), a);
    var j := JointAfter(site, hs);
    var k := JointStep(site, j, h);
    JointLast(site, hs, h);
    JointLast(site, hs + [h], l);
    PlainStep(site, j, h.message, a);
    UnsubscribedUnheard(j.tables, a, site.spatial);
    JointExact(site, j, h);
    LeaveExact(site, k, 1, a);
    assert forall i :: 0 <= i < |Strayed(site, a, x, y)| ==>
      Strayed(site, a, x, y)[i] == if i < |hs| then hs[i] else if i == |hs| then h else l;
  }
}
