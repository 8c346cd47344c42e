/** From the spatial server through the broker to the game servers: who owns a player. */
module Ownership {
  import opened Options
  import opened Wire
  import Spatial
  import opened SpatialRuns
  import BrokerModel
  import opened Dedicated
  import opened Geometry
  import opened SpatialInvariant
  import opened Trees
  import opened TreeSurgery
  import opened SpatialLocks
  import SpatialPackets

  const NOT_JSON := JsonReading(false, false)

  /** The packet the spatial server sends for an AuthorityChange. */
  function EncodeChange(c: ClientId, src: nat, dst: nat): Bytes
    requires src < U32 && dst < U32
  {
    [18] + LE32(c) + LE32(src) + LE32(dst)
  }

  lemma {:induction false} ChangeParses(c: ClientId, src: nat, dst: nat)
    requires src < U32 && dst < U32
    ensures var packet := EncodeChange(c, src, dst);
            && BrokerModel.Parse(packet) == BrokerModel.Authority(c, src, dst, packet[1..])
            && [18] + packet[1..] == packet
            && ParseGame(packet) == AuthorityChange(c, src, dst)
            && packet == SpatialPackets.EncodeAction(Spatial.AuthorityChange(c, src, dst))
  {
    hide LE32, FromLE32, IdsFrom;
    LE32RoundTrip(c);
    LE32RoundTrip(src);
    LE32RoundTrip(dst);
    var packet := EncodeChange(c, src, dst);
    assert packet[1..5] == LE32(c) && packet[5..9] == LE32(src) && packet[9..13] == LE32(dst);
    var data := packet[1..];
    assert data[..4] == LE32(c) && data[4..8] == LE32(src) && data[8..12] == LE32(dst);
  }

  /** Hand each packet to the game server at its address; other addresses are not game servers. */
  ghost function Deliver(hosts: map<nat, Host>, sent: seq<BrokerModel.Packet>, json: JsonReading): map<nat, Host> {
    if sent == [] then hosts
    else
      var before := Deliver(hosts, sent[..|sent| - 1], json);
      var p := sent[|sent| - 1];
      if p.to in before then before[p.to := HostStep(before[p.to], ParseGame(p.data), json)] else before
  }

  /** An AuthorityChange on its way: the broker's copies, delivered in order. */
  ghost function DeliverChange(t: BrokerModel.Tables, hosts: map<nat, Host>, c: ClientId, src: nat,
          dst: nat): map<nat, Host>
    requires src < U32 && dst < U32
  {
    var data := EncodeChange(c, src, dst)[1..];
    Deliver(hosts, BrokerModel.AuthoritySends(t, c, src, dst, data), NOT_JSON)
  }

  /** The game server the broker routes the shard to. */
  ghost function HostOf(t: BrokerModel.Tables, n: nat): nat
    requires ShardTopic(n) in t.routes
  {
    t.routes[ShardTopic(n)].authority
  }

  /** The broker routes the shard to a game server, and that server alone lists it. */
  ghost predicate Placed(t: BrokerModel.Tables, hosts: map<nat, Host>, n: nat) {
    && ShardTopic(n) in t.routes && HostOf(t, n) in hosts
    && forall a :: a in hosts ==> (n in hosts[a].shards <==> a == HostOf(t, n))
  }

  /** Game servers keep their books, and no client is at the address of one. */
  ghost predicate Sane(t: BrokerModel.Tables, hosts: map<nat, Host>) {
    && (forall a :: a in hosts ==> HostInv(hosts[a]))
    && (forall c :: c in t.addresses ==> t.addresses[c] !in hosts)
  }

  ghost predicate OwnedBy(h: Host, c: ClientId) {
    c in h.registry && h.registry[c] in h.authority && h.authority[h.registry[c]] == Owned
  }

  /** Only the host of shard `n`, if anybody, owns the player. */
  ghost predicate NoOtherOwner(t: BrokerModel.Tables, hosts: map<nat, Host>, c: ClientId, n: nat)
    requires ShardTopic(n) in t.routes
  {
    forall a :: a in hosts && OwnedBy(hosts[a], c) ==> a == HostOf(t, n)
  }

  /** The host of shard `n` owns the player or, where `owns` is false, nobody does; no other server ever does. */
  ghost predicate OwnerIs(t: BrokerModel.Tables, hosts: map<nat, Host>, c: ClientId, n: nat, owns: bool)
    requires ShardTopic(n) in t.routes
  {
    forall a :: a in hosts ==> (OwnedBy(hosts[a], c) <==> a == HostOf(t, n) && owns)
  }

  /** The host of shard `n` has the player in its registry, as its own or as a ghost. */
  ghost predicate Knows(t: BrokerModel.Tables, hosts: map<nat, Host>, c: ClientId, n: nat) {
    ShardTopic(n) in t.routes && HostOf(t, n) in hosts && c in hosts[HostOf(t, n)].registry
  }

  /** The same servers with the same shards and players; only authorities of `c` may differ. */
  ghost predicate OnlyAuthorityOf(before: map<nat, Host>, after: map<nat, Host>, c: ClientId) {
    && before.Keys == after.Keys
    && forall a :: a in before ==>
         && after[a].shards == before[a].shards && after[a].registry == before[a].registry
         && (HostInv(before[a]) ==> HostInv(after[a]))
         && (HostInv(before[a]) ==> forall d :: d != c ==> (OwnedBy(after[a], d) <==> OwnedBy(before[a], d)))
  }

  lemma {:induction false} SetAuthorityOwns(h: Host, c: ClientId, a: Authority, d: ClientId)
    requires HostInv(h)
    ensures OwnedBy(SetAuthority(h, c, a), d) <==> if d == c && c in h.registry then a == Owned else OwnedBy(h, d)
  {
    if c in h.registry && d in h.registry && d != c {
      assert h.registry[c] != h.registry[d];
    }
  }

  lemma {:induction false} SwitchEffect(h: Host, c: ClientId, src: nat, dst: nat)
    requires HostInv(h)
    ensures var u := Switched(h, c, src, dst);
            && HostInv(u) && u.shards == h.shards && u.registry == h.registry
            && (forall d :: d != c ==> (OwnedBy(u, d) <==> OwnedBy(h, d)))
            && (c in h.registry ==> (OwnedBy(u, c) <==> dst in h.shards || (src !in h.shards && OwnedBy(h, c))))
  {
    hide HostInv, OwnedBy;
    SetAuthorityKeeps(h, c, Owned);
    SetAuthorityKeeps(h, c, Ghost);
    forall d: ClientId
      ensures OwnedBy(SetAuthority(h, c, Owned), d) <==> if d == c && c in h.registry then true else OwnedBy(h, d)
      ensures OwnedBy(SetAuthority(h, c, Ghost), d) <==> if d == c && c in h.registry then false else OwnedBy(h, d)
    {
      SetAuthorityOwns(h, c, Owned, d);
      SetAuthorityOwns(h, c, Ghost, d);
    }
  }

  /** Deliver the change to one address. */
  ghost function At(hosts: map<nat, Host>, a: nat, c: ClientId, src: nat, dst: nat): map<nat, Host> {
    if a in hosts then hosts[a := Switched(hosts[a], c, src, dst)] else hosts
  }

  lemma {:induction false} DeliverSnoc(hosts: map<nat, Host>, sent: seq<BrokerModel.Packet>, p: BrokerModel.Packet,
          json: JsonReading)
    ensures Deliver(hosts, sent + [p], json) ==
            (var before := Deliver(hosts, sent, json);
             if p.to in before then before[p.to := HostStep(before[p.to], ParseGame(p.data), json)] else before)
  {
    assert (sent + [p])[..|sent + [p]| - 1] == sent;
  }

  /** Deliver the change to the server of a shard, if the broker has a route for it. */
  ghost function AtShard(t: BrokerModel.Tables, hosts: map<nat, Host>, n: nat, c: ClientId, src: nat,
          dst: nat): map<nat, Host> {
    if ShardTopic(n) in t.routes then At(hosts, HostOf(t, n), c, src, dst) else hosts
  }

  lemma {:induction false} DeliverNothing(hosts: map<nat, Host>)
    ensures Deliver(hosts, [], NOT_JSON) == hosts
  {
  }

  /** The copy for one shard, if there is one, reaches its server. */
  lemma {:induction false} DeliverToShard(t: BrokerModel.Tables, hosts: map<nat, Host>, sent: seq<BrokerModel.Packet>,
          n: nat,
          c: ClientId, src: nat, dst: nat)
    requires src < U32 && dst < U32
    ensures Deliver(hosts, sent + BrokerModel.ToTopic(t, ShardTopic(n), EncodeChange(c, src, dst)), NOT_JSON)
         == AtShard(t, Deliver(hosts, sent, NOT_JSON), n, c, src, dst)
  {
    hide ParseGame, EncodeChange, Switched, ShardTopic, Deliver;
    ChangeParses(c, src, dst);
    if ShardTopic(n) in t.routes {
      DeliverSnoc(hosts, sent, BrokerModel.Packet(HostOf(t, n), EncodeChange(c, src, dst)), NOT_JSON);
    } else {
      assert sent + [] == sent;
    }
  }

  /** The copies reach the server of the old shard and then that of the new one, where there is one, and nobody else. */
  lemma {:induction false} ChangeReachesBoth(t: BrokerModel.Tables, hosts: map<nat, Host>, c: ClientId, src: nat,
          dst: nat)
    requires src < U32 && dst < U32
    requires c in t.addresses ==> t.addresses[c] !in hosts
    ensures DeliverChange(t, hosts, c, src, dst) == AtShard(t, AtShard(t, hosts, src, c, src, dst), dst, c, src, dst)
  {
    hide ParseGame, EncodeChange, Switched, BrokerModel.Parse, ShardTopic, AtShard, Deliver, BrokerModel.ToTopic;
    ChangeParses(c, src, dst);
    var packet := EncodeChange(c, src, dst);
    var first := BrokerModel.ToClient(t, c, packet);
    DeliverNothing(hosts);
    if c in t.addresses {
      assert first == [] + [first[0]];
      DeliverSnoc(hosts, [], first[0], NOT_JSON);
    } else {
      assert first == [];
    }
    DeliverToShard(t, hosts, first, src, c, src, dst);
    DeliverToShard(t, hosts, first + BrokerModel.ToTopic(t, ShardTopic(src), packet), dst, c, src, dst);
  }

  lemma {:induction false} OwnedIsKnown(h: Host, c: ClientId)
    ensures OwnedBy(h, c) ==> c in h.registry
  {
  }

  /** What the two deliveries do to one game server. */
  lemma {:induction false} ChangeAtHost(t: BrokerModel.Tables, hosts: map<nat, Host>, c: ClientId, src: nat, dst: nat,
          a: nat)
    requires Placed(t, hosts, src) && Placed(t, hosts, dst) && a in hosts && HostInv(hosts[a])
    ensures var after := At(At(hosts, HostOf(t, src), c, src, dst), HostOf(t, dst), c, src, dst);
            && after.Keys == hosts.Keys
            && HostInv(after[a]) && after[a].shards == hosts[a].shards && after[a].registry == hosts[a].registry
            && (forall d :: d != c ==> (OwnedBy(after[a], d) <==> OwnedBy(hosts[a], d)))
            && (c in hosts[a].registry && (OwnedBy(hosts[a], c) ==> a == HostOf(t, src))
                ==> (OwnedBy(after[a], c) <==> a == HostOf(t, dst)))
  {
    hide HostInv, OwnedBy, Switched, ShardTopic;
    SwitchEffect(hosts[a], c, src, dst);
    SwitchEffect(Switched(hosts[a], c, src, dst), c, src, dst);
  }

  /**
   * Handing a player over: if no server but the host of the old shard owned it, then once both copies
   * arrived the host of the new shard is its only owner if and only if it already knew the player, and
   * else nobody owns it. The two shards may share a host, and nobody else's players change.
   */
  lemma {:induction false} ChangeMovesOwnership(t: BrokerModel.Tables, hosts: map<nat, Host>, c: ClientId, src: nat,
          dst: nat)
    requires Sane(t, hosts) && src < U32 && dst < U32 && Placed(t, hosts, src) && Placed(t, hosts, dst)
    ensures var after := DeliverChange(t, hosts, c, src, dst);
            && OnlyAuthorityOf(hosts, after, c) && Sane(t, after)
            && (NoOtherOwner(t, hosts, c, src) ==> OwnerIs(t, after, c, dst, Knows(t, hosts, c, dst)))
  {
    hide HostInv, OwnedBy, Switched, DeliverChange, ShardTopic;
    ChangeReachesBoth(t, hosts, c, src, dst);
    var after := DeliverChange(t, hosts, c, src, dst);
    forall a | a in hosts
      ensures HostInv(after[a]) && after[a].shards == hosts[a].shards && after[a].registry == hosts[a].registry
      ensures forall d :: d != c ==> (OwnedBy(after[a], d) <==> OwnedBy(hosts[a], d))
      ensures NoOtherOwner(t, hosts, c, src) ==>
                (OwnedBy(after[a], c) <==> a == HostOf(t, dst) && Knows(t, hosts, c, dst))
    {
      ChangeAtHost(t, hosts, c, src, dst, a);
      OwnedIsKnown(hosts[a], c);
      OwnedIsKnown(after[a], c);
    }
  }

  // ---------------------------------------------------------------- what a single packet does

  lemma {:induction false} SpawnOwns(h: Host, c: ClientId, a: Authority, d: ClientId)
    requires HostInv(h) && c !in h.registry
    ensures OwnedBy(Spawn(h, c, a), d) <==> if d == c then a == Owned else OwnedBy(h, d)
  {
  }

  lemma {:induction false} SpawnAllOwns(h: Host, clients: seq<ClientId>, d: ClientId)
    requires HostInv(h)
    ensures OwnedBy(SpawnAll(h, clients), d) <==> OwnedBy(h, d)
  {
    hide HostInv, OwnedBy;
    if clients != [] {
      var front, c := clients[..|clients| - 1], clients[|clients| - 1];
      SpawnAllKeeps(h, front);
      SpawnAllOwns(h, front, d);
      if c !in SpawnAll(h, front).registry {
        SpawnOwns(SpawnAll(h, front), c, Ghost, d);
        OwnedIsKnown(SpawnAll(h, front), d);
      }
    }
  }

  lemma {:induction false} DespawnOwns(h: Host, c: ClientId, d: ClientId)
    requires HostInv(h)
    ensures OwnedBy(Despawn(h, c), d) <==> d != c && OwnedBy(h, d)
  {
    if c in h.registry && d in h.registry && d != c {
      assert h.registry[c] != h.registry[d];
    }
  }

  lemma {:induction false} ShardsOwn(h: Host, shards: seq<nat>, c: ClientId)
    ensures OwnedBy(h.(shards := shards), c) <==> OwnedBy(h, c)
  {
  }

  /**
   * What any packet does to the ownership of a player at one server: a join request takes it, a departure
   * drops it, a change of authority that concerns a hosted shard decides it for a player that is known,
   * and nothing else touches it. In particular a ghost stays a ghost however often it is sighted.
   */
  lemma {:induction false} PacketOwns(h: Host, p: GamePacket, json: JsonReading, c: ClientId)
    requires HostInv(h)
    ensures OwnedBy(HostStep(h, p, json), c) <==>
            match p
            case Json(d) => OwnedBy(h, c) || (d == c && json.isJoin && (c in h.registry ==> !json.isInput))
            case Left(d) => OwnedBy(h, c) && d != c
            case AuthorityChange(d, oldShard, newShard) =>
              if d == c && c in h.registry && (oldShard in h.shards || newShard in h.shards) then newShard in h.shards
              else OwnedBy(h, c)
            case _ => OwnedBy(h, c)
  {
    hide HostInv, OwnedBy;
    OwnedIsKnown(h, c);
    match p
    case AssignShards(ids) => ShardsOwn(h, h.shards + ids, c);
    case Sighted(clients) => SpawnAllOwns(h, clients, c);
    case GhostPosition(d) => if d !in h.registry { SpawnOwns(h, d, Ghost, c); }
    case Json(d) =>
      SetAuthorityOwns(h, d, Owned, c);
      if d !in h.registry { SpawnOwns(h, d, Owned, c); }
    case Left(d) => DespawnOwns(h, d, c);
    case AuthorityChange(d, oldShard, newShard) =>
      SetAuthorityOwns(h, d, Owned, c);
      SetAuthorityOwns(h, d, Ghost, c);
    case Shutdown =>
    case NoPacket =>
  }

  lemma {:induction false} GhostKnown(h: Host, c: ClientId)
    ensures c in HostStep(h, GhostPosition(c), NOT_JSON).registry
  {
  }

  /**
   * The host of the new shard that did not know the player when the change arrived: nobody owns the
   * player, also not when the host hears of it afterwards, until it sends that host a join request or a
   * further change of authority names a shard of that host as the new one.
   */
  lemma {:induction false} LateHostOwnsNothing(t: BrokerModel.Tables, hosts: map<nat, Host>, c: ClientId, src: nat,
          dst: nat, oldShard: nat, newShard: nat)
    requires Sane(t, hosts) && src < U32 && dst < U32 && Placed(t, hosts, src) && Placed(t, hosts, dst)
    requires NoOtherOwner(t, hosts, c, src) && !Knows(t, hosts, c, dst)
    ensures var after := DeliverChange(t, hosts, c, src, dst);
            && (forall a :: a in after ==> !OwnedBy(after[a], c)) && HostOf(t, dst) in after
            && var h := HostStep(after[HostOf(t, dst)], GhostPosition(c), NOT_JSON);
               && c in h.registry && !OwnedBy(h, c)
               && OwnedBy(HostStep(h, Json(c), JsonReading(false, true)), c)
               && (newShard in h.shards ==> OwnedBy(HostStep(h, AuthorityChange(c, oldShard, newShard), NOT_JSON), c))
  {
    hide HostInv, OwnedBy, DeliverChange, ShardTopic, HostStep, NoOtherOwner;
    ChangeMovesOwnership(t, hosts, c, src, dst);
    var h := DeliverChange(t, hosts, c, src, dst)[HostOf(t, dst)];
    var g := HostStep(h, GhostPosition(c), NOT_JSON);
    GhostKnown(h, c);
    HostStepKeeps(h, GhostPosition(c), NOT_JSON);
    PacketOwns(h, GhostPosition(c), NOT_JSON, c);
    PacketOwns(g, Json(c), JsonReading(false, true), c);
    PacketOwns(g, AuthorityChange(c, oldShard, newShard), NOT_JSON, c);
  }

  // ---------------------------------------------------------------- shards that are hosted during the run

  /** The broker's tables and the game servers at one moment. */
  datatype Field = Field(tables: BrokerModel.Tables, hosts: map<nat, Host>)

  /** The broker receives the datagrams of one game server, in order. */
  ghost function Announce(t: BrokerModel.Tables, msgs: seq<Bytes>, a: nat): BrokerModel.Tables {
    if msgs == [] then t
    else BrokerModel.Next(Announce(t, msgs[..|msgs| - 1], a), BrokerModel.Parse(msgs[|msgs| - 1]), a)
  }

  /** The server at `a` is assigned shards, and the broker hears its claims and Readys. */
  ghost function Assigned(f: Field, a: nat, ids: seq<nat>): Field
    requires a in f.hosts
  {
    Field(Announce(f.tables, HostSends(AssignShards(ids)), a),
          f.hosts[a := HostStep(f.hosts[a], AssignShards(ids), NOT_JSON)])
  }

  /**
   * What may happen between two deliveries: placed shards stay where they are, and no server wins or
   * loses the player. Servers may join, take shards, and spawn or drop the player as a ghost.
   */
  ghost predicate Grows(f: Field, g: Field, c: ClientId) {
    && Sane(g.tables, g.hosts)
    && (forall n :: 0 <= n < U32 && Placed(f.tables, f.hosts, n) ==>
          Placed(g.tables, g.hosts, n) && HostOf(g.tables, n) == HostOf(f.tables, n))
    && (forall a :: a in f.hosts ==> a in g.hosts && (OwnedBy(g.hosts[a], c) <==> OwnedBy(f.hosts[a], c)))
    && (forall a :: a in g.hosts && a !in f.hosts ==> !OwnedBy(g.hosts[a], c))
  }

  /** A field that stays as it is has grown, so assignments may come at any moments or at none. */
  lemma {:induction false} StandingStillGrows(f: Field, c: ClientId)
    requires Sane(f.tables, f.hosts)
    ensures Grows(f, f, c)
  {
    hide OwnedBy, ShardTopic;
  }

  /** The packet is no assignment of shards, and neither joins, moves nor removes the player. */
  ghost predicate Harmless(p: GamePacket, c: ClientId) {
    match p
    case AssignShards(_) => false
    case Json(d) => d != c
    case Left(d) => d != c
    case AuthorityChange(d, _, _) => d != c
    case _ => true
  }

  lemma {:induction false} SpawnAllShards(h: Host, clients: seq<ClientId>)
    ensures SpawnAll(h, clients).shards == h.shards
  {
    if clients != [] { SpawnAllShards(h, clients[..|clients| - 1]); }
  }

  lemma {:induction false} PacketShards(h: Host, p: GamePacket, json: JsonReading)
    requires !p.AssignShards?
    ensures HostStep(h, p, json).shards == h.shards
  {
    if p.Sighted? { SpawnAllShards(h, p.clients); }
  }

  /** Every such packet, in particular every sighting that spawns ghosts, at any server is such a growth. */
  lemma {:induction false} PacketGrows(f: Field, a: nat, p: GamePacket, json: JsonReading, c: ClientId)
    requires Sane(f.tables, f.hosts) && a in f.hosts && Harmless(p, c)
    ensures Grows(f, Field(f.tables, f.hosts[a := HostStep(f.hosts[a], p, json)]), c)
  {
    hide HostInv, OwnedBy, ShardTopic;
    HostStepKeeps(f.hosts[a], p, json);
    PacketOwns(f.hosts[a], p, json, c);
    assert HostStep(f.hosts[a], p, json).shards == f.hosts[a].shards by { PacketShards(f.hosts[a], p, json); }
    hide HostStep;
  }

  lemma {:induction false} ClaimReads(id: nat)
    requires id < U32
    ensures BrokerModel.Parse([6] + ShardTopic(id)) == BrokerModel.RegisterShard(ShardTopic(id))
    ensures BrokerModel.Parse([20] + Word(id)) == BrokerModel.ServerReady(Word(id))
  {
    hide ShardTopic, Word;
    assert ([6] + ShardTopic(id))[1..] == ShardTopic(id);
    assert ShardTopic(id)[..32] == ShardTopic(id);
    assert ([20] + Word(id))[1..] == Word(id);
  }

  lemma {:induction false} AnnounceTwo(t: BrokerModel.Tables, msgs: seq<Bytes>, x: Bytes, y: Bytes, a: nat)
    ensures Announce(t, msgs + [x] + [y], a)
         == BrokerModel.Next(BrokerModel.Next(Announce(t, msgs, a), BrokerModel.Parse(x), a), BrokerModel.Parse(y), a)
  {
    hide BrokerModel.Next, BrokerModel.Parse;
    assert (msgs + [x] + [y])[..|msgs| + 1] == msgs + [x];
    assert (msgs + [x])[..|msgs|] == msgs;
  }

  /** The claims of newly assigned shards: the server becomes their authority, and no other route moves. */
  lemma {:induction false} AnnounceClaims(t: BrokerModel.Tables, ids: seq<nat>, a: nat)
    requires forall i :: 0 <= i < |ids| ==> ids[i] < U32
    ensures var u := Announce(t, Announcements(ids), a);
            && u.addresses == t.addresses
            && (forall i :: 0 <= i < |ids| ==> ShardTopic(ids[i]) in u.routes && HostOf(u, ids[i]) == a)
            && (forall topic :: topic in t.routes && (forall i :: 0 <= i < |ids| ==> topic != ShardTopic(ids[i])) ==>
                  topic in u.routes && u.routes[topic] == t.routes[topic])
  {
    hide ShardTopic, Word, BrokerModel.Parse;
    if ids != [] {
      var front, id := ids[..|ids| - 1], ids[|ids| - 1];
      AnnounceClaims(t, front, a);
      ClaimReads(id);
      AnnounceTwo(t, Announcements(front), [6] + ShardTopic(id), [20] + Word(id), a);
      assert forall i :: 0 <= i < |ids| ==> ids[i] == if i < |front| then front[i] else id;
    }
  }

  /** Assigning shards that nobody hosts yet is such a growth, and places each of them. */
  lemma {:induction false} AssignmentGrows(f: Field, a: nat, ids: seq<nat>, c: ClientId)
    requires Sane(f.tables, f.hosts) && a in f.hosts
    requires forall i :: 0 <= i < |ids| ==> ids[i] < U32 && ShardTopic(ids[i]) !in f.tables.routes
    requires forall i, b :: 0 <= i < |ids| && b in f.hosts ==> ids[i] !in f.hosts[b].shards
    ensures Grows(f, Assigned(f, a, ids), c)
    ensures forall i :: 0 <= i < |ids| ==> Placed(Assigned(f, a, ids).tables, Assigned(f, a, ids).hosts, ids[i])
  {
    hide ShardTopic, Announce, Announcements, HostInv;
    var g := Assigned(f, a, ids);
    AnnounceClaims(f.tables, ids, a);
    ShardsIrrelevant(f.hosts[a], f.hosts[a].shards + ids);
    forall n | 0 <= n < U32 && Placed(f.tables, f.hosts, n)
      ensures Placed(g.tables, g.hosts, n) && HostOf(g.tables, n) == HostOf(f.tables, n)
    {
      assert n !in ids;
    }
  }

  // ---------------------------------------------------------------- whole runs

  /** Every AuthorityChange of a list of actions, delivered one after the other. */
  ghost function DeliverActions(t: BrokerModel.Tables, hosts: map<nat, Host>,
          actions: seq<Spatial.SpatialAction>): map<nat, Host> {
    if actions == [] then hosts
    else
      var before := DeliverActions(t, hosts, actions[..|actions| - 1]);
      var a := actions[|actions| - 1];
      if a.AuthorityChange? && a.client < U32 && a.oldShard < U32 && a.newShard < U32
      then DeliverChange(t, before, a.client, a.oldShard, a.newShard) else before
  }

  /** Every change of the list concerns a 32-bit client and only shards of the given set. */
  ghost predicate Within(actions: seq<Spatial.SpatialAction>, shards: set<nat>) {
    forall i :: 0 <= i < |actions| && actions[i].AuthorityChange? ==>
      actions[i].client < U32 && actions[i].oldShard in shards && actions[i].newShard in shards
  }

  ghost predicate AllPlaced(f: Field, shards: set<nat>) {
    forall n :: n in shards ==> n < U32 && Placed(f.tables, f.hosts, n)
  }

  /** Where a chain of changes that starts at `src` ends. */
  ghost function Target(src: nat, l: seq<Handover>): nat {
    if l == [] then src else l[|l| - 1].dst
  }

  /** Each change starts where the previous one ended, the first at `src`. */
  ghost predicate Linked(src: nat, l: seq<Handover>) {
    l == [] || (Linked(src, l[..|l| - 1]) && l[|l| - 1].src == Target(src, l[..|l| - 1]))
  }

  lemma {:induction false} ContiguousIsLinked(l: seq<Handover>)
    requires Contiguous(l)
    ensures Linked(0, l)
  {
    if l != [] {
      var front := l[..|l| - 1];
      assert forall i, j :: 0 <= i && j == i + 1 < |front| ==> front[j] == l[j] && front[i] == l[i];
      ContiguousIsLinked(front);
    }
  }

  lemma {:induction false} LinkedParts(src: nat, a: seq<Handover>, b: seq<Handover>)
    requires Linked(src, a + b)
    ensures Linked(src, a) && Linked(Target(src, a), b) && Target(Target(src, a), b) == Target(src, a + b)
  {
    if b == [] {
      assert a + b == a;
    } else {
      var front := b[..|b| - 1];
      assert (a + b)[..|a + b| - 1] == a + front;
      LinkedParts(src, a, front);
    }
  }

  lemma {:induction false} TargetEmpty(src: nat)
    ensures Target(src, []) == src
  {
  }

  lemma {:induction false} TargetOne(p: nat, src: nat, dst: nat)
    requires Linked(p, [Handover(src, dst)])
    ensures src == p && Target(p, [Handover(src, dst)]) == dst
  {
    var l := [Handover(src, dst)];
    assert l[..|l| - 1] == [];
  }

  /** The same servers with the same players. */
  ghost predicate SameRegistries(before: map<nat, Host>, after: map<nat, Host>) {
    before.Keys == after.Keys && forall a :: a in before ==> after[a].registry == before[a].registry
  }

  /** One delivered change, of `c` or of somebody else. */
  lemma {:induction false} OneMovesOwnership(f: Field, shards: set<nat>, c: ClientId, d: ClientId, src: nat, dst: nat,
          p: nat, owns: bool)
    requires Sane(f.tables, f.hosts) && AllPlaced(f, shards) && src in shards && dst in shards && p in shards
    requires OwnerIs(f.tables, f.hosts, c, p, owns) && (d == c ==> src == p)
    ensures var g := Field(f.tables, DeliverChange(f.tables, f.hosts, d, src, dst));
            && Sane(g.tables, g.hosts) && AllPlaced(g, shards) && SameRegistries(f.hosts, g.hosts)
            && (if d == c then OwnerIs(g.tables, g.hosts, c, dst, Knows(f.tables, f.hosts, c, dst))
                else OwnerIs(g.tables, g.hosts, c, p, owns))
  {
    hide HostInv, OwnedBy, DeliverChange, ShardTopic;
    ChangeMovesOwnership(f.tables, f.hosts, d, src, dst);
    var after := DeliverChange(f.tables, f.hosts, d, src, dst);
    assert forall a :: a in after ==> HostInv(f.hosts[a]) && after[a].registry == f.hosts[a].registry;
  }

  lemma {:induction false} PlacedRouted(f: Field, shards: set<nat>, n: nat)
    requires AllPlaced(f, shards) && n in shards
    ensures n < U32 && ShardTopic(n) in f.tables.routes
  {
  }

  lemma {:induction false} KnowsSame(t: BrokerModel.Tables, before: map<nat, Host>, after: map<nat, Host>, c: ClientId,
          n: nat)
    requires SameRegistries(before, after)
    ensures Knows(t, after, c, n) <==> Knows(t, before, c, n)
  {
  }

  lemma {:induction false} ActionsMoveOwnership(f: Field, shards: set<nat>, c: ClientId,
          actions: seq<Spatial.SpatialAction>, src: nat, owns: bool)
    requires Sane(f.tables, f.hosts) && AllPlaced(f, shards) && Within(actions, shards) && src in shards
    requires Linked(src, Changes(actions, c)) && OwnerIs(f.tables, f.hosts, c, src, owns)
    ensures var g, p := Field(f.tables, DeliverActions(f.tables, f.hosts, actions)), Target(src, Changes(actions, c));
            && Sane(g.tables, g.hosts) && AllPlaced(g, shards) && p in shards && SameRegistries(f.hosts, g.hosts)
            && ShardTopic(p) in f.tables.routes
            && OwnerIs(g.tables, g.hosts, c, p,
                 if Changes(actions, c) == [] then owns else Knows(f.tables, f.hosts, c, p))
  {
    hide Sane, AllPlaced, OwnerIs, Knows, DeliverChange, Target, Linked, ShardTopic;
    if actions == [] {
      TargetEmpty(src);
      PlacedRouted(f, shards, src);
    } else {
      var front, a := actions[..|actions| - 1], actions[|actions| - 1];
      assert Within(front, shards) by { assert forall i :: 0 <= i < |front| ==> front[i] == actions[i]; }
      var tail := if a.AuthorityChange? && a.client == c then [Handover(a.oldShard, a.newShard)] else [];
      assert Changes(actions, c) == Changes(front, c) + tail;
      LinkedParts(src, Changes(front, c), tail);
      ActionsMoveOwnership(f, shards, c, front, src, owns);
      var mid, p := Field(f.tables, DeliverActions(f.tables, f.hosts, front)), Target(src, Changes(front, c));
      var o := if Changes(front, c) == [] then owns else Knows(f.tables, f.hosts, c, p);
      TargetEmpty(p);
      if a.AuthorityChange? {
        assert a == actions[|actions| - 1];
        if a.client == c {
          TargetOne(p, a.oldShard, a.newShard);
        }
        PlacedRouted(f, shards, a.oldShard);
        PlacedRouted(f, shards, a.newShard);
        KnowsSame(f.tables, f.hosts, mid.hosts, c, a.newShard);
        OneMovesOwnership(mid, shards, c, a.client, a.oldShard, a.newShard, p, o);
      }
    }
  }

  ghost predicate Leaves(run: seq<Record>, c: ClientId) {
    exists i :: 0 <= i < |run| && run[i].event == Spatial.Disconnect(c)
  }

  /** Every client that sends a position has a 32-bit id. */
  ghost predicate ClientsFit(run: seq<Record>) {
    forall i :: 0 <= i < |run| && run[i].event.Position? ==> run[i].event.client < U32
  }

  // ---------------------------------------------------------------- which shards a run names

  lemma {:induction false} ScaleShape(s: Spatial.Service, p: Option<nat>)
    ensures forall a :: a in Spatial.ScaleCheck(s, p).actions ==> a.ScaleUp?
  {
  }

  lemma {:induction false} PositionNames(w: Spatial.World, s: Spatial.Server, c: nat, pos: Vec2)
    requires Inv(w, s)
    ensures forall a :: a in Spatial.PositionUpdate(s.svc, c, pos, s.pendingReady).actions && a.AuthorityChange? ==>
              && a.client == c && Settled(s.pendingReady, s.svc, a.newShard)
              && (a.oldShard == 0 || Settled(s.pendingReady, s.svc, a.oldShard))
  {
    hide Spatial.PrimaryAt, Spatial.NearAt, Spatial.ScaleCheck, TreeInv, ReadyInv, GroupInv, Settled;
    var p, near := Spatial.PrimaryAt(s.svc.tree, s.pendingReady, pos),
        Spatial.NearAt(s.svc.tree, s.pendingReady, s.svc.margin, pos);
    PrimarySettled(w, s, pos);
    SubscribeShape(c, near, Spatial.Current(s.svc, c));
    UnsubscribeShape(c, Spatial.Current(s.svc, c), near);
    ScaleShape(Spatial.Moved(s.svc, c, pos, s.pendingReady).service, p);
  }

  /** One step only names the root and settled shards in its changes of authority. */
  lemma {:induction false} RecordNames(w: Spatial.World, s: Spatial.Server, r: Record, told: set<nat>)
    requires Inv(w, s) && Announced(s, told) && Spatial.Emits(s, r.event, r.actions)
    requires r.event.Position? ==> r.event.client < U32
    requires forall c :: c in s.svc.primary ==> c < U32
    ensures Within(r.actions, {0} + told)
    ensures forall c :: c in Spatial.Step(s, r.event).svc.primary ==> c < U32
  {
    hide Spatial.OnPosition, Spatial.OnReady, Spatial.OnDisconnect, Spatial.PositionUpdate, TreeInv, ReadyInv, GroupInv,
      ForceCollapse, TryMerge, Settled;
    match r.event
    case Position(c, pos) =>
      PositionNames(w, s, c, pos);
      PositionChanges(s, c, pos, c);
      assert forall i :: 0 <= i < |r.actions| ==> r.actions[i] in r.actions;
    case Ready(k) => ReadyFrame(s, k);
    case Disconnect(c) => DisconnectChain(s, c, c);
    case Crash(ids) =>
      var order :| Spatial.IsRescueOrder(s.svc, ids, order) && r.actions == Spatial.RescueActions(s.svc, ids, order);
      forall i | 0 <= i < |r.actions|
        ensures r.actions[i].client < U32 && r.actions[i].oldShard in {0} + told && r.actions[i].newShard in {0} + told
      {
        assert order[i] in order;
        RescueLookupFails(s.svc.tree, ids, s.svc.primary[order[i]]);
      }
  }

  /** A run only ever names the root and shards that had signalled Ready before. */
  lemma {:induction false} RunNamesSignalled(w: Spatial.World, run: seq<Record>, i: nat)
    requires Spatial.Sound(w) && IsRun(w, run) && ClientsFit(run) && i < |run|
    ensures Within(run[i].actions, {0} + Signalled(Events(run[..i])))
    ensures forall c :: c in End(w, run).svc.primary ==> c < U32
    decreases |run|
  {
    hide Spatial.Step, Spatial.Emits, Inv, Announced, Within, Signalled;
    var front, last := run[..|run| - 1], run[|run| - 1];
    var s := End(w, front);
    assert ClientsFit(front) by { assert forall j :: 0 <= j < |front| ==> front[j] == run[j]; }
    EndInv(w, front);
    EndIsReachable(w, front);
    SettledHaveSignalled(w, Events(front));
    if front != [] {
      RunNamesSignalled(w, front, if i < |front| then i else 0);
    }
    RecordNames(w, s, last, Signalled(Events(front)));
    if i < |front| {
      assert front[..i] == run[..i] && front[i] == run[i];
    } else {
      assert run[..i] == front;
    }
  }

  // ---------------------------------------------------------------- whole runs

  /** What the deliveries of the last record make of the field that stood before it. */
  ghost function Served(f: Field, grown: seq<Field>, run: seq<Record>): Field
    requires |grown| == |run|
  {
    if run == [] then f
    else
      var g := grown[|grown| - 1];
      Field(g.tables, DeliverActions(g.tables, g.hosts, run[|run| - 1].actions))
  }

  /**
   * Before every record the field has grown from what the deliveries so far made of it, and every shard
   * that has signalled Ready by then is placed.
   */
  ghost predicate Coherent(f: Field, grown: seq<Field>, run: seq<Record>, c: ClientId)
    requires |grown| == |run|
  {
    run != [] ==>
      var n := |run| - 1;
      && Coherent(f, grown[..n], run[..n], c) && Grows(Served(f, grown[..n], run[..n]), grown[n], c)
      && AllPlaced(grown[n], {0} + Signalled(Events(run[..n])))
  }

  /**
   * Whether the host of the player's shard owns it after the run: it owned the player from the start, or
   * it knew the player when the latest change of its authority arrived.
   */
  ghost predicate Knew(f: Field, grown: seq<Field>, run: seq<Record>, c: ClientId)
    requires |grown| == |run|
  {
    if run == [] then
      ShardTopic(0) in f.tables.routes && HostOf(f.tables, 0) in f.hosts && OwnedBy(f.hosts[HostOf(f.tables, 0)], c)
    else
      var n := |run| - 1;
      if Changes(run[n].actions, c) == [] then Knew(f, grown[..n], run[..n], c)
      else Knows(grown[n].tables, grown[n].hosts, c, Target(0, Handovers(run, c)))
  }

  /** Growing keeps the owner of a placed shard. */
  lemma {:induction false} GrowthKeepsOwner(f: Field, g: Field, c: ClientId, p: nat, owns: bool)
    requires Grows(f, g, c) && p < U32 && Placed(f.tables, f.hosts, p) && OwnerIs(f.tables, f.hosts, c, p, owns)
    ensures Sane(g.tables, g.hosts) && Placed(g.tables, g.hosts, p) && OwnerIs(g.tables, g.hosts, c, p, owns)
  {
    hide HostInv, OwnedBy, ShardTopic;
  }

  lemma {:induction false} PlacedIsRouted(f: Field, p: nat)
    requires Placed(f.tables, f.hosts, p)
    ensures ShardTopic(p) in f.tables.routes
  {
  }

  lemma {:induction false} PlacedOne(f: Field, shards: set<nat>, n: nat)
    requires AllPlaced(f, shards) && n in shards
    ensures n < U32 && Placed(f.tables, f.hosts, n)
  {
  }

  /** A chain of changes ends at the root or at a shard that has signalled Ready. */
  lemma {:induction false} TargetWithin(w: Spatial.World, run: seq<Record>, c: ClientId)
    requires Spatial.Sound(w) && IsRun(w, run)
    ensures Target(0, Handovers(run, c)) in {0} + Signalled(Events(run))
  {
    hide Signalled, Handovers;
    AuthorityChain(w, run, c);
    EndIsReachable(w, run);
    ClientsSeeSignalled(w, Events(run), c);
  }

  lemma {:induction false} RunParts(w: Spatial.World, run: seq<Record>, c: ClientId)
    requires IsRun(w, run) && ClientsFit(run) && !Leaves(run, c) && run != []
    ensures var front, last := run[..|run| - 1], run[|run| - 1];
            && IsRun(w, front) && ClientsFit(front) && !Leaves(front, c)
            && Handovers(run, c) == Handovers(front, c) + Changes(last.actions, c)
  {
    hide Spatial.Emits, Changes;
    var front, last := run[..|run| - 1], run[|run| - 1];
    assert forall i :: 0 <= i < |front| ==> front[i] == run[i];
    assert last.event != Spatial.Disconnect(c);
  }

  lemma {:induction false} NoChangesYet(f: Field, c: ClientId)
    ensures Handovers([], c) == []
    ensures Knew(f, [], [], c) <==>
      ShardTopic(0) in f.tables.routes && HostOf(f.tables, 0) in f.hosts && OwnedBy(f.hosts[HostOf(f.tables, 0)], c)
  {
  }

  /** The host of shard 0 is the only owner or there is none. */
  lemma {:induction false} FirstOwner(f: Field, c: ClientId)
    requires Placed(f.tables, f.hosts, 0) && NoOtherOwner(f.tables, f.hosts, c, 0)
    ensures OwnerIs(f.tables, f.hosts, c, 0, Knew(f, [], [], c))
  {
    hide OwnedBy, ShardTopic, Knew;
    NoChangesYet(f, c);
  }

  lemma {:induction false} RunMovesOwnership(w: Spatial.World, f: Field, grown: seq<Field>, c: ClientId,
          run: seq<Record>)
    requires Spatial.Sound(w) && IsRun(w, run) && ClientsFit(run) && !Leaves(run, c) && |grown| == |run|
    requires Coherent(f, grown, run, c) && Sane(f.tables, f.hosts) && Placed(f.tables, f.hosts, 0)
    requires Linked(0, Handovers(run, c)) && NoOtherOwner(f.tables, f.hosts, c, 0)
    ensures var g, p := Served(f, grown, run), Target(0, Handovers(run, c));
            && Sane(g.tables, g.hosts) && p < U32 && Placed(g.tables, g.hosts, p)
            && OwnerIs(g.tables, g.hosts, c, p, Knew(f, grown, run, c))
  {
    hide OwnerIs, NoOtherOwner, Knows, Sane, Placed, AllPlaced, Grows, Within, Signalled, DeliverActions, ShardTopic,
      Linked, Target, IsRun, ClientsFit, Leaves, Handovers, Changes;
    if run == [] {
      PlacedIsRouted(f, 0);
      FirstOwner(f, c);
      NoChangesYet(f, c);
      TargetEmpty(0);
      assert grown == [];
    } else {
      var n := |run| - 1;
      var front, before, last := run[..n], grown[..n], run[n];
      RunParts(w, run, c);
      LinkedParts(0, Handovers(front, c), Changes(last.actions, c));
      RunMovesOwnership(w, f, before, c, front);
      var p, shards := Target(0, Handovers(front, c)), {0} + Signalled(Events(front));
      PlacedIsRouted(Served(f, before, front), p);
      var owns := Knew(f, before, front, c);
      GrowthKeepsOwner(Served(f, before, front), grown[n], c, p, owns);
      PlacedIsRouted(grown[n], p);
      RunNamesSignalled(w, run, n);
      TargetWithin(w, front, c);
      ActionsMoveOwnership(grown[n], shards, c, last.actions, p, owns);
      PlacedOne(Served(f, grown, run), shards, Target(p, Changes(last.actions, c)));
    }
  }

  /**
   * Single owner, end to end: start with no owner of the player but the host of shard 0, if anybody.
   * However the run goes, however many servers and shards join during it and whoever spawns the player
   * as a ghost, once every AuthorityChange it emitted has been relayed and delivered in order, nobody
   * owns the player but the host of the shard the spatial server has on record, and that host owns it if
   * and only if it knew the player when the latest change arrived. No shard needs a host before it has
   * signalled Ready.
   */
  lemma {:induction false} SingleOwnerAtQuiescence(w: Spatial.World, run: seq<Record>, f: Field, grown: seq<Field>,
          c: ClientId)
    requires Spatial.Sound(w) && IsRun(w, run) && ClientsFit(run) && !Leaves(run, c) && |grown| == |run|
    requires Coherent(f, grown, run, c) && Sane(f.tables, f.hosts) && Placed(f.tables, f.hosts, 0)
    requires NoOtherOwner(f.tables, f.hosts, c, 0)
    ensures var g, primary := Served(f, grown, run), End(w, run).svc.primary;
            var p := if c in primary then primary[c] else 0;
            && Placed(g.tables, g.hosts, p)
            && forall a :: a in g.hosts ==>
                 (OwnedBy(g.hosts[a], c) <==> a == HostOf(g.tables, p) && Knew(f, grown, run, c))
  {
    hide NoOtherOwner, Sane, Placed, Coherent, Knew;
    AuthorityChain(w, run, c);
    ContiguousIsLinked(Handovers(run, c));
    RunMovesOwnership(w, f, grown, c, run);
    PlacedIsRouted(Served(f, grown, run), Target(0, Handovers(run, c)));
  }
}
