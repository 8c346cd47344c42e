/** The dedicated game server: its player registry, the authority of its entities, its player count. */
module Dedicated {
  import opened Wire

  datatype Authority = Owned | Ghost

  const USIZE_MAX: nat := 0xFFFF_FFFF_FFFF_FFFF

  datatype Host = Host(
    registry: map<ClientId, nat>,
    authority: map<nat, Authority>,
    count: nat,
    nextEntity: nat,
    shards: seq<nat>)

  const NO_PLAYERS := Host(map[], map[], 0, 0, [])

  datatype GamePacket =
    | AssignShards(ids: seq<nat>)
    | Sighted(clients: seq<ClientId>)
    | GhostPosition(client: ClientId)
    | Json(client: ClientId)
    | Left(client: ClientId)
    | AuthorityChange(client: ClientId, oldShard: nat, newShard: nat)
    | Shutdown
    | NoPacket

  /** Whether the JSON payload of a packet parses as a player input, and as a join request. */
  datatype JsonReading = JsonReading(isInput: bool, isJoin: bool)

  /** Dispatch on the tag byte; a packet too short for its tag is skipped. */
  function ParseGame(packet: Bytes): GamePacket {
    if |packet| < 1 then NoPacket
    else if packet[0] == 23 then Shutdown
    else if |packet| < 5 then NoPacket else
    var id := FromLE32(packet[1..5]);
    match packet[0]
    case 24 => AssignShards(IdsFrom(packet, 5, id, 4))
    case 4 => Sighted(IdsFrom(packet, 5, id, 12))
    case 5 =>
      if |packet| > 5 && packet[5] == 16 then (if |packet| >= 14 then GhostPosition(id) else NoPacket)
      else Json(id)
    case 7 => Left(id)
    case 18 => if |packet| < 13 then NoPacket else AuthorityChange(id, FromLE32(packet[5..9]), FromLE32(packet[9..13]))
    case _ => NoPacket
  }

  // ---------------------------------------------------------------- one packet

  function Spawn(h: Host, c: ClientId, a: Authority): Host {
    h.(registry := h.registry[c := h.nextEntity], authority := h.authority[h.nextEntity := a],
       count := h.count + 1, nextEntity := h.nextEntity + 1)
  }

  function SpawnUnknown(h: Host, c: ClientId, a: Authority): Host {
    if c in h.registry then h else Spawn(h, c, a)
  }

  function SpawnAll(h: Host, clients: seq<ClientId>): Host {
    if clients == [] then h
    else SpawnUnknown(SpawnAll(h, clients[..|clients| - 1]), clients[|clients| - 1], Ghost)
  }

  function SetAuthority(h: Host, c: ClientId, a: Authority): Host {
    if c in h.registry then h.(authority := h.authority[h.registry[c] := a]) else h
  }

  /** An atomic counter wraps below zero. */
  function Decrement(n: nat): nat {
    if n == 0 then USIZE_MAX else n - 1
  }

  function Despawn(h: Host, c: ClientId): Host {
    if c !in h.registry then h
    else h.(registry := h.registry - {c}, authority := h.authority - {h.registry[c]}, count := Decrement(h.count))
  }

  function Joined(h: Host, c: ClientId, json: JsonReading): Host {
    if c in h.registry then (if !json.isInput && json.isJoin then SetAuthority(h, c, Owned) else h)
    else if json.isJoin then Spawn(h, c, Owned) else h
  }

  function Switched(h: Host, c: ClientId, oldShard: nat, newShard: nat): Host {
    if newShard in h.shards then SetAuthority(h, c, Owned)
    else if oldShard in h.shards then SetAuthority(h, c, Ghost)
    else h
  }

  function HostStep(h: Host, p: GamePacket, json: JsonReading): Host {
    match p
    case AssignShards(ids) => h.(shards := h.shards + ids)
    case Sighted(clients) => SpawnAll(h, clients)
    case GhostPosition(c) => SpawnUnknown(h, c, Ghost)
    case Json(c) => Joined(h, c, json)
    case Left(c) => Despawn(h, c)
    case AuthorityChange(c, oldShard, newShard) => Switched(h, c, oldShard, newShard)
    case Shutdown => h
    case NoPacket => h
  }

  /** For each newly assigned shard: the claim of its topic, then its Ready. */
  function Announcements(ids: seq<nat>): seq<Bytes> {
    if ids == [] then []
    else
      var id := ids[|ids| - 1];
      Announcements(ids[..|ids| - 1]) + [[6] + ShardTopic(id)] + [[20] + Word(id)]
  }

  /** What a packet makes the server send to the broker at once. */
  function HostSends(p: GamePacket): seq<Bytes> {
    if p.AssignShards? then Announcements(p.ids) else []
  }

  // ---------------------------------------------------------------- the server

  lemma {:induction false} TopicOfShard(id: nat)
    ensures ShardTopic(id) == TopicOf(SHARD_PREFIX + Decimal(id))
  {
  }

  class DedicatedServer {
    var players: map<ClientId, nat>
    var authority: map<nat, Authority>
    var playerCount: nat
    var nextEntity: nat
    var shards: seq<nat>

    ghost function State(): Host
      reads this
    {
      Host(players, authority, playerCount, nextEntity, shards)
    }

    constructor (shards: seq<nat>)
      ensures State() == NO_PLAYERS.(shards := shards)
    {
      players, authority, playerCount, nextEntity := map[], map[], 0, 0;
      this.shards := shards;
    }

    method SpawnPlayer(c: ClientId, a: Authority)
      modifies this
      ensures State() == Spawn(old(State()), c, a)
    {
      players := players[c := nextEntity];
      authority := authority[nextEntity := a];
      playerCount := playerCount + 1;
      nextEntity := nextEntity + 1;
    }

    /** Host the shards, claim their topics and report each one ready. */
    method TakeShards(ids: seq<nat>) returns (sent: seq<Bytes>)
      modifies this
      ensures State() == old(State()).(shards := old(shards) + ids) && sent == Announcements(ids)
    {
      hide Word, ShardTopic;
      sent := [];
      for i := 0 to |ids|
        invariant State() == old(State()).(shards := old(shards) + ids[..i])
        invariant sent == Announcements(ids[..i])
      {
        shards := shards + [ids[i]];
        var topic := StringToTopic(SHARD_PREFIX + Decimal(ids[i]));
        assert topic == ShardTopic(ids[i]) by { TopicOfShard(ids[i]); }
        sent := sent + [[6] + topic] + [[20] + Word(ids[i])];
        assert ids[..i + 1] == ids[..i] + [ids[i]];
        assert ids[..i + 1][..i] == ids[..i];
      }
      assert ids[..|ids|] == ids;
    }

    /** Handle one datagram; after a shutdown order the process is gone. */
    method HandlePacket(packet: Bytes, json: JsonReading) returns (sent: seq<Bytes>, alive: bool)
      modifies this
      ensures State() == HostStep(old(State()), ParseGame(packet), json)
      ensures sent == HostSends(ParseGame(packet))
      ensures alive <==> !ParseGame(packet).Shutdown?
    {
      hide ParseGame, Announcements;
      sent, alive := [], true;
      match ParseGame(packet) {
        case AssignShards(ids) =>
          sent := TakeShards(ids);
        case Sighted(clients) =>
          for i := 0 to |clients|
            invariant State() == SpawnAll(old(State()), clients[..i])
          {
            assert clients[..i + 1][..i] == clients[..i];
            if clients[i] !in players {
              SpawnPlayer(clients[i], Ghost);
            }
          }
          assert clients[..|clients|] == clients;
        case GhostPosition(c) =>
          if c !in players {
            SpawnPlayer(c, Ghost);
          }
        case Json(c) =>
          if c in players {
            if json.isInput {
            } else if json.isJoin {
              authority := authority[players[c] := Owned];
            }
          } else if json.isJoin {
            SpawnPlayer(c, Owned);
          }
        case Left(c) =>
          if c in players {
            var entity := players[c];
            players := players - {c};
            authority := authority - {entity};
            playerCount := if playerCount == 0 then USIZE_MAX else playerCount - 1;
          }
        case AuthorityChange(c, oldShard, newShard) =>
          var hostsOld, hostsNew := oldShard in shards, newShard in shards;
          if c in players {
            if hostsOld && !hostsNew {
              authority := authority[players[c] := Ghost];
            } else if hostsNew {
              authority := authority[players[c] := Owned];
            }
          }
        case Shutdown => alive := false;
        case NoPacket =>
      }
    }
  }

  // ---------------------------------------------------------------- what every packet keeps

  /** No two players share an entity. */
  ghost predicate Apart(registry: map<ClientId, nat>) {
    forall c, d :: c in registry && d in registry && registry[c] == registry[d] ==> c == d
  }

  /** Some player has the entity. */
  ghost predicate Held(registry: map<ClientId, nat>, e: nat) {
    exists c :: c in registry && registry[c] == e
  }

  /** The count is the number of players, and every player has its own entity with an authority. */
  ghost predicate HostInv(h: Host) {
    && h.count == |h.registry| && Apart(h.registry)
    && (forall c :: c in h.registry ==> h.registry[c] < h.nextEntity && h.registry[c] in h.authority)
    && (forall e :: e in h.authority ==> Held(h.registry, e))
  }

  lemma {:induction false} HeldAfterInsert(r: map<ClientId, nat>, c: ClientId, x: nat, e: nat)
    requires c !in r
    ensures Held(r[c := x], e) <==> Held(r, e) || e == x
  {
    var u := r[c := x];
    assert u[c] == x;
    if Held(r, e) {
      var d :| d in r && r[d] == e;
      assert d in u && u[d] == e;
    }
  }

  lemma {:induction false} HeldAfterRemove(r: map<ClientId, nat>, c: ClientId, e: nat)
    requires c in r && e != r[c] && Held(r, e)
    ensures Held(r - {c}, e)
  {
    var d :| d in r && r[d] == e;
    assert d in r - {c} && (r - {c})[d] == e;
  }

  lemma {:induction false} RegistryAfterInsert(r: map<ClientId, nat>, c: ClientId, x: nat)
    requires c !in r && Apart(r) && forall d :: d in r ==> r[d] < x
    ensures |r[c := x]| == |r| + 1 && Apart(r[c := x])
  {
    assert r[c := x].Keys == r.Keys + {c};
  }

  lemma {:induction false} SpawnKeeps(h: Host, c: ClientId, a: Authority)
    requires HostInv(h) && c !in h.registry
    ensures HostInv(Spawn(h, c, a))
  {
    hide Held, Apart;
    var u := Spawn(h, c, a);
    RegistryAfterInsert(h.registry, c, h.nextEntity);
    forall e | e in u.authority ensures Held(u.registry, e) {
      HeldAfterInsert(h.registry, c, h.nextEntity, e);
    }
  }

  lemma {:induction false} SpawnAllKeeps(h: Host, clients: seq<ClientId>)
    requires HostInv(h)
    ensures HostInv(SpawnAll(h, clients))
  {
    hide HostInv;
    if clients != [] {
      var front := clients[..|clients| - 1];
      SpawnAllKeeps(h, front);
      if clients[|clients| - 1] !in SpawnAll(h, front).registry {
        SpawnKeeps(SpawnAll(h, front), clients[|clients| - 1], Ghost);
      }
    }
  }

  lemma {:induction false} SetAuthorityKeeps(h: Host, c: ClientId, a: Authority)
    requires HostInv(h)
    ensures HostInv(SetAuthority(h, c, a))
  {
    if c in h.registry {
      assert Held(h.registry, h.registry[c]);
    }
    hide Held;
  }

  lemma {:induction false} DespawnKeeps(h: Host, c: ClientId)
    requires HostInv(h)
    ensures HostInv(Despawn(h, c)) && (c in h.registry ==> h.count > 0)
  {
    hide Held;
    if c in h.registry {
      var u := Despawn(h, c);
      assert u.registry.Keys == h.registry.Keys - {c};
      assert |h.registry.Keys| > 0 by { assert c in h.registry.Keys; }
      forall e | e in u.authority ensures Held(u.registry, e) {
        HeldAfterRemove(h.registry, c, e);
      }
    }
  }

  lemma {:induction false} ShardsIrrelevant(h: Host, shards: seq<nat>)
    requires HostInv(h)
    ensures HostInv(h.(shards := shards))
  {
  }

  lemma {:induction false} HostStepKeeps(h: Host, p: GamePacket, json: JsonReading)
    requires HostInv(h)
    ensures HostInv(HostStep(h, p, json))
    ensures p.Left? && p.client in h.registry ==> h.count > 0
  {
    hide HostInv;
    match p
    case AssignShards(ids) => ShardsIrrelevant(h, h.shards + ids);
    case Sighted(clients) => SpawnAllKeeps(h, clients);
    case GhostPosition(c) => if c !in h.registry { SpawnKeeps(h, c, Ghost); }
    case Json(c) =>
      SetAuthorityKeeps(h, c, Owned);
      if c !in h.registry { SpawnKeeps(h, c, Owned); }
    case Left(c) => DespawnKeeps(h, c);
    case AuthorityChange(c, oldShard, newShard) =>
      SetAuthorityKeeps(h, c, Owned);
      SetAuthorityKeeps(h, c, Ghost);
    case Shutdown =>
    case NoPacket =>
  }

  lemma {:induction false} SpawnAllKnows(h: Host, clients: seq<ClientId>, c: ClientId)
    ensures c in SpawnAll(h, clients).registry <==> c in h.registry || c in clients
  {
    if clients != [] {
      var front, last := clients[..|clients| - 1], clients[|clients| - 1];
      SpawnAllKnows(h, front, c);
      assert c in clients <==> c in front || c == last;
    }
  }

  /**
   * Which players a server knows after any packet: a sighting, a forwarded position or a join request makes
   * it known, a departure makes it forgotten, and nothing else does either.
   */
  lemma {:induction false} PacketKnows(h: Host, p: GamePacket, json: JsonReading, c: ClientId)
    ensures c in HostStep(h, p, json).registry <==>
            match p
            case Sighted(clients) => c in h.registry || c in clients
            case GhostPosition(d) => c in h.registry || c == d
            case Json(d) => c in h.registry || (c == d && json.isJoin)
            case Left(d) => c in h.registry && c != d
            case _ => c in h.registry
  {
    if p.Sighted? { SpawnAllKnows(h, p.clients, c); }
  }

  /** The broker's notice of a departure, and the shutdown order, as the server reads them. */
  lemma {:induction false} NoticesRead(c: ClientId, rest: Bytes)
    ensures ParseGame([7] + LE32(c)) == Left(c)
    ensures ParseGame([23] + rest) == Shutdown
  {
    hide LE32, FromLE32, IdsFrom;
    LE32RoundTrip(c);
    assert ([7] + LE32(c))[1..5] == LE32(c);
  }

  datatype Arrival = Arrival(packet: Bytes, json: JsonReading)

  ghost function HostAfter(shards: seq<nat>, arrivals: seq<Arrival>): Host {
    if arrivals == [] then NO_PLAYERS.(shards := shards)
    else
      var a := arrivals[|arrivals| - 1];
      HostStep(HostAfter(shards, arrivals[..|arrivals| - 1]), ParseGame(a.packet), a.json)
  }

  /** After any packets at all, the advertised player count is the size of the registry. */
  lemma {:induction false} PlayerCountExact(shards: seq<nat>, arrivals: seq<Arrival>)
    ensures HostInv(HostAfter(shards, arrivals))
    ensures HostAfter(shards, arrivals).count == |HostAfter(shards, arrivals).registry|
  {
    hide ParseGame, HostStep;
    if arrivals != [] {
      var a, front := arrivals[|arrivals| - 1], arrivals[..|arrivals| - 1];
      PlayerCountExact(shards, front);
      HostStepKeeps(HostAfter(shards, front), ParseGame(a.packet), a.json);
    }
  }

  /** The counter is never decremented below zero. */
  lemma {:induction false} CountNeverUnderflows(shards: seq<nat>, arrivals: seq<Arrival>, c: ClientId)
    requires c in HostAfter(shards, arrivals).registry
    ensures Despawn(HostAfter(shards, arrivals), c).count == HostAfter(shards, arrivals).count - 1
  {
    PlayerCountExact(shards, arrivals);
    DespawnKeeps(HostAfter(shards, arrivals), c);
  }
}
