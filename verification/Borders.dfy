/** What the broker forwards of a player near a border: ghosts at the neighbours, and join requests. */
module Borders {
  import opened Geometry
  import opened Wire
  import Spatial
  import opened SpatialRuns
  import BrokerModel
  import Frames
  import opened Dedicated
  import SpatialPackets
  import opened SpatialLocks
  import opened Ownership

  const A_JOIN := JsonReading(false, true)

  /** The broker forwards what the client sends to the server at `a`. */
  ghost predicate Addressed(t: BrokerModel.Tables, c: ClientId, a: nat) {
    exists topic :: topic in BrokerModel.Routed(t, c) && t.routes[topic].authority == a
  }

  ghost predicate SentTo(sent: seq<BrokerModel.Packet>, a: nat) {
    exists i :: 0 <= i < |sent| && sent[i].to == a
  }

  /** A second copy of the packet changes nothing. */
  ghost predicate Repeatable(p: GamePacket, json: JsonReading) {
    forall h :: HostStep(HostStep(h, p, json), p, json) == HostStep(h, p, json)
  }

  /** Copies of one packet: every server that gets any is as after one copy, however many shards it hosts. */
  lemma {:induction false} DeliverCopies(hosts: map<nat, Host>, sent: seq<BrokerModel.Packet>, data: Bytes,
          json: JsonReading)
    requires forall i :: 0 <= i < |sent| ==> sent[i].data == data
    requires Repeatable(ParseGame(data), json)
    ensures var after := Deliver(hosts, sent, json);
            && after.Keys == hosts.Keys
            && forall a :: a in hosts ==>
                 after[a] == if SentTo(sent, a) then HostStep(hosts[a], ParseGame(data), json) else hosts[a]
  {
    hide HostStep, ParseGame;
    if sent != [] {
      var front, last := sent[..|sent| - 1], sent[|sent| - 1];
      assert forall i :: 0 <= i < |front| ==> front[i] == sent[i];
      DeliverCopies(hosts, front, data, json);
      forall a ensures SentTo(sent, a) <==> SentTo(front, a) || last.to == a {
        if SentTo(front, a) {
          var i :| 0 <= i < |front| && front[i].to == a;
          assert sent[i].to == a;
        }
      }
    }
  }

  /** The forwarded copies reach exactly the addressed servers. */
  lemma {:induction false} ForwardedCopies(t: BrokerModel.Tables, c: ClientId, data: Bytes,
          sent: seq<BrokerModel.Packet>)
    requires BrokerModel.FanOut(t, c, data, sent)
    ensures forall i :: 0 <= i < |sent| ==> sent[i].data == data
    ensures forall a :: SentTo(sent, a) <==> Addressed(t, c, a)
  {
    var order: seq<Bytes> :| BrokerModel.Enumerates(order, BrokerModel.Routed(t, c)) && |sent| == |order|
      && forall i :: 0 <= i < |order| ==>
           order[i] in t.routes && sent[i] == BrokerModel.Packet(t.routes[order[i]].authority, data);
    forall a ensures SentTo(sent, a) <==> Addressed(t, c, a) {
      if SentTo(sent, a) {
        var i :| 0 <= i < |sent| && sent[i].to == a;
        assert order[i] in order;
      }
      if Addressed(t, c, a) {
        var topic :| topic in BrokerModel.Routed(t, c) && t.routes[topic].authority == a;
        assert topic in order;
        var i :| 0 <= i < |order| && order[i] == topic;
        assert sent[i].to == a;
      }
    }
  }

  // ---------------------------------------------------------------- ghosts

  /** The packet in which a client reports a position, and which the broker forwards as it is. */
  function PositionPacket(c: ClientId, x: nat, y: nat): Bytes
    requires x < U32 && y < U32
  {
    [5] + LE32(c) + [16] + LE32(x) + LE32(y)
  }

  lemma {:induction false} PositionIsGhost(c: ClientId, x: nat, y: nat)
    requires x < U32 && y < U32
    ensures ParseGame(PositionPacket(c, x, y)) == GhostPosition(c)
    ensures Repeatable(GhostPosition(c), NOT_JSON)
    ensures BrokerModel.Parse(PositionPacket(c, x, y)) == BrokerModel.ClientInput(c, [16] + LE32(x) + LE32(y))
    ensures [5] + LE32(c) + ([16] + LE32(x) + LE32(y)) == PositionPacket(c, x, y)
  {
    hide LE32, FromLE32, IdsFrom, BrokerModel.Parse;
    SpatialPackets.PositionReads(c, x, y);
    LE32RoundTrip(c);
    var packet := PositionPacket(c, x, y);
    assert packet[1..5] == LE32(c);
    assert packet[5] == 16;
  }

  /** The broker's tables and the game servers after a forwarded position packet. */
  ghost function Forwarded(f: Field, c: ClientId, x: nat, y: nat, src: BrokerModel.Addr,
          sent: seq<BrokerModel.Packet>): Field
    requires x < U32 && y < U32
  {
    Field(BrokerModel.Next(f.tables, BrokerModel.Parse(PositionPacket(c, x, y)), src),
          Deliver(f.hosts, sent, NOT_JSON))
  }

  lemma {:induction false} ForwardedHosts(f: Field, c: ClientId, x: nat, y: nat, src: BrokerModel.Addr,
          sent: seq<BrokerModel.Packet>)
    requires x < U32 && y < U32 && BrokerModel.Sends(f.tables, BrokerModel.Parse(PositionPacket(c, x, y)), src, sent)
    ensures var g := Forwarded(f, c, x, y, src, sent);
            && g.tables == f.tables.(addresses := f.tables.addresses[c := src]) && g.hosts.Keys == f.hosts.Keys
            && forall a :: a in f.hosts ==>
                 g.hosts[a] == if Addressed(f.tables, c, a) then HostStep(f.hosts[a], GhostPosition(c), NOT_JSON)
                               else f.hosts[a]
  {
    hide LE32, HostStep, ParseGame, BrokerModel.Parse, PositionPacket, BrokerModel.FanOut, Repeatable;
    PositionIsGhost(c, x, y);
    assert |[16] + LE32(x) + LE32(y)| <= 9 by { LE32RoundTrip(x); LE32RoundTrip(y); }
    ForwardedCopies(f.tables, c, PositionPacket(c, x, y), sent);
    DeliverCopies(f.hosts, sent, PositionPacket(c, x, y), NOT_JSON);
  }

  lemma {:induction false} GhostAt(h: Host, c: ClientId, d: ClientId)
    requires HostInv(h)
    ensures var g := HostStep(h, GhostPosition(c), NOT_JSON);
            && HostInv(g) && g.shards == h.shards && (OwnedBy(g, d) <==> OwnedBy(h, d)) && c in g.registry
  {
    hide HostInv, OwnedBy;
    HostStepKeeps(h, GhostPosition(c), NOT_JSON);
    PacketOwns(h, GhostPosition(c), NOT_JSON, d);
  }

  /**
   * A forwarded position changes nobody's ownership, and afterwards the host of every placed shard the
   * client subscribes to knows it: this is how a neighbour gets its ghost before it takes the player over.
   */
  lemma {:induction false} PositionMakesGhosts(f: Field, c: ClientId, x: nat, y: nat, src: BrokerModel.Addr,
          sent: seq<BrokerModel.Packet>, d: ClientId, n: nat)
    requires x < U32 && y < U32 && BrokerModel.Sends(f.tables, BrokerModel.Parse(PositionPacket(c, x, y)), src, sent)
    requires Sane(f.tables, f.hosts) && src !in f.hosts
    ensures Grows(f, Forwarded(f, c, x, y, src, sent), d)
    ensures var g := Forwarded(f, c, x, y, src, sent);
            Placed(f.tables, f.hosts, n) ==>
              (Knows(g.tables, g.hosts, c, n) <==>
                 Knows(f.tables, f.hosts, c, n) || Addressed(f.tables, c, HostOf(f.tables, n)))
    ensures Placed(f.tables, f.hosts, n) && ShardTopic(n) in BrokerModel.TopicsOf(f.tables, c) ==>
              Addressed(f.tables, c, HostOf(f.tables, n))
  {
    hide HostInv, OwnedBy, HostStep, ShardTopic, Forwarded, BrokerModel.Sends;
    ForwardedHosts(f, c, x, y, src, sent);
    forall a | a in f.hosts
      ensures var g := HostStep(f.hosts[a], GhostPosition(c), NOT_JSON);
              && HostInv(g) && g.shards == f.hosts[a].shards && (OwnedBy(g, d) <==> OwnedBy(f.hosts[a], d))
              && c in g.registry
    {
      GhostAt(f.hosts[a], c, d);
    }
    if Placed(f.tables, f.hosts, n) && ShardTopic(n) in BrokerModel.TopicsOf(f.tables, c) {
      assert ShardTopic(n) in BrokerModel.Routed(f.tables, c);
    }
  }

  lemma {:induction false} KnewAtLast(f: Field, grown: seq<Field>, run: seq<Record>, c: ClientId)
    requires |grown| == |run| && run != [] && Changes(run[|run| - 1].actions, c) != []
    ensures var g := grown[|run| - 1];
            Knew(f, grown, run, c) <==> Knows(g.tables, g.hosts, c, Target(0, Handovers(run, c)))
  {
  }

  lemma {:induction false} HandoversEnd(run: seq<Record>, c: ClientId)
    requires run != [] && Changes(run[|run| - 1].actions, c) != [] && !Leaves(run, c)
    ensures Handovers(run, c) != [] && Target(0, Handovers(run, c)) == Handovers(run, c)[|Handovers(run, c)| - 1].dst
  {
    hide Changes;
    assert run[|run| - 1].event != Spatial.Disconnect(c);
  }

  /**
   * The intended handover, end to end: the position packet that moves a player into another shard is
   * also forwarded to the servers of the shards it subscribes to. If the new shard is one of them, then
   * once the change of authority has been delivered its host is the only owner of the player.
   */
  lemma {:induction false} SubscribedHandover(w: Spatial.World, run: seq<Record>, f: Field, grown: seq<Field>,
          c: ClientId, before: Field, x: nat, y: nat, src: BrokerModel.Addr, sent: seq<BrokerModel.Packet>)
    requires Spatial.Sound(w) && IsRun(w, run) && ClientsFit(run) && !Leaves(run, c) && |grown| == |run|
    requires Coherent(f, grown, run, c) && Sane(f.tables, f.hosts) && Placed(f.tables, f.hosts, 0)
    requires NoOtherOwner(f.tables, f.hosts, c, 0)
    requires run != [] && Changes(run[|run| - 1].actions, c) != []
    requires x < U32 && y < U32 && src !in before.hosts && Sane(before.tables, before.hosts)
    requires BrokerModel.Sends(before.tables, BrokerModel.Parse(PositionPacket(c, x, y)), src, sent)
    requires grown[|run| - 1] == Forwarded(before, c, x, y, src, sent)
    requires var p := Target(0, Handovers(run, c));
             Placed(before.tables, before.hosts, p) && ShardTopic(p) in BrokerModel.TopicsOf(before.tables, c)
    ensures var g, primary := Served(f, grown, run), End(w, run).svc.primary;
            && c in primary && Placed(g.tables, g.hosts, primary[c])
            && forall a :: a in g.hosts ==> (OwnedBy(g.hosts[a], c) <==> a == HostOf(g.tables, primary[c]))
  {
    hide NoOtherOwner, Sane, Placed, Coherent, Knew, Knows, Forwarded, BrokerModel.Sends, ShardTopic, Served,
      Changes, Target;
    var p := Target(0, Handovers(run, c));
    AuthorityChain(w, run, c);
    PositionMakesGhosts(before, c, x, y, src, sent, c, p);
    KnewAtLast(f, grown, run, c);
    SingleOwnerAtQuiescence(w, run, f, grown, c);
    HandoversEnd(run, c);
  }

  // ---------------------------------------------------------------- the first update of a player

  /** The run of one position update. */
  ghost function FirstUpdate(w: Spatial.World, c: ClientId, pos: Vec2): seq<Record> {
    [Record(Spatial.Position(c, pos), Spatial.PositionUpdate(Spatial.Initial(w).svc, c, pos, map[]).actions)]
  }

  lemma {:induction false} FirstUpdateIsRun(w: Spatial.World, c: ClientId, pos: Vec2)
    requires Contains(w.bounds, pos)
    ensures var run := FirstUpdate(w, c, pos);
            && IsRun(w, run) && ClientsFit(run) && !Leaves(run, c) && run[..0] == []
            && End(w, run).svc.primary == map[c := 0]
            && Changes(run[0].actions, c) == [Handover(0, 0)] && Handovers(run, c) == [Handover(0, 0)]
  {
    hide Spatial.PositionUpdate, Spatial.OnPosition, Spatial.NearAt;
    var run, s := FirstUpdate(w, c, pos), Spatial.Initial(w);
    assert run[..0] == [];
    assert End(w, []) == s && IsRun(w, []) && Handovers([], c) == [];
    PositionChanges(s, c, pos, c);
    var l := [Spatial.AuthorityChange(c, 0, 0)];
    assert l[..0] == [];
    assert Changes([], c) == [];
  }

  lemma {:induction false} OneRecord(w: Spatial.World, c: ClientId, pos: Vec2)
    ensures |FirstUpdate(w, c, pos)| == 1
  {
  }

  /**
   * A player's first position in a fresh world: the host of shard 0 owns it afterwards if and only if it
   * knew it before. The field may be any in which shard 0 is placed and nobody else owns the player.
   */
  lemma {:induction false} FirstUpdateOwns(w: Spatial.World, f: Field, c: ClientId, pos: Vec2)
    requires Spatial.Sound(w) && Contains(w.bounds, pos) && Sane(f.tables, f.hosts) && Placed(f.tables, f.hosts, 0)
    requires NoOtherOwner(f.tables, f.hosts, c, 0)
    ensures IsRun(w, FirstUpdate(w, c, pos)) && Coherent(f, [f], FirstUpdate(w, c, pos), c)
    ensures var g := Served(f, [f], FirstUpdate(w, c, pos));
            forall a :: a in g.hosts ==>
              (OwnedBy(g.hosts[a], c) <==> a == HostOf(g.tables, 0) && Knows(f.tables, f.hosts, c, 0))
  {
    hide NoOtherOwner, Sane, Placed, Knows, Changes, Handovers, Grows, FirstUpdate, IsRun, ShardTopic, Signalled;
    var run := FirstUpdate(w, c, pos);
    FirstUpdateIsRun(w, c, pos);
    assert |run| == 1 by { OneRecord(w, c, pos); }
    assert [f][..0] == [] && Served(f, [], []) == f;
    StandingStillGrows(f, c);
    NobodySignalled();
    assert Events([]) == [];
    SingleOwnerAtQuiescence(w, run, f, [f], c);
    KnewAtLast(f, [f], run, c);
  }

  // ---------------------------------------------------------------- sightings

  ghost function PlayerIds(ps: seq<Frames.Player>): (r: seq<ClientId>)
    requires Frames.Wire32(ps)
    ensures |r| == |ps| && forall i :: 0 <= i < |ps| ==> r[i] == ps[i].id
  {
    seq(|ps|, i requires 0 <= i < |ps| => ps[i].id)
  }

  lemma {:induction false} SightedFrom(packet: Bytes, ps: seq<Frames.Player>, i: nat)
    requires Frames.Wire32(ps) && i <= |ps| && |packet| == 5 + 12 * |ps|
    requires packet[5..] == Frames.EncodePlayers(ps)
    ensures IdsFrom(packet, 5 + 12 * i, |ps| - i, 12) == PlayerIds(ps)[i..]
    decreases |ps| - i
  {
    hide LE32, FromLE32, Frames.EncodePlayers;
    if i < |ps| {
      var at := 5 + 12 * i;
      Frames.EncodeAt(ps, i);
      assert packet[at..at + 12] == Frames.EncodePlayers(ps)[12 * i..12 * i + 12];
      assert packet[at..at + 4] == packet[at..at + 12][..4] == LE32(ps[i].id);
      LE32RoundTrip(ps[i].id);
      SightedFrom(packet, ps, i + 1);
    }
  }

  /** A count and then twelve bytes per player: the server reads every player's id, in order. */
  lemma {:induction false} SightingsRead(ps: seq<Frames.Player>)
    requires Frames.Wire32(ps) && |ps| < U32
    ensures ParseGame([4] + LE32(|ps|) + Frames.EncodePlayers(ps)) == Sighted(PlayerIds(ps))
  {
    hide LE32, FromLE32, Frames.EncodePlayers, IdsFrom;
    var packet := [4] + LE32(|ps|) + Frames.EncodePlayers(ps);
    assert packet[1..5] == LE32(|ps|);
    assert packet[5..] == Frames.EncodePlayers(ps);
    LE32RoundTrip(|ps|);
    SightedFrom(packet, ps, 0);
    assert PlayerIds(ps)[0..] == PlayerIds(ps);
  }

  // ---------------------------------------------------------------- departures

  lemma {:induction false} LeavingTwice(c: ClientId)
    ensures Repeatable(Left(c), NOT_JSON)
  {
    forall h ensures HostStep(HostStep(h, Left(c), NOT_JSON), Left(c), NOT_JSON) == HostStep(h, Left(c), NOT_JSON) {
      assert c !in HostStep(h, Left(c), NOT_JSON).registry;
    }
  }

  /**
   * A departure reaches the server of every routed topic of the client, and those servers forget it: no
   * server that serves a shard the client subscribes to still knows it, and nobody else is forgotten.
   */
  lemma {:induction false} DepartureForgets(t: BrokerModel.Tables, hosts: map<nat, Host>, c: ClientId,
          src: BrokerModel.Addr, sent: seq<BrokerModel.Packet>, n: nat)
    requires BrokerModel.Sends(t, BrokerModel.ClientDisconnect(c), src, sent)
    ensures var after := Deliver(hosts, sent, NOT_JSON);
            && after.Keys == hosts.Keys
            && (forall a, d :: a in hosts ==>
                  (d in after[a].registry <==> d in hosts[a].registry && !(d == c && Addressed(t, c, a))))
            && (Placed(t, hosts, n) && ShardTopic(n) in BrokerModel.TopicsOf(t, c) ==>
                  c !in after[HostOf(t, n)].registry)
  {
    hide LE32, HostStep, ParseGame, BrokerModel.FanOut, Repeatable, ShardTopic;
    NoticesRead(c, []);
    LeavingTwice(c);
    ForwardedCopies(t, c, [7] + LE32(c), sent);
    DeliverCopies(hosts, sent, [7] + LE32(c), NOT_JSON);
    var after := Deliver(hosts, sent, NOT_JSON);
    forall a, d: ClientId | a in hosts
      ensures d in after[a].registry <==> d in hosts[a].registry && !(d == c && Addressed(t, c, a))
    {
      PacketKnows(hosts[a], Left(c), NOT_JSON, d);
    }
    if Placed(t, hosts, n) && ShardTopic(n) in BrokerModel.TopicsOf(t, c) {
      assert ShardTopic(n) in BrokerModel.Routed(t, c);
    }
  }

  // ---------------------------------------------------------------- join requests

  lemma {:induction false} JoinRepeats(c: ClientId)
    ensures Repeatable(Json(c), A_JOIN)
  {
    forall h ensures HostStep(HostStep(h, Json(c), A_JOIN), Json(c), A_JOIN) == HostStep(h, Json(c), A_JOIN) {
      var g := HostStep(h, Json(c), A_JOIN);
      assert HostStep(g, Json(c), A_JOIN).authority == g.authority;
    }
  }

  lemma {:induction false} InputIsJson(c: ClientId, input: Bytes)
    requires input != [] ==> input[0] != 16
    ensures ParseGame([5] + LE32(c) + input) == Json(c)
  {
    hide LE32, FromLE32, IdsFrom;
    var packet := [5] + LE32(c) + input;
    LE32RoundTrip(c);
    assert packet[1..5] == LE32(c);
    assert input != [] ==> packet[5] == input[0];
  }

  /**
   * The broker forwards a join request like any other input, to the server of every shard the client
   * subscribes to, and each of them makes the player its own.
   */
  lemma {:induction false} JoinOwnersExact(t: BrokerModel.Tables, hosts: map<nat, Host>, c: ClientId, input: Bytes,
          src: BrokerModel.Addr, sent: seq<BrokerModel.Packet>)
    requires BrokerModel.Sends(t, BrokerModel.ClientInput(c, input), src, sent) && Sane(t, hosts)
    requires 5 + |input| <= BrokerModel.INPUT_LIMIT && (input != [] ==> input[0] != 16)
    ensures var after := Deliver(hosts, sent, A_JOIN);
            && after.Keys == hosts.Keys
            && forall a, d :: a in hosts ==>
                 (OwnedBy(after[a], d) <==> OwnedBy(hosts[a], d) || (d == c && Addressed(t, c, a)))
  {
    hide LE32, HostStep, ParseGame, BrokerModel.FanOut, Repeatable, HostInv, OwnedBy;
    InputIsJson(c, input);
    JoinRepeats(c);
    var data := [5] + LE32(c) + input;
    ForwardedCopies(t, c, data, sent);
    DeliverCopies(hosts, sent, data, A_JOIN);
    var after := Deliver(hosts, sent, A_JOIN);
    forall a, d: ClientId | a in hosts
      ensures OwnedBy(after[a], d) <==> OwnedBy(hosts[a], d) || (d == c && Addressed(t, c, a))
    {
      PacketOwns(hosts[a], Json(c), A_JOIN, d);
    }
  }

  /** Of these servers `a`, and no other, is forwarded what the client sends. */
  ghost predicate AloneAddressed(t: BrokerModel.Tables, hosts: map<nat, Host>, c: ClientId, a: nat) {
    Addressed(t, c, a) && forall b :: b in hosts && Addressed(t, c, b) ==> b == a
  }

  /**
   * A join request of a player nobody owns leaves exactly one owner, the server `a`, if and only if all
   * its routed subscriptions that lead to game servers lead to that one.
   */
  lemma {:induction false} JoinLeavesOneOwner(t: BrokerModel.Tables, hosts: map<nat, Host>, c: ClientId, input: Bytes,
          src: BrokerModel.Addr, sent: seq<BrokerModel.Packet>, a: nat)
    requires BrokerModel.Sends(t, BrokerModel.ClientInput(c, input), src, sent) && Sane(t, hosts)
    requires 5 + |input| <= BrokerModel.INPUT_LIMIT && (input != [] ==> input[0] != 16)
    requires a in hosts && forall b :: b in hosts ==> !OwnedBy(hosts[b], c)
    ensures var after := Deliver(hosts, sent, A_JOIN);
            (forall b :: b in after ==> (OwnedBy(after[b], c) <==> b == a)) <==> AloneAddressed(t, hosts, c, a)
  {
    hide Deliver, OwnedBy, Addressed, HostInv, BrokerModel.Sends;
    JoinOwnersExact(t, hosts, c, input, src, sent);
    var after := Deliver(hosts, sent, A_JOIN);
    assert forall b :: b in hosts ==> (OwnedBy(after[b], c) <==> Addressed(t, c, b));
  }

  /** A join next to a border between two servers: both of them own the player. */
  lemma {:induction false} JoinAtBorder(t: BrokerModel.Tables, hosts: map<nat, Host>, c: ClientId, input: Bytes,
          src: BrokerModel.Addr, sent: seq<BrokerModel.Packet>, n: nat, m: nat)
    requires BrokerModel.Sends(t, BrokerModel.ClientInput(c, input), src, sent) && Sane(t, hosts)
    requires 5 + |input| <= BrokerModel.INPUT_LIMIT && (input != [] ==> input[0] != 16)
    requires Placed(t, hosts, n) && Placed(t, hosts, m)
    requires {ShardTopic(n), ShardTopic(m)} <= BrokerModel.TopicsOf(t, c)
    ensures var after := Deliver(hosts, sent, A_JOIN);
            && HostOf(t, n) in after && OwnedBy(after[HostOf(t, n)], c)
            && HostOf(t, m) in after && OwnedBy(after[HostOf(t, m)], c)
  {
    hide Deliver, OwnedBy, HostInv, BrokerModel.Sends, ShardTopic;
    JoinOwnersExact(t, hosts, c, input, src, sent);
    assert ShardTopic(n) in BrokerModel.Routed(t, c) && ShardTopic(m) in BrokerModel.Routed(t, c);
  }
}
