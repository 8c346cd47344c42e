/**
 * A split from end to end: the spatial server asks for servers, the orchestrator assigns the new shards,
 * their server claims them and reports them ready, and the lock of the split shard is released.
 */
module Scaling {
  import opened Geometry
  import opened Wire
  import opened Spatial
  import opened SpatialInvariant
  import opened SpatialLocks
  import opened SpatialPackets
  import SpatialTheorems
  import Dedicated
  import Ownership
  import BrokeredRuns
  import B = BrokerModel

  // ---------------------------------------------------------------- the orchestrator's orders

  datatype Order =
    | Grow(parent: nat, shards: seq<nat>)
    | Shrink(parent: nat, shards: seq<nat>)
    | NoOrder

  /** The orchestrator's reading of a datagram: a parent and four shards. */
  function ParseOrder(packet: Bytes): Order {
    if |packet| < 21 then NoOrder else
    var parent := FromLE32(packet[1..5]);
    var shards := [FromLE32(packet[5..9]), FromLE32(packet[9..13]), FromLE32(packet[13..17]), FromLE32(packet[17..21])];
    if packet[0] == 19 then Grow(parent, shards)
    else if packet[0] == 21 then Shrink(parent, shards)
    else NoOrder
  }

  /** The new shards for a server with room, routed to the topic of that server. */
  function Assignment(target: Bytes, shards: seq<nat>): Bytes
    requires |target| == TOPIC_LEN && |shards| == 4 && Fit32(shards)
  {
    [8] + target + [24] + LE32(4) + LE32(shards[0]) + LE32(shards[1]) + LE32(shards[2]) + LE32(shards[3])
  }

  /** The order to shut down, routed to the server of the first merged shard. */
  function ShutdownOrder(shard: nat): Bytes {
    [8] + ShardTopic(shard) + [23]
  }

  lemma {:induction false} RouteParses(topic: Bytes, payload: Bytes)
    requires |topic| == TOPIC_LEN
    ensures B.Parse([8] + topic + payload) == B.RouteToTopic(topic, payload)
  {
    assert ([8] + topic + payload)[1..] == topic + payload;
    assert (topic + payload)[..32] == topic;
    assert (topic + payload)[32..] == payload;
  }

  lemma {:induction false} FourIds(ids: seq<nat>)
    requires |ids| == 4 && Fit32(ids)
    ensures EncodeIds(ids) == LE32(ids[0]) + LE32(ids[1]) + LE32(ids[2]) + LE32(ids[3])
  {
    hide LE32, Word;
    assert ids == [ids[0]] + [ids[1]] + [ids[2]] + [ids[3]];
    EncodeIdsSnoc([ids[0]] + [ids[1]] + [ids[2]], ids[3]);
    EncodeIdsSnoc([ids[0]] + [ids[1]], ids[2]);
    EncodeIdsSnoc([ids[0]], ids[1]);
    EncodeIdsSnoc([], ids[0]);
    EncodeNoIds();
    assert [] + [ids[0]] == [ids[0]];
  }

  lemma {:induction false} OrderReads(tag: Byte, parent: nat, shards: seq<nat>)
    requires parent < U32 && |shards| == 4 && Fit32(shards) && (tag == 19 || tag == 21)
    ensures ParseOrder([tag] + Word(parent) + EncodeIds(shards)) ==
            if tag == 19 then Grow(parent, shards) else Shrink(parent, shards)
  {
    hide LE32, FromLE32, Word, EncodeIds;
    FourIds(shards);
    var packet := [tag] + LE32(parent) + (LE32(shards[0]) + LE32(shards[1]) + LE32(shards[2]) + LE32(shards[3]));
    assert packet == [tag] + Word(parent) + EncodeIds(shards);
    assert packet[1..5] == LE32(parent) && packet[5..9] == LE32(shards[0]) && packet[9..13] == LE32(shards[1])
        && packet[13..17] == LE32(shards[2]) && packet[17..21] == LE32(shards[3]);
    LE32RoundTrip(parent);
    LE32RoundTrip(shards[0]); LE32RoundTrip(shards[1]); LE32RoundTrip(shards[2]); LE32RoundTrip(shards[3]);
    assert shards == [shards[0], shards[1], shards[2], shards[3]];
  }

  /** A request for servers, and one to merge, reaches the orchestrator and is read there as it was meant. */
  lemma {:induction false} OrderArrives(t: B.Tables, parent: nat, shards: seq<nat>, from: B.Addr, sent: seq<B.Packet>,
          up: bool)
    requires parent < U32 && |shards| == 4 && Fit32(shards)
    requires B.Sends(t, B.Parse(EncodeAction(if up then ScaleUp(parent, shards) else ScaleDown(parent, shards))), from,
        sent)
    ensures if ORCHESTRATOR_TOPIC in t.routes
            then |sent| == 1 && sent[0].to == t.routes[ORCHESTRATOR_TOPIC].authority
                && ParseOrder(sent[0].data) == if up then Grow(parent, shards) else Shrink(parent, shards)
            else sent == []
  {
    hide LE32, Word, EncodeIds, B.Parse, ParseOrder;
    ActionReads(if up then ScaleUp(parent, shards) else ScaleDown(parent, shards));
    OrderReads(if up then 19 else 21, parent, shards);
  }

  /** The orchestrator's assignment reaches the server it was addressed to and is read there as those shards. */
  lemma {:induction false} AssignmentArrives(t: B.Tables, target: Bytes, shards: seq<nat>, from: B.Addr,
          sent: seq<B.Packet>)
    requires |target| == TOPIC_LEN && |shards| == 4 && Fit32(shards)
    requires B.Sends(t, B.Parse(Assignment(target, shards)), from, sent)
    ensures if target in t.routes
            then |sent| == 1 && sent[0].to == t.routes[target].authority
                && Dedicated.ParseGame(sent[0].data) == Dedicated.AssignShards(shards)
            else sent == []
  {
    hide LE32, FromLE32, Word, EncodeIds, IdsFrom, B.Parse;
    var payload := [24] + LE32(4) + EncodeIds(shards);
    FourIds(shards);
    assert Assignment(target, shards) == [8] + target + payload;
    RouteParses(target, payload);
    LE32RoundTrip(4);
    assert payload[1..5] == LE32(4);
    assert payload[5..] == EncodeIds(shards);
    assert EncodeIds(shards)[..16] == EncodeIds(shards);
    IdsRoundTrip(payload, 5, shards);
    assert shards[..4] == shards;
  }

  /** The order to shut down reaches the server of the shard, which reads it as that. */
  lemma {:induction false} ShutdownArrives(t: B.Tables, shard: nat, from: B.Addr, sent: seq<B.Packet>)
    requires B.Sends(t, B.Parse(ShutdownOrder(shard)), from, sent)
    ensures if ShardTopic(shard) in t.routes
            then |sent| == 1 && sent[0].to == t.routes[ShardTopic(shard)].authority
                && Dedicated.ParseGame(sent[0].data) == Dedicated.Shutdown
            else sent == []
  {
    hide ShardTopic, B.Parse;
    RouteParses(ShardTopic(shard), [23]);
  }

  // ---------------------------------------------------------------- claims and Readys

  /** What the broker sends for each of the datagrams that it receives from `a`, in order. */
  ghost predicate Answers(t: B.Tables, msgs: seq<Bytes>, a: B.Addr, sent: seq<seq<B.Packet>>) {
    && |sent| == |msgs|
    && forall i :: 0 <= i < |msgs| ==>
         B.Sends(Ownership.Announce(t, msgs[..i], a), B.Parse(msgs[i]), a, sent[i])
  }

  /** Two datagrams per shard, the claim and then the Ready. */
  lemma {:induction false} AnnouncementsAt(ids: seq<nat>, i: nat)
    requires i < |ids|
    ensures var msgs := Dedicated.Announcements(ids);
            && |msgs| == 2 * |ids|
            && msgs[2 * i] == [6] + ShardTopic(ids[i]) && msgs[2 * i + 1] == [20] + Word(ids[i])
            && msgs[..2 * i] == Dedicated.Announcements(ids[..i])
            && msgs[..2 * i + 1] == Dedicated.Announcements(ids[..i]) + [[6] + ShardTopic(ids[i])]
    decreases |ids|
  {
    hide ShardTopic, Word;
    var front := ids[..|ids| - 1];
    var msgs := Dedicated.Announcements(ids);
    if front == [] {
      assert Dedicated.Announcements(front) == [];
      assert ids[..0] == [];
    } else {
      AnnouncementsAt(front, if i < |front| then i else 0);
      if i < |front| {
        assert msgs[..2 * i] == Dedicated.Announcements(front)[..2 * i];
        assert front[..i] == ids[..i];
      } else {
        assert ids[..i] == front;
        assert msgs[..2 * i] == Dedicated.Announcements(front);
      }
    }
  }

  lemma {:induction false} AnnounceLast(t: B.Tables, msgs: seq<Bytes>, x: Bytes, a: B.Addr)
    ensures Ownership.Announce(t, msgs + [x], a) == B.Next(Ownership.Announce(t, msgs, a), B.Parse(x), a)
  {
    assert (msgs + [x])[..|msgs + [x]| - 1] == msgs;
  }

  /** Announcing shards moves nobody's route but those of the shards. */
  lemma {:induction false} SpatialRouteKept(t: B.Tables, ids: seq<nat>, a: B.Addr)
    requires Fit32(ids) && B.SPATIAL_TOPIC in t.routes
    ensures var u := Ownership.Announce(t, Dedicated.Announcements(ids), a);
            B.SPATIAL_TOPIC in u.routes && u.routes[B.SPATIAL_TOPIC] == t.routes[B.SPATIAL_TOPIC]
  {
    hide ShardTopic, Ownership.Announce, Dedicated.Announcements;
    Ownership.AnnounceClaims(t, ids, a);
    forall i | 0 <= i < |ids| ensures B.SPATIAL_TOPIC != ShardTopic(ids[i]) { BrokeredRuns.ShardTopicsApart(ids[i]); }
  }

  lemma {:induction false} ClaimThenReady(u: B.Tables, id: nat, a: B.Addr, claim: seq<B.Packet>, ready: seq<B.Packet>)
    requires id < U32 && B.SPATIAL_TOPIC in u.routes
    requires var v := B.Next(u, B.Parse([6] + ShardTopic(id)), a);
             B.Sends(u, B.Parse([6] + ShardTopic(id)), a, claim) && B.Sends(v, B.Parse([20] + Word(id)), a, ready)
    ensures var v := B.Next(u, B.Parse([6] + ShardTopic(id)), a);
            && claim == [] && ShardTopic(id) in v.routes && v.routes[ShardTopic(id)].authority == a
            && |ready| == 1 && ready[0].to == u.routes[B.SPATIAL_TOPIC].authority
            && ParseSpatial(ready[0].data) == ServerUp(id)
  {
    hide ShardTopic, LE32, Word, B.Parse, ParseSpatial;
    Ownership.ClaimReads(id);
    BrokeredRuns.ShardTopicsApart(id);
    ReadyArrives(B.Next(u, B.RegisterShard(ShardTopic(id)), a), id, a, ready);
  }

  /**
   * A server that is assigned shards: for each of them in order the broker first records the claim, and
   * then sends the spatial server one datagram, which reads as the Ready of that shard. It sends nothing
   * else to anybody.
   */
  lemma {:induction false} AnnouncementsArrive(t: B.Tables, ids: seq<nat>, a: B.Addr, sent: seq<seq<B.Packet>>, i: nat)
    requires Fit32(ids) && B.SPATIAL_TOPIC in t.routes && i < |ids|
    requires Answers(t, Dedicated.HostSends(Dedicated.AssignShards(ids)), a, sent)
    ensures var msgs := Dedicated.HostSends(Dedicated.AssignShards(ids));
            && |sent| == 2 * |ids| == |msgs|
            && sent[2 * i] == []
            && (var claimed := Ownership.Announce(t, msgs[..2 * i + 1], a);
                ShardTopic(ids[i]) in claimed.routes && claimed.routes[ShardTopic(ids[i])].authority == a)
            && |sent[2 * i + 1]| == 1 && sent[2 * i + 1][0].to == t.routes[B.SPATIAL_TOPIC].authority
            && ParseSpatial(sent[2 * i + 1][0].data) == ServerUp(ids[i])
  {
    hide ShardTopic, Word, Ownership.Announce, Dedicated.Announcements, ParseSpatial, B.Parse, B.Next, B.Sends;
    var msgs := Dedicated.Announcements(ids);
    AnnouncementsAt(ids, i);
    SpatialRouteKept(t, ids[..i], a);
    var u := Ownership.Announce(t, Dedicated.Announcements(ids[..i]), a);
    AnnounceLast(t, Dedicated.Announcements(ids[..i]), [6] + ShardTopic(ids[i]), a);
    assert B.Sends(Ownership.Announce(t, msgs[..2 * i], a), B.Parse(msgs[2 * i]), a, sent[2 * i]);
    assert B.Sends(Ownership.Announce(t, msgs[..2 * i + 1], a), B.Parse(msgs[2 * i + 1]), a, sent[2 * i + 1]);
    ClaimThenReady(u, ids[i], a, sent[2 * i], sent[2 * i + 1]);
  }

  // ---------------------------------------------------------------- the lock is released

  /** The events that these datagrams mean to the spatial server. */
  ghost function Reported(ids: seq<nat>): seq<Event> {
    seq(|ids|, i requires 0 <= i < |ids| => Ready(ids[i]))
  }

  lemma {:induction false} ReportedSignals(ids: seq<nat>)
    ensures Signalled(Reported(ids)) == set k | k in ids
  {
    var events := Reported(ids);
    forall k | k in ids ensures k in Signalled(events) {
      var i :| 0 <= i < |ids| && ids[i] == k;
      assert events[i].Ready? && events[i].shard == k;
    }
  }

  /** Ready signals lock nothing. */
  lemma {:induction false} ReadiesMergeNothing(s: Server, events: seq<Event>, p: nat)
    requires p !in s.svc.merges && forall i :: 0 <= i < |events| ==> events[i].Ready?
    ensures p !in From(s, events).svc.merges
  {
    hide OnReady;
    if events != [] {
      var front := events[..|events| - 1];
      assert forall i :: 0 <= i < |front| ==> front[i] == events[i];
      ReadiesMergeNothing(s, front, p);
      ReadyFrame(From(s, front), events[|events| - 1].shard);
    }
  }

  lemma {:induction false} ReadiesSpare(s: Server, ids: seq<nat>, p: nat)
    requires p !in s.svc.merges
    ensures NeverMerged(s, Reported(ids), p) && NeverNamed(Reported(ids), p)
  {
    hide From;
    var events := Reported(ids);
    forall j | 0 <= j <= |events| ensures p !in From(s, events[..j]).svc.merges {
      ReadiesMergeNothing(s, events[..j], p);
    }
  }

  lemma {:induction false} SplitUnmerged(w: World, s: Server, c: nat, pos: Vec2, p: nat, ids: seq<nat>)
    requires Inv(w, s) && ScaleUp(p, ids) in PositionUpdate(s.svc, c, pos, s.pendingReady).actions
    ensures p !in OnPosition(s, c, pos).svc.merges && |ids| == 4
    ensures {ids[0], ids[1], ids[2], ids[3]} == set k | k in ids
  {
    hide Inv, NodeAt, PositionUpdate, OnPosition;
    var t := SplitOfPosition(w, s, c, pos, p, ids);
    forall k ensures k in {ids[0], ids[1], ids[2], ids[3]} <==> k in ids {
      if k in ids { var i :| 0 <= i < 4 && ids[i] == k; }
    }
  }

  lemma {:induction false} LockedAtOnce(s: Server, ids: seq<nat>, p: nat)
    requires p in From(s, Reported(ids[..0])).svc.splits
    ensures p in s.svc.splits
  {
    assert Reported(ids[..0]) == [];
  }

  lemma {:induction false} ParentFits(w: World, s: Server, c: nat, pos: Vec2, p: nat, ids: seq<nat>)
    requires Inv(w, s) && s.svc.nextId + 4 <= U32
    requires ScaleUp(p, ids) in PositionUpdate(s.svc, c, pos, s.pendingReady).actions
    ensures p < U32 && ids == [s.svc.nextId, s.svc.nextId + 1, s.svc.nextId + 2, s.svc.nextId + 3]
  {
    hide PrimaryAt, Inv, PositionUpdate;
    SpatialTheorems.ScaleUpExactly(s, c, pos, p, ids);
    PrimarySettled(w, s, pos);
  }

  lemma {:induction false} ReadiesStrikeNothing(s: Server, ids: seq<nat>)
    ensures NeverStruck(s, Reported(ids))
  {
  }

  lemma {:induction false} DistinctIds(s: Server, c: nat, pos: Vec2, p: nat, ids: seq<nat>)
    requires ScaleUp(p, ids) in PositionUpdate(s.svc, c, pos, s.pendingReady).actions
    ensures |ids| == 4 && forall i :: 0 <= i < 3 ==> ids[i] != ids[3]
  {
    hide PrimaryAt, PositionUpdate;
    SpatialTheorems.ScaleUpExactly(s, c, pos, p, ids);
  }

  /** The lock after the first few of the four Readys. */
  lemma {:induction false} LockWhileReporting(w: World, past: seq<Event>, c: nat, pos: Vec2, p: nat, ids: seq<nat>,
          i: nat)
    requires Sound(w) && i <= 4 && |ids| == 4
    requires var s := After(w, past); ScaleUp(p, ids) in PositionUpdate(s.svc, c, pos, s.pendingReady).actions
    ensures p in From(OnPosition(After(w, past), c, pos), Reported(ids[..i])).svc.splits <==> i < 4
  {
    hide After, From, Inv, OnPosition, PositionUpdate, Reported, NeverMerged, NeverNamed, Signalled, AwaitedUpTo;
    var s := After(w, past);
    ReachableInv(w, past);
    SplitUnmerged(w, s, c, pos, p, ids);
    ReadiesSpare(OnPosition(s, c, pos), ids[..i], p);
    ReadiesStrikeNothing(OnPosition(s, c, pos), ids[..i]);
    LockHeldUntilAllReady(w, past, c, pos, p, ids, Reported(ids[..i]));
    ReportedSignals(ids[..i]);
    DistinctIds(s, c, pos, p, ids);
    if i < 4 {
      assert ids[3] !in ids[..i];
    } else {
      assert ids[..i] == ids;
    }
  }

  /**
   * A split completes: in every reachable state in which an update asks for servers, the request reaches
   * the orchestrator; when the server it picks is assigned the shards it read, that server's announcements
   * reach the spatial server as four Readys; and with the last of them the lock is released.
   */
  lemma {:induction false} SplitCompletes(w: World, past: seq<Event>, c: nat, pos: Vec2, p: nat, ids: seq<nat>,
          t: B.Tables, spatial: B.Addr, orchestrator: B.Addr, server: B.Addr, target: Bytes, order: seq<B.Packet>,
          passed: seq<B.Packet>, announced: seq<seq<B.Packet>>)
    requires Sound(w) && After(w, past).svc.nextId + 4 <= U32
    requires var s := After(w, past); ScaleUp(p, ids) in PositionUpdate(s.svc, c, pos, s.pendingReady).actions
    requires ORCHESTRATOR_TOPIC in t.routes && t.routes[ORCHESTRATOR_TOPIC].authority == orchestrator
    requires B.SPATIAL_TOPIC in t.routes && t.routes[B.SPATIAL_TOPIC].authority == spatial
    requires target in t.routes && t.routes[target].authority == server && |target| == TOPIC_LEN
    requires B.Sends(t, B.Parse(EncodeAction(ScaleUp(p, ids))), spatial, order)
    requires |ids| == 4 && Fit32(ids) && B.Sends(t, B.Parse(Assignment(target, ids)), orchestrator, passed)
    requires Answers(t, Dedicated.HostSends(Dedicated.AssignShards(ids)), server, announced)
    ensures |order| == 1 && order[0].to == orchestrator && ParseOrder(order[0].data) == Grow(p, ids)
    ensures |passed| == 1 && passed[0].to == server
         && Dedicated.ParseGame(passed[0].data) == Dedicated.AssignShards(ids)
    ensures |announced| == 8 && forall i :: 0 <= i < 4 ==>
              && announced[2 * i] == [] && |announced[2 * i + 1]| == 1 && announced[2 * i + 1][0].to == spatial
              && ParseSpatial(announced[2 * i + 1][0].data) == ServerUp(ids[i])
    ensures var s := OnPosition(After(w, past), c, pos);
            && p in s.svc.splits && p !in From(s, Reported(ids)).svc.splits
            && forall i :: 0 <= i < 4 ==> p in From(s, Reported(ids[..i])).svc.splits
  {
    hide After, From, Inv, OnPosition, PositionUpdate, ORCHESTRATOR_TOPIC, Answers, Assignment, ParseOrder,
      ParseSpatial, Dedicated.ParseGame, EncodeAction, B.Parse, B.Sends, Dedicated.HostSends, Reported, Signalled,
      NeverMerged, NeverNamed, NeverStruck, AwaitedUpTo, Fit32;
    var s := After(w, past);
    ReachableInv(w, past);
    SplitUnmerged(w, s, c, pos, p, ids);
    ParentFits(w, s, c, pos, p, ids);
    OrderArrives(t, p, ids, spatial, order, true);
    AssignmentArrives(t, target, ids, orchestrator, passed);
    forall i: nat | i < 4
      ensures |announced| == 8 && announced[2 * i] == [] && |announced[2 * i + 1]| == 1
           && announced[2 * i + 1][0].to == spatial && ParseSpatial(announced[2 * i + 1][0].data) == ServerUp(ids[i])
    {
      AnnouncementsArrive(t, ids, server, announced, i);
    }
    forall i: nat | i <= 4
      ensures p in From(OnPosition(s, c, pos), Reported(ids[..i])).svc.splits <==> i < 4
    {
      LockWhileReporting(w, past, c, pos, p, ids, i);
    }
    assert ids[..4] == ids;
    LockedAtOnce(OnPosition(s, c, pos), ids, p);
  }
}
