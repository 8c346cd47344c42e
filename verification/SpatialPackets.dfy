/** The spatial server's datagrams, in and out, and that they arrive through the broker as meant. */
module SpatialPackets {
  import opened Geometry
  import opened Options
  import opened Wire
  import Spatial
  import B = BrokerModel

  /** A parsed datagram; coordinates are still the bits of their 32-bit floats. */
  datatype SpatialPacket =
    | Located(client: ClientId, x: nat, y: nat)
    | ServerUp(shard: nat)
    | ServersDown(shards: seq<nat>)
    | Departed(client: ClientId)
    | Skipped

  /** Dispatch on tag and inner tag; a packet too short for them is skipped. */
  function ParseSpatial(packet: Bytes): SpatialPacket {
    if |packet| < 1 then Skipped
    else if packet[0] == 5 then
      if |packet| < 6 then Skipped
      else if packet[5] == 16 then
        (if |packet| < 14 then Skipped else Located(FromLE32(packet[1..5]), FromLE32(packet[6..10]),
            FromLE32(packet[10..14])))
      else if packet[5] == 20 then
        (if |packet| < 10 then Skipped else ServerUp(FromLE32(packet[6..10])))
      else if packet[5] == 25 then
        (if |packet| < 10 then Skipped else ServersDown(IdsFrom(packet, 10, FromLE32(packet[6..10]), 4)))
      else Skipped
    else if packet[0] == 7 then
      (if |packet| < 5 then Skipped else Departed(FromLE32(packet[1..5])))
    else Skipped
  }

  /** The event of a datagram, given how the bits of a float are read. */
  function EventOf(packet: Bytes, float: nat -> real): Option<Spatial.Event> {
    match ParseSpatial(packet)
    case Located(c, x, y) => Some(Spatial.Position(c, Vec2(float(x), float(y))))
    case ServerUp(shard) => Some(Spatial.Ready(shard))
    case ServersDown(shards) => Some(Spatial.Crash(shards))
    case Departed(c) => Some(Spatial.Disconnect(c))
    case Skipped => None
  }

  lemma {:induction false} EventCases(packet: Bytes, float: nat -> real)
    ensures |packet| >= 14 && packet[0] == 5 && packet[5] == 16 ==>
              var x, y := float(FromLE32(packet[6..10])), float(FromLE32(packet[10..14]));
              EventOf(packet, float) == Some(Spatial.Position(FromLE32(packet[1..5]), Vec2(x, y)))
    ensures |packet| >= 10 && packet[0] == 5 && packet[5] == 20
        ==> EventOf(packet, float) == Some(Spatial.Ready(FromLE32(packet[6..10])))
    ensures |packet| >= 10 && packet[0] == 5 && packet[5] == 25 ==>
              EventOf(packet, float) == Some(Spatial.Crash(IdsFrom(packet, 10, FromLE32(packet[6..10]), 4)))
    ensures |packet| >= 5 && packet[0] == 7 ==>
              EventOf(packet, float) == Some(Spatial.Disconnect(FromLE32(packet[1..5])))
    ensures EventOf(packet, float).Some? ==>
              || (|packet| >= 14 && packet[0] == 5 && packet[5] == 16)
              || (|packet| >= 10 && packet[0] == 5 && (packet[5] == 20 || packet[5] == 25))
              || (|packet| >= 5 && packet[0] == 7)
  {
    hide FromLE32, IdsFrom;
  }

  // ---------------------------------------------------------------- crash reports

  /** The loop that reads the shards of a crash report, up to `count` or the end of the packet. */
  method ReadShards(packet: Bytes, count: nat) returns (shards: seq<nat>)
    requires |packet| >= 10
    ensures shards == IdsFrom(packet, 10, count, 4)
  {
    shards := [];
    var offset, i := 10, 0;
    while i < count
      invariant i <= count && 10 <= offset
      invariant shards + IdsFrom(packet, offset, count - i, 4) == IdsFrom(packet, 10, count, 4)
    {
      if offset + 4 > |packet| {
        break;
      }
      shards := shards + [FromLE32(packet[offset..offset + 4])];
      offset := offset + 4;
      i := i + 1;
    }
  }

  ghost predicate Fit32(ids: seq<nat>) {
    forall i :: 0 <= i < |ids| ==> ids[i] < U32
  }

  function EncodeIds(ids: seq<nat>): (r: Bytes)
    ensures |r| == 4 * |ids|
  {
    if ids == [] then [] else Word(ids[0]) + EncodeIds(ids[1..])
  }

  lemma {:induction false} EncodeNoIds()
    ensures EncodeIds([]) == []
  {
  }

  lemma {:induction false} EncodeIdsSnoc(front: seq<nat>, last: nat)
    ensures EncodeIds(front + [last]) == EncodeIds(front) + Word(last)
  {
    hide Word;
    if front == [] {
      EncodeNoIds();
      assert ([last])[1..] == [];
      assert front + [last] == [last];
    } else {
      assert (front + [last])[1..] == front[1..] + [last];
      EncodeIdsSnoc(front[1..], last);
    }
  }

  /** Reading back an encoded list, whose tail may be cut off, yields the ids that are still whole. */
  lemma {:induction false} IdsRoundTrip(packet: Bytes, offset: nat, ids: seq<nat>)
    requires Fit32(ids) && offset <= |packet| <= offset + 4 * |ids|
    requires packet[offset..] == EncodeIds(ids)[..|packet| - offset]
    ensures IdsFrom(packet, offset, |ids|, 4) == ids[..(|packet| - offset) / 4]
    decreases |ids|
  {
    hide LE32, FromLE32, Word;
    if ids != [] && offset + 4 <= |packet| {
      var rest := EncodeIds(ids)[..|packet| - offset];
      assert packet[offset..offset + 4] == rest[..4] == LE32(ids[0]);
      LE32RoundTrip(ids[0]);
      assert packet[offset + 4..] == rest[4..] == EncodeIds(ids[1..])[..|packet| - offset - 4];
      IdsRoundTrip(packet, offset + 4, ids[1..]);
      var k := (|packet| - offset) / 4;
      assert ids[..k] == [ids[0]] + ids[1..][..k - 1];
    }
  }

  const SPATIAL_BUFFER: nat := 1024

  /** A crash report is read in full up to 253 shards; a longer one loses everything after them. */
  lemma {:induction false} CrashReportRead(ids: seq<nat>)
    requires Fit32(ids) && |ids| < U32
    ensures var packet := [5] + LE32(0) + [25] + LE32(|ids|) + EncodeIds(ids);
            ParseSpatial(Receive(packet, SPATIAL_BUFFER)) == ServersDown(if |ids| <= 253 then ids else ids[..253])
  {
    hide LE32, FromLE32, IdsFrom;
    var head := [5] + LE32(0) + [25] + LE32(|ids|);
    var packet := head + EncodeIds(ids);
    var got := Receive(packet, SPATIAL_BUFFER);
    assert got[..10] == head && got[0] == 5 && got[5] == 25;
    assert got[6..10] == head[6..10] == LE32(|ids|);
    LE32RoundTrip(|ids|);
    assert got[10..] == EncodeIds(ids)[..|got| - 10];
    IdsRoundTrip(got, 10, ids);
    assert ids[..|ids|] == ids;
  }

  // ---------------------------------------------------------------- what is sent

  /** "orchestrator_commands" in ASCII, padded. */
  const ORCHESTRATOR_TOPIC: Bytes :=
    TopicOf([111, 114, 99, 104, 101, 115, 116, 114, 97, 116, 111, 114, 95, 99, 111, 109, 109, 97, 110, 100, 115])

  /** The two topics that are known by name, character by character. */
  lemma {:induction false} NamedTopics(i: nat)
    requires i < 32
    ensures |B.SPATIAL_TOPIC| == 32
        && B.SPATIAL_TOPIC[i] == if i < 15 then "spatial_updates"[i] as int else 0
    ensures |ORCHESTRATOR_TOPIC| == 32
        && ORCHESTRATOR_TOPIC[i] == if i < 21 then "orchestrator_commands"[i] as int else 0
  {
  }

  /** The datagram for each action. */
  function EncodeAction(a: Spatial.SpatialAction): Bytes {
    match a
    case Subscribe(c, topic) => [1] + Word(c) + topic
    case Unsubscribe(c, topic) => [2] + Word(c) + topic
    case CrossingAlert(c, shards) => [17] + Word(c) + [|shards| % 256] + EncodeIds(shards)
    case AuthorityChange(c, src, dst) => [18] + Word(c) + Word(src) + Word(dst)
    case ScaleUp(parent, shards) => [8] + ORCHESTRATOR_TOPIC + [19] + Word(parent) + EncodeIds(shards)
    case ScaleDown(parent, shards) => [8] + ORCHESTRATOR_TOPIC + [21] + Word(parent) + EncodeIds(shards)
  }

  function EncodeAll(actions: seq<Spatial.SpatialAction>): (r: seq<Bytes>)
    ensures |r| == |actions|
  {
    if actions == [] then []
    else EncodeAll(actions[..|actions| - 1]) + [EncodeAction(actions[|actions| - 1])]
  }

  method AppendIds(msg: Bytes, ids: seq<nat>) returns (r: Bytes)
    ensures r == msg + EncodeIds(ids)
  {
    r := msg;
    for i := 0 to |ids|
      invariant r == msg + EncodeIds(ids[..i])
    {
      assert ids[..i + 1] == ids[..i] + [ids[i]];
      EncodeIdsSnoc(ids[..i], ids[i]);
      r := r + Word(ids[i]);
    }
    assert ids[..|ids|] == ids;
  }

  /** Build the datagram of an action piece by piece. */
  method Datagram(a: Spatial.SpatialAction) returns (msg: Bytes)
    ensures msg == EncodeAction(a)
  {
    hide Word, EncodeIds;
    match a {
      case Subscribe(c, topic) => msg := [1] + Word(c) + topic;
      case Unsubscribe(c, topic) => msg := [2] + Word(c) + topic;
      case CrossingAlert(c, shards) =>
        msg := [17] + Word(c) + [|shards| % 256];
        msg := AppendIds(msg, shards);
      case AuthorityChange(c, src, dst) => msg := [18] + Word(c) + Word(src) + Word(dst);
      case ScaleUp(parent, shards) =>
        msg := [8] + ORCHESTRATOR_TOPIC + [19] + Word(parent);
        msg := AppendIds(msg, shards);
      case ScaleDown(parent, shards) =>
        msg := [8] + ORCHESTRATOR_TOPIC + [21] + Word(parent);
        msg := AppendIds(msg, shards);
    }
  }

  lemma {:induction false} SubscriptionReads(c: ClientId, topic: Bytes)
    requires |topic| == TOPIC_LEN
    ensures B.Parse([1] + LE32(c) + topic) == B.Subscribe(c, topic)
    ensures B.Parse([2] + LE32(c) + topic) == B.Unsubscribe(c, topic)
  {
    hide LE32, FromLE32;
    LE32RoundTrip(c);
    var data := LE32(c) + topic;
    assert ([1] + LE32(c) + topic)[1..] == data;
    assert ([2] + LE32(c) + topic)[1..] == data;
    assert data[..4] == LE32(c);
    assert data[4..36] == topic;
  }

  lemma {:induction false} AlertReads(c: ClientId, count: Byte, rest: Bytes)
    ensures B.Parse([17] + LE32(c) + [count] + rest) == B.Alert(c, LE32(c) + [count] + rest)
  {
    hide LE32, FromLE32;
    LE32RoundTrip(c);
    var data := LE32(c) + [count] + rest;
    assert ([17] + LE32(c) + [count] + rest)[1..] == data;
    assert data[..4] == LE32(c);
  }

  lemma {:induction false} ChangeReads(c: ClientId, src: nat, dst: nat)
    requires src < U32 && dst < U32
    ensures B.Parse([18] + LE32(c) + LE32(src) + LE32(dst)) == B.Authority(c, src, dst, LE32(c) + LE32(src) + LE32(dst))
  {
    hide LE32, FromLE32;
    LE32RoundTrip(c);
    LE32RoundTrip(src);
    LE32RoundTrip(dst);
    var data := LE32(c) + LE32(src) + LE32(dst);
    assert ([18] + LE32(c) + LE32(src) + LE32(dst))[1..] == data;
    assert data[..4] == LE32(c);
    assert data[4..8] == LE32(src);
    assert data[8..12] == LE32(dst);
  }

  lemma {:induction false} RouteReads(topic: Bytes, tag: Byte, word: Bytes, rest: Bytes)
    requires |topic| == TOPIC_LEN
    ensures B.Parse([8] + topic + [tag] + word + rest) == B.RouteToTopic(topic, [tag] + word + rest)
  {
    var payload := [tag] + word + rest;
    assert ([8] + topic + [tag] + word + rest)[1..] == topic + payload;
    assert (topic + payload)[..32] == topic;
    assert (topic + payload)[32..] == payload;
  }

  /** What the broker reads from the datagram of each action: ids, topics and payloads arrive as meant. */
  lemma {:induction false} ActionReads(a: Spatial.SpatialAction)
    requires a.Subscribe? || a.Unsubscribe? || a.CrossingAlert? || a.AuthorityChange? ==> a.client < U32
    requires a.Subscribe? || a.Unsubscribe? ==> |a.topic| == TOPIC_LEN
    requires a.AuthorityChange? ==> a.oldShard < U32 && a.newShard < U32
    ensures B.Parse(EncodeAction(a)) ==
            match a
            case Subscribe(c, topic) => B.Subscribe(c, topic)
            case Unsubscribe(c, topic) => B.Unsubscribe(c, topic)
            case CrossingAlert(c, shards) => B.Alert(c, LE32(c) + [|shards| % 256] + EncodeIds(shards))
            case AuthorityChange(c, src, dst) => B.Authority(c, src, dst, LE32(c) + LE32(src) + LE32(dst))
            case ScaleUp(parent, shards) => B.RouteToTopic(ORCHESTRATOR_TOPIC, [19] + Word(parent) + EncodeIds(shards))
            case ScaleDown(parent, shards) => B.RouteToTopic(ORCHESTRATOR_TOPIC, [21] + Word(parent)
                + EncodeIds(shards))
  {
    hide LE32, FromLE32, Word, EncodeIds, B.Parse, TopicOf;
    match a
    case Subscribe(c, topic) => SubscriptionReads(c, topic);
    case Unsubscribe(c, topic) => SubscriptionReads(c, topic);
    case CrossingAlert(c, shards) => AlertReads(c, |shards| % 256, EncodeIds(shards));
    case AuthorityChange(c, src, dst) => ChangeReads(c, src, dst);
    case ScaleUp(parent, shards) => RouteReads(ORCHESTRATOR_TOPIC, 19, Word(parent), EncodeIds(shards));
    case ScaleDown(parent, shards) => RouteReads(ORCHESTRATOR_TOPIC, 21, Word(parent), EncodeIds(shards));
  }

  // ---------------------------------------------------------------- through the broker

  /** A game server's Ready, wrapped by the broker, is read as the Ready of that shard. */
  lemma {:induction false} ReadyArrives(t: B.Tables, shard: nat, src: B.Addr, sent: seq<B.Packet>)
    requires shard < U32 && B.Sends(t, B.Parse([20] + LE32(shard)), src, sent)
    ensures if B.SPATIAL_TOPIC in t.routes
            then |sent| == 1 && sent[0].to == t.routes[B.SPATIAL_TOPIC].authority && ParseSpatial(sent[0].data)
                == ServerUp(shard)
            else sent == []
  {
    hide LE32, FromLE32;
    assert ([20] + LE32(shard))[1..] == LE32(shard);
    var data := [5] + LE32(0) + [20] + LE32(shard);
    assert data[6..10] == LE32(shard) && data[5] == 20;
    LE32RoundTrip(shard);
  }

  /** The packet the broker sends for a departure is read as that departure. */
  lemma {:induction false} DepartureArrives(c: ClientId)
    ensures B.Parse([7] + LE32(c)) == B.ClientDisconnect(c)
    ensures ParseSpatial([7] + LE32(c)) == Departed(c)
  {
    hide LE32, FromLE32;
    var data := [7] + LE32(c);
    assert data[1..][..4] == LE32(c) && data[1..5] == LE32(c);
    LE32RoundTrip(c);
  }

  /**
   * The orchestrator's crash message does reach the spatial server, but without the outer tag 5 that the
   * handler expects, so it is skipped whatever it reports.
   */
  lemma {:induction false} CrashMessageSkipped(t: B.Tables, ids: seq<nat>, src: B.Addr, sent: seq<B.Packet>)
    requires B.Sends(t, B.Parse([8] + B.SPATIAL_TOPIC + [25] + Word(|ids|) + EncodeIds(ids)), src, sent)
    ensures if B.SPATIAL_TOPIC in t.routes
            then |sent| == 1 && sent[0].to == t.routes[B.SPATIAL_TOPIC].authority && ParseSpatial(sent[0].data)
                == Skipped
            else sent == []
  {
    hide Word, EncodeIds, B.Parse;
    RouteReads(B.SPATIAL_TOPIC, 25, Word(|ids|), EncodeIds(ids));
  }

  /** How broker and spatial server read the position packet of a client. */
  lemma {:induction false} PositionReads(c: ClientId, x: nat, y: nat)
    requires x < U32 && y < U32
    ensures var packet, body := [5] + LE32(c) + [16] + LE32(x) + LE32(y), [16] + LE32(x) + LE32(y);
            && B.Parse(packet) == B.ClientInput(c, body) && [5] + LE32(c) + body == packet
            && ParseSpatial(packet) == Located(c, x, y)
  {
    hide LE32, FromLE32, IdsFrom;
    var packet, body := [5] + LE32(c) + [16] + LE32(x) + LE32(y), [16] + LE32(x) + LE32(y);
    LE32RoundTrip(c);
    LE32RoundTrip(x);
    LE32RoundTrip(y);
    assert packet[1..][..4] == LE32(c);
    assert packet[1..][4..] == body;
    assert packet[1..5] == LE32(c);
    assert packet[5] == 16;
    assert packet[6..10] == LE32(x);
    assert packet[10..14] == LE32(y);
  }

  /** A position packet reaches every server the client is routed to, and reads the same there. */
  lemma {:induction false} PositionArrives(t: B.Tables, c: ClientId, x: nat, y: nat, src: B.Addr, sent: seq<B.Packet>,
          topic: Bytes)
    requires x < U32 && y < U32
    requires B.Sends(t, B.Parse([5] + LE32(c) + [16] + LE32(x) + LE32(y)), src, sent)
    ensures forall i :: 0 <= i < |sent| ==> ParseSpatial(sent[i].data) == Located(c, x, y)
    ensures topic in B.Routed(t, c) ==> exists i :: 0 <= i < |sent| && sent[i].to == t.routes[topic].authority
  {
    hide LE32, FromLE32, IdsFrom, B.Parse, ParseSpatial;
    PositionReads(c, x, y);
    var packet := [5] + LE32(c) + [16] + LE32(x) + LE32(y);
    assert B.FanOut(t, c, packet, sent);
    var order: seq<Bytes> :| B.Enumerates(order, B.Routed(t, c)) && |sent| == |order|
      && forall i :: 0 <= i < |order| ==>
           order[i] in t.routes && sent[i] == B.Packet(t.routes[order[i]].authority, packet);
    if topic in B.Routed(t, c) {
      assert topic in order;
    }
  }
}
