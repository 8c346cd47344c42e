/** The state frame on its way from a shard through the broker to a client. */
module Frames {
  import opened Options
  import opened Wire
  import opened BrokerModel

  /** One player in a frame; the coordinates are kept as the bits of their 32-bit floats. */
  datatype Player = Player(id: nat, x: nat, y: nat)

  ghost predicate Wire32(ps: seq<Player>) {
    forall i :: 0 <= i < |ps| ==> ps[i].id < U32 && ps[i].x < U32 && ps[i].y < U32
  }

  function EncodePlayer(p: Player): (r: Bytes)
    requires p.id < U32 && p.x < U32 && p.y < U32
    ensures |r| == 12
  {
    LE32(p.id) + LE32(p.x) + LE32(p.y)
  }

  function EncodePlayers(ps: seq<Player>): (r: Bytes)
    requires Wire32(ps)
    ensures |r| == 12 * |ps|
  {
    if ps == [] then [] else EncodePlayers(ps[..|ps| - 1]) + EncodePlayer(ps[|ps| - 1])
  }

  const MAX_COUNT: nat := 255

  function Capped(ps: seq<Player>): seq<Player> {
    if |ps| <= MAX_COUNT then ps else ps[..MAX_COUNT]
  }

  /** The payload of a frame: a count byte, which stops at 255, and that many players. */
  function GameData(ps: seq<Player>): (r: Bytes)
    requires Wire32(ps)
    ensures |r| == 1 + 12 * |Capped(ps)|
  {
    [|Capped(ps)|] + EncodePlayers(Capped(ps))
  }

  /** The Publish packet of a frame. */
  function PublishPacket(ps: seq<Player>, topic: Bytes): Bytes
    requires Wire32(ps)
  {
    [3] + topic + LE16(|GameData(ps)|) + GameData(ps)
  }

  /** `broadcast_state`: nothing without players, else one Publish packet for every hosted shard. */
  method BroadcastState(ps: seq<Player>, topics: seq<Bytes>) returns (sent: seq<Bytes>)
    requires Wire32(ps) && forall i :: 0 <= i < |topics| ==> |topics[i]| == TOPIC_LEN
    ensures ps == [] ==> sent == []
    ensures ps != [] ==> |sent| == |topics| && forall i :: 0 <= i < |topics| ==> sent[i] == PublishPacket(ps, topics[i])
  {
    sent := [];
    if ps == [] {
      return;
    }
    var payload: Bytes := [];
    var count := 0;
    while count < |ps| && count < MAX_COUNT
      invariant count <= |ps| && count <= MAX_COUNT
      invariant payload == EncodePlayers(ps[..count])
    {
      payload := payload + EncodePlayer(ps[count]);
      assert ps[..count + 1][..count] == ps[..count];
      count := count + 1;
    }
    assert ps[..count] == Capped(ps);
    var game := [count] + payload;
    for i := 0 to |topics|
      invariant |sent| == i && forall j :: 0 <= j < i ==> sent[j] == PublishPacket(ps, topics[j])
    {
      sent := sent + [[3] + topics[i] + LE16(|game|) + game];
    }
  }

  /** A frame says how many players it holds, at most 255, in its 36th byte, and has twelve bytes for each. */
  lemma {:induction false} FrameSize(ps: seq<Player>, topic: Bytes)
    requires Wire32(ps) && |topic| == TOPIC_LEN
    ensures var n, packet := if |ps| <= 255 then |ps| else 255, PublishPacket(ps, topic);
            |packet| == 36 + 12 * n && packet[0] == 3 && packet[1..33] == topic && packet[35] == n
  {
    hide EncodePlayers, LE16;
    var packet := PublishPacket(ps, topic);
    assert packet[1..33] == topic;
    assert packet[35] == GameData(ps)[0];
  }

  const BROKER_BUFFER: nat := 2048

  const CLIENT_BUFFER: nat := 1024

  function DecodePlayer(b: Bytes): (p: Player)
    requires |b| == 12
  {
    Player(FromLE32(b[..4]), FromLE32(b[4..8]), FromLE32(b[8..12]))
  }

  /** The players a packet still holds from `offset` on, at most `count` of them. */
  function DecodePlayers(packet: Bytes, offset: nat, count: nat): seq<Player>
    requires offset <= |packet|
    decreases count
  {
    if count == 0 || offset + 12 > |packet| then []
    else [DecodePlayer(packet[offset..offset + 12])] + DecodePlayers(packet, offset + 12, count - 1)
  }

  /** The client's reading of a Broadcast: the count at byte 3, players from byte 4. */
  function DecodeBroadcast(packet: Bytes): seq<Player> {
    if |packet| < 4 || packet[0] != 4 then [] else DecodePlayers(packet, 4, packet[3])
  }

  /** The decode loop of the client, advancing `offset` over the receive buffer. */
  method HandleBroadcast(packet: Bytes) returns (players: seq<Player>)
    ensures players == DecodeBroadcast(packet)
  {
    players := [];
    if |packet| < 4 || packet[0] != 4 {
      return;
    }
    var count := packet[3];
    var offset := 4;
    var i := 0;
    while i < count
      invariant i <= count && 4 <= offset <= |packet|
      invariant players + DecodePlayers(packet, offset, count - i) == DecodePlayers(packet, 4, count)
    {
      if offset + 12 > |packet| {
        break;
      }
      players := players + [DecodePlayer(packet[offset..offset + 12])];
      offset := offset + 12;
      i := i + 1;
    }
  }

  // ---------------------------------------------------------------- the round trip

  lemma {:induction false} PlayerRoundTrip(p: Player)
    requires p.id < U32 && p.x < U32 && p.y < U32
    ensures DecodePlayer(EncodePlayer(p)) == p
  {
    hide LE32, FromLE32;
    LE32RoundTrip(p.id);
    LE32RoundTrip(p.x);
    LE32RoundTrip(p.y);
    var b := EncodePlayer(p);
    assert b[..4] == LE32(p.id) && b[4..8] == LE32(p.x) && b[8..12] == LE32(p.y);
  }

  lemma {:induction false} EncodeAt(ps: seq<Player>, i: nat)
    requires Wire32(ps) && i < |ps|
    ensures EncodePlayers(ps)[12 * i..12 * i + 12] == EncodePlayer(ps[i])
  {
    hide EncodePlayer;
    var front := ps[..|ps| - 1];
    var b := EncodePlayers(ps);
    assert b == EncodePlayers(front) + EncodePlayer(ps[|ps| - 1]);
    if i < |front| {
      EncodeAt(front, i);
      assert b[12 * i..12 * i + 12] == EncodePlayers(front)[12 * i..12 * i + 12];
    } else {
      assert b[12 * i..12 * i + 12] == EncodePlayer(ps[|ps| - 1]);
    }
  }

  /** The twelve bytes of a player in a frame: its id, then its x and its y coordinate. */
  lemma {:induction false} FrameLayout(ps: seq<Player>, topic: Bytes, i: nat)
    requires Wire32(ps) && |topic| == TOPIC_LEN && i < |ps| && i < 255
    ensures var packet, at := PublishPacket(ps, topic), 36 + 12 * i;
            && at + 12 <= |packet|
            && FromLE32(packet[at..at + 4]) == ps[i].id && FromLE32(packet[at + 4..at + 8]) == ps[i].x
            && FromLE32(packet[at + 8..at + 12]) == ps[i].y
  {
    hide EncodePlayers, LE16, LE32, FromLE32;
    var packet, at, capped := PublishPacket(ps, topic), 36 + 12 * i, Capped(ps);
    FrameSize(ps, topic);
    EncodeAt(capped, i);
    assert packet[36..] == EncodePlayers(capped);
    assert packet[at..at + 12] == EncodePlayers(capped)[12 * i..12 * i + 12] == EncodePlayer(ps[i]);
    assert packet[at..at + 4] == packet[at..at + 12][..4] == LE32(ps[i].id);
    assert packet[at + 4..at + 8] == packet[at..at + 12][4..8] == LE32(ps[i].x);
    assert packet[at + 8..at + 12] == packet[at..at + 12][8..12] == LE32(ps[i].y);
    LE32RoundTrip(ps[i].id);
    LE32RoundTrip(ps[i].x);
    LE32RoundTrip(ps[i].y);
  }

  /** Decoding a header of four bytes and a possibly cut player list yields the players that fit. */
  lemma {:induction false} DecodeFrom(packet: Bytes, ps: seq<Player>, whole: nat, i: nat)
    requires Wire32(ps) && i <= whole <= |ps|
    requires 4 + 12 * whole <= |packet| && (whole < |ps| ==> |packet| < 4 + 12 * (whole + 1))
    requires whole == |ps| ==> |packet| == 4 + 12 * |ps|
    requires forall k :: 4 <= k < |packet| ==> k - 4 < 12 * |ps| && packet[k] == EncodePlayers(ps)[k - 4]
    ensures DecodePlayers(packet, 4 + 12 * i, |ps| - i) == ps[i..whole]
    decreases whole - i
  {
    hide EncodePlayer, DecodePlayer, EncodePlayers;
    if i < whole {
      var at := 4 + 12 * i;
      EncodeAt(ps, i);
      assert packet[at..at + 12] == EncodePlayers(ps)[12 * i..12 * i + 12];
      PlayerRoundTrip(ps[i]);
      DecodeFrom(packet, ps, whole, i + 1);
      assert ps[i..whole] == [ps[i]] + ps[i + 1..whole];
    }
  }

  /** How many of the players of a frame reach a client. */
  ghost function Delivered(n: nat): nat {
    if n <= 85 then n else if n <= 124 then 85 else 0
  }

  /** The broadcast a subscribed client receives for a Publish packet the broker received, if any. */
  ghost function Relayed(published: Bytes): Option<Bytes> {
    var m := Parse(Receive(published, BROKER_BUFFER));
    if m.Publish? && 3 + |m.game| <= BROADCAST_LIMIT then Some(Receive(Broadcast(m.game), CLIENT_BUFFER)) else None
  }

  lemma {:induction false} PublishParses(game: Bytes, topic: Bytes)
    requires |topic| == TOPIC_LEN && |game| < 65536
    ensures var packet := [3] + topic + LE16(|game|) + game;
            Parse(Receive(packet, BROKER_BUFFER)) == if |game| <= BROKER_BUFFER - 35 then Publish(topic, game)
                else Ignored
  {
    var packet := [3] + topic + LE16(|game|) + game;
    var got := Receive(packet, BROKER_BUFFER);
    var data := got[1..];
    assert |packet| == 35 + |game|;
    assert |data| >= 34 && forall k :: 0 <= k < |data| ==> data[k] == packet[k + 1];
    assert packet[1..33] == topic && packet[33..35] == LE16(|game|) && packet[35..] == game;
    assert data[..32] == packet[1..33] && data[32..34] == packet[33..35];
    assert FromLE16(LE16(|game|)) == |game|;
    if |game| <= BROKER_BUFFER - 35 {
      assert got == packet && data[34..34 + |game|] == packet[35..];
    }
  }

  lemma {:induction false} RelayedFrame(ps: seq<Player>, topic: Bytes)
    requires Wire32(ps) && ps != [] && |topic| == TOPIC_LEN
    ensures Relayed(PublishPacket(ps, topic))
         == if |ps| <= 124 then Some(Receive(Broadcast(GameData(ps)), CLIENT_BUFFER)) else None
  {
    hide Parse, GameData, Broadcast;
    PublishParses(GameData(ps), topic);
  }

  lemma {:induction false} BroadcastDecodes(ps: seq<Player>)
    requires Wire32(ps) && ps != [] && |ps| <= 124
    ensures DecodeBroadcast(Receive(Broadcast(GameData(ps)), CLIENT_BUFFER)) == ps[..Delivered(|ps|)]
  {
    hide EncodePlayers, LE16;
    var full := Broadcast(GameData(ps));
    var packet := Receive(full, CLIENT_BUFFER);
    assert Capped(ps) == ps;
    assert full == [4] + LE16(|GameData(ps)|) + [|ps|] + EncodePlayers(ps);
    assert |full| == 4 + 12 * |ps|;
    assert packet[3] == |ps| && packet[0] == 4;
    DecodeFrom(packet, ps, Delivered(|ps|), 0);
  }

  /**
   * The state frame, end to end: up to 85 players arrive complete and in order, from 86 to 124 the
   * client's 1024-byte buffer keeps the first 85, and from 125 on the broker sends nothing.
   */
  lemma {:induction false} FrameRoundTrip(ps: seq<Player>, topic: Bytes)
    requires Wire32(ps) && ps != [] && |topic| == TOPIC_LEN
    ensures var r := Relayed(PublishPacket(ps, topic));
            && (r.Some? <==> |ps| <= 124)
            && (r.Some? ==> DecodeBroadcast(r.value) == ps[..Delivered(|ps|)])
  {
    hide Relayed, GameData, Broadcast, DecodeBroadcast;
    RelayedFrame(ps, topic);
    if |ps| <= 124 {
      BroadcastDecodes(ps);
    }
  }

  /** Every subscriber with a known address gets that frame, provided the publisher owns the topic. */
  lemma {:induction false} FrameReachesSubscribers(t: Tables, published: Bytes, src: Addr, sent: seq<Packet>,
          c: ClientId)
    requires var m := Parse(Receive(published, BROKER_BUFFER)); m.Publish? && Sends(t, m, src, sent)
    requires var topic := Parse(Receive(published, BROKER_BUFFER)).topic;
             topic in t.routes && t.routes[topic].authority == src && c in t.routes[topic].clients && c in t.addresses
    ensures Relayed(published).None? ==> sent == []
    ensures Relayed(published).Some? ==>
              exists i :: 0 <= i < |sent| && sent[i].to == t.addresses[c]
                  && Some(Receive(sent[i].data, CLIENT_BUFFER)) == Relayed(published)
  {
    hide Parse, Broadcast;
    var m := Parse(Receive(published, BROKER_BUFFER));
    if Relayed(published).Some? {
      var order: seq<ClientId> :| Enumerates(order, Recipients(t, m.topic)) && |sent| == |order|
        && forall i :: 0 <= i < |order| ==> order[i] in t.addresses && sent[i] == Packet(t.addresses[order[i]],
            Broadcast(m.game));
      assert c in order;
      var i :| 0 <= i < |order| && order[i] == c;
      assert sent[i].to == t.addresses[c];
    }
  }
}
