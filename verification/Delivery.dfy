/** Who is sent what by the broker, packet by packet, and what the client makes of it. */
module Delivery {
  import opened Wire
  import Spatial
  import opened SpatialInvariant
  import opened SpatialRuns
  import opened SpatialPackets
  import B = BrokerModel

  // ---------------------------------------------------------------- publishing

  /** The listeners of the topic whose address is known. */
  ghost function Audience(t: B.Tables, topic: Bytes): (r: set<ClientId>)
    requires topic in t.routes
    ensures forall c :: c in r ==> c in t.addresses
  {
    set c | c in t.routes[topic].clients && c in t.addresses
  }

  /** No element comes twice, and the elements are those of the set. */
  lemma {:induction false} EnumerationSize<T(!new)>(order: seq<T>, s: set<T>)
    requires B.Enumerates(order, s)
    ensures |order| == |s|
  {
    if order == [] {
      assert forall x :: x in s ==> x in order;
      assert s == {};
    } else {
      var front, last := order[..|order| - 1], order[|order| - 1];
      assert last in order;
      assert forall x :: x in order <==> x in front || x == last;
      assert forall i :: 0 <= i < |front| ==> front[i] == order[i];
      assert last !in front;
      EnumerationSize(front, s - {last});
    }
  }

  lemma {:induction false} Enumerated<T(!new)>(order: seq<T>, s: set<T>)
    requires B.Enumerates(order, s)
    ensures forall x :: x in order <==> x in s
  {
  }

  ghost predicate EveryListener(t: B.Tables, topic: Bytes, data: Bytes, sent: seq<B.Packet>)
    requires topic in t.routes
  {
    forall c :: c in Audience(t, topic) ==>
      exists i :: 0 <= i < |sent| && sent[i] == B.Packet(t.addresses[c], data)
  }

  ghost predicate ForListener(t: B.Tables, topic: Bytes, data: Bytes, p: B.Packet)
    requires topic in t.routes
  {
    exists c :: c in Audience(t, topic) && p == B.Packet(t.addresses[c], data)
  }

  ghost predicate OnlyListeners(t: B.Tables, topic: Bytes, data: Bytes, sent: seq<B.Packet>)
    requires topic in t.routes
  {
    forall i :: 0 <= i < |sent| ==> ForListener(t, topic, data, sent[i])
  }

  /** One copy of `data` for every listener of the topic with a known address, and nothing else. */
  ghost predicate ToAudience(t: B.Tables, topic: Bytes, data: Bytes, sent: seq<B.Packet>)
    requires topic in t.routes
  {
    |sent| == |Audience(t, topic)| && EveryListener(t, topic, data, sent) && OnlyListeners(t, topic, data, sent)
  }

  lemma {:induction false} CopiesToEvery(t: B.Tables, topic: Bytes, data: Bytes, sent: seq<B.Packet>,
          order: seq<ClientId>)
    requires topic in t.routes && B.Enumerates(order, Audience(t, topic)) && |sent| == |order|
    requires forall i :: 0 <= i < |order| ==>
               order[i] in t.addresses && sent[i] == B.Packet(t.addresses[order[i]], data)
    ensures |sent| == |Audience(t, topic)| && EveryListener(t, topic, data, sent)
  {
    hide B.Enumerates, Audience;
    EnumerationSize(order, Audience(t, topic));
    Enumerated(order, Audience(t, topic));
    forall c | c in Audience(t, topic)
      ensures exists i :: 0 <= i < |sent| && sent[i] == B.Packet(t.addresses[c], data)
    {
      var i :| 0 <= i < |order| && order[i] == c;
      assert sent[i] == B.Packet(t.addresses[c], data);
    }
  }

  lemma {:induction false} CopiesToOnly(t: B.Tables, topic: Bytes, data: Bytes, sent: seq<B.Packet>,
          order: seq<ClientId>)
    requires topic in t.routes && B.Enumerates(order, Audience(t, topic)) && |sent| == |order|
    requires forall i :: 0 <= i < |order| ==>
               order[i] in t.addresses && sent[i] == B.Packet(t.addresses[order[i]], data)
    ensures OnlyListeners(t, topic, data, sent)
  {
    hide B.Enumerates, Audience;
    Enumerated(order, Audience(t, topic));
    forall i | 0 <= i < |sent|
      ensures ForListener(t, topic, data, sent[i])
    {
      assert order[i] in order;
    }
  }

  /**
   * A Publish goes out exactly if the sender is the authority of the topic and the frame fits into 1500
   * bytes with its header: then every listener with a known address is sent one copy, and nobody else.
   */
  lemma {:induction false} PublishExact(t: B.Tables, topic: Bytes, game: Bytes, src: B.Addr, sent: seq<B.Packet>)
    requires B.Sends(t, B.Publish(topic, game), src, sent)
    ensures if topic in t.routes && t.routes[topic].authority == src && |game| <= 1497
            then ToAudience(t, topic, [4] + LE16(|game|) + game, sent)
            else sent == []
  {
    hide LE16, B.Enumerates, EveryListener, OnlyListeners;
    if topic in t.routes && t.routes[topic].authority == src && |game| <= 1497 {
      var order: seq<ClientId> :| B.Enumerates(order, B.Recipients(t, topic)) && |sent| == |order|
        && forall i :: 0 <= i < |order| ==> order[i] in t.addresses && sent[i] == B.Packet(t.addresses[order[i]],
            B.Broadcast(game));
      assert B.Recipients(t, topic) == Audience(t, topic);
      CopiesToEvery(t, topic, [4] + LE16(|game|) + game, sent, order);
      CopiesToOnly(t, topic, [4] + LE16(|game|) + game, sent, order);
    }
  }

  /** Over every message history only frames of whoever claimed the topic last go out. */
  lemma {:induction false} LatestClaimPublishes(h: seq<B.Received>, topic: Bytes, game: Bytes, src: B.Addr,
          sent: seq<B.Packet>)
    requires B.Sends(B.TablesAfter(h), B.Publish(topic, game), src, sent) && sent != []
    ensures exists i :: B.LatestClaim(h, i, topic, src)
  {
    hide B.TablesAfter, B.Sends, B.LatestClaim;
    PublishExact(B.TablesAfter(h), topic, game, src, sent);
    B.AddressesExact(h, topic, 0, src);
  }

  // ---------------------------------------------------------------- inputs and departures

  /** The topics of the client that have a route. */
  ghost function ServedTopics(t: B.Tables, c: ClientId): (r: set<Bytes>)
    ensures forall topic :: topic in r ==> topic in t.routes
  {
    if c in t.topics then set topic | topic in t.topics[c] && topic in t.routes else {}
  }

  ghost predicate EveryServer(t: B.Tables, c: ClientId, data: Bytes, sent: seq<B.Packet>) {
    forall topic :: topic in ServedTopics(t, c) ==>
      exists i :: 0 <= i < |sent| && sent[i] == B.Packet(t.routes[topic].authority, data)
  }

  ghost predicate ForServer(t: B.Tables, c: ClientId, data: Bytes, p: B.Packet) {
    exists topic :: topic in ServedTopics(t, c) && p == B.Packet(t.routes[topic].authority, data)
  }

  ghost predicate OnlyServers(t: B.Tables, c: ClientId, data: Bytes, sent: seq<B.Packet>) {
    forall i :: 0 <= i < |sent| ==> ForServer(t, c, data, sent[i])
  }

  /** One copy of `data` for every such topic, to the server behind it, and nothing else. */
  ghost predicate ToEveryServer(t: B.Tables, c: ClientId, data: Bytes, sent: seq<B.Packet>) {
    |sent| == |ServedTopics(t, c)| && EveryServer(t, c, data, sent) && OnlyServers(t, c, data, sent)
  }

  ghost predicate InTopicOrder(t: B.Tables, data: Bytes, sent: seq<B.Packet>, order: seq<Bytes>) {
    && |sent| == |order|
    && forall i :: 0 <= i < |order| ==> order[i] in t.routes && sent[i] == B.Packet(t.routes[order[i]].authority, data)
  }

  lemma {:induction false} FanOutToEvery(t: B.Tables, c: ClientId, data: Bytes, sent: seq<B.Packet>, order: seq<Bytes>)
    requires B.Enumerates(order, ServedTopics(t, c)) && InTopicOrder(t, data, sent, order)
    ensures |sent| == |ServedTopics(t, c)| && EveryServer(t, c, data, sent)
  {
    hide B.Enumerates, ServedTopics;
    EnumerationSize(order, ServedTopics(t, c));
    Enumerated(order, ServedTopics(t, c));
    forall topic | topic in ServedTopics(t, c)
      ensures exists i :: 0 <= i < |sent| && sent[i] == B.Packet(t.routes[topic].authority, data)
    {
      var i :| 0 <= i < |order| && order[i] == topic;
      assert sent[i] == B.Packet(t.routes[topic].authority, data);
    }
  }

  lemma {:induction false} FanOutToOnly(t: B.Tables, c: ClientId, data: Bytes, sent: seq<B.Packet>, order: seq<Bytes>)
    requires B.Enumerates(order, ServedTopics(t, c)) && InTopicOrder(t, data, sent, order)
    ensures OnlyServers(t, c, data, sent)
  {
    hide B.Enumerates, ServedTopics;
    Enumerated(order, ServedTopics(t, c));
    forall i | 0 <= i < |sent|
      ensures ForServer(t, c, data, sent[i])
    {
      assert order[i] in order;
    }
  }

  lemma {:induction false} RoutedTopics(t: B.Tables, c: ClientId)
    ensures B.Routed(t, c) == ServedTopics(t, c)
  {
  }

  lemma {:induction false} FanOutExact(t: B.Tables, c: ClientId, data: Bytes, sent: seq<B.Packet>)
    requires B.FanOut(t, c, data, sent)
    ensures ToEveryServer(t, c, data, sent)
  {
    hide B.Enumerates, B.Routed, ServedTopics, EveryServer, OnlyServers;
    RoutedTopics(t, c);
    var order: seq<Bytes> :| B.Enumerates(order, B.Routed(t, c)) && |sent| == |order|
      && forall i :: 0 <= i < |order| ==>
           order[i] in t.routes && sent[i] == B.Packet(t.routes[order[i]].authority, data);
    FanOutToEvery(t, c, data, sent, order);
    FanOutToOnly(t, c, data, sent, order);
  }

  lemma {:induction false} InputParses(c: ClientId, input: Bytes)
    ensures B.Parse([5] + LE32(c) + input) == B.ClientInput(c, input)
    ensures B.Parse([7] + LE32(c)) == B.ClientDisconnect(c)
  {
    hide LE32, FromLE32;
    LE32RoundTrip(c);
    var data := LE32(c) + input;
    assert ([5] + LE32(c) + input)[1..] == data;
    assert data[..4] == LE32(c) && data[4..] == input;
    assert ([7] + LE32(c))[1..] == LE32(c);
    assert LE32(c)[..4] == LE32(c);
  }

  /**
   * Whatever a client sends as input, up to 507 bytes of it, reaches the server of every routed topic of
   * the client as it was sent; longer input reaches nobody.
   */
  lemma {:induction false} InputForwarded(t: B.Tables, c: ClientId, input: Bytes, src: B.Addr, sent: seq<B.Packet>)
    requires B.Sends(t, B.Parse([5] + LE32(c) + input), src, sent)
    ensures if |input| <= 507 then ToEveryServer(t, c, [5] + LE32(c) + input, sent) else sent == []
  {
    hide LE32, B.Parse, B.FanOut, ToEveryServer;
    InputParses(c, input);
    if |input| <= 507 {
      FanOutExact(t, c, [5] + LE32(c) + input, sent);
    }
  }

  /** The server of every routed topic of a client is told of its departure, once per topic. */
  lemma {:induction false} DepartureForwarded(t: B.Tables, c: ClientId, src: B.Addr, sent: seq<B.Packet>)
    requires B.Sends(t, B.Parse([7] + LE32(c)), src, sent)
    ensures ToEveryServer(t, c, [7] + LE32(c), sent)
  {
    hide LE32, B.Parse, B.FanOut, ToEveryServer;
    InputParses(c, []);
    FanOutExact(t, c, [7] + LE32(c), sent);
  }

  /** Subscriptions, claims and what the broker does not understand are never answered. */
  lemma {:induction false} OthersSilent(t: B.Tables, m: B.Message, src: B.Addr, sent: seq<B.Packet>)
    requires B.Sends(t, m, src, sent)
    requires m.Subscribe? || m.Unsubscribe? || m.RegisterShard? || m.Ignored?
    ensures sent == []
  {
    assert m.Subscribe? || m.Unsubscribe? || m.RegisterShard? || m.Ignored?;
  }

  // ---------------------------------------------------------------- what the client is told

  /** What a client knows: the shard it belongs to, once it has been told of one. */
  datatype Membership = Outside | Member(shard: nat)

  /** The client's reading of a change of authority; one that is too short or meant for somebody else is skipped. */
  function Told(own: ClientId, before: Membership, packet: Bytes): Membership {
    if |packet| >= 13 && packet[0] == 18 && FromLE32(packet[1..5]) == own
    then Member(FromLE32(packet[9..13])) else before
  }

  /** The datagram of a change of authority, byte by byte. */
  ghost predicate SaysChange(packet: Bytes, c: nat, src: nat, dst: nat) {
    && |packet| == 13 && packet[0] == 18
    && FromLE32(packet[1..5]) == c && FromLE32(packet[5..9]) == src && FromLE32(packet[9..13]) == dst
  }

  /**
   * An AuthorityChange goes first to the client, if it has an address, then to the server of the old shard and
   * then to that of the new one, where there are any; every copy is the datagram the spatial server sent.
   */
  lemma {:induction false} ChangeDelivered(t: B.Tables, c: ClientId, src: nat, dst: nat, data: Bytes, from: B.Addr,
          sent: seq<B.Packet>)
    requires B.Sends(t, B.Authority(c, src, dst, data), from, sent)
    ensures c in t.addresses ==> sent != [] && sent[0].to == t.addresses[c]
    ensures forall i :: 0 <= i < |sent| ==> sent[i].data == [18] + data
    ensures forall i :: 0 <= i < |sent| && (i > 0 || c !in t.addresses) ==>
              || (ShardTopic(src) in t.routes && sent[i].to == t.routes[ShardTopic(src)].authority)
              || (ShardTopic(dst) in t.routes && sent[i].to == t.routes[ShardTopic(dst)].authority)
    ensures var first := if c in t.addresses then 1 else 0;
            && (ShardTopic(src) in t.routes ==>
                  first < |sent| && sent[first].to == t.routes[ShardTopic(src)].authority)
            && (ShardTopic(dst) in t.routes ==>
                  first < |sent| && sent[|sent| - 1].to == t.routes[ShardTopic(dst)].authority)
    ensures |sent| == (if c in t.addresses then 1 else 0) + (if ShardTopic(src) in t.routes then 1 else 0)
                      + (if ShardTopic(dst) in t.routes then 1 else 0)
  {
    hide ShardTopic;
  }

  lemma {:induction false} ChangeSays(c: ClientId, src: nat, dst: nat)
    requires src < U32 && dst < U32
    ensures var packet := EncodeAction(Spatial.AuthorityChange(c, src, dst));
            && SaysChange(packet, c, src, dst)
            && B.Parse(packet) == B.Authority(c, src, dst, packet[1..]) && [18] + packet[1..] == packet
            && forall before :: Told(c, before, packet) == Member(dst)
  {
    hide LE32, FromLE32, Word;
    LE32RoundTrip(c);
    LE32RoundTrip(src);
    LE32RoundTrip(dst);
    var packet := EncodeAction(Spatial.AuthorityChange(c, src, dst));
    assert packet == [18] + LE32(c) + LE32(src) + LE32(dst);
    assert packet[1..5] == LE32(c) && packet[5..9] == LE32(src) && packet[9..13] == LE32(dst);
    ChangeReads(c, src, dst);
    assert packet[1..] == LE32(c) + LE32(src) + LE32(dst);
  }

  /**
   * Every AuthorityChange the spatial server emits reaches its client, if the client has an address, and
   * tells it its new shard.
   */
  lemma {:induction false} ChangeReachesClient(t: B.Tables, c: ClientId, src: nat, dst: nat, from: B.Addr,
          sent: seq<B.Packet>, before: Membership)
    requires src < U32 && dst < U32
    requires B.Sends(t, B.Parse(EncodeAction(Spatial.AuthorityChange(c, src, dst))), from, sent)
    ensures c in t.addresses ==>
              && sent != [] && sent[0].to == t.addresses[c] && SaysChange(sent[0].data, c, src, dst)
              && Told(c, before, sent[0].data) == Member(dst)
  {
    hide EncodeAction, B.Parse, SaysChange, Told, B.Sends;
    ChangeSays(c, src, dst);
    var packet := EncodeAction(Spatial.AuthorityChange(c, src, dst));
    ChangeDelivered(t, c, src, dst, packet[1..], from, sent);
  }

  /** A CrossingAlert reaches its client as the spatial server sent it, and nobody else. */
  lemma {:induction false} AlertReachesClient(t: B.Tables, c: ClientId, shards: seq<nat>, from: B.Addr,
          sent: seq<B.Packet>)
    requires B.Sends(t, B.Parse(EncodeAction(Spatial.CrossingAlert(c, shards))), from, sent)
    ensures if c in t.addresses
            then sent == [B.Packet(t.addresses[c], [17] + LE32(c) + [|shards| % 256] + EncodeIds(shards))]
            else sent == []
  {
    hide LE32, Word, EncodeIds, B.Parse;
    ActionReads(Spatial.CrossingAlert(c, shards));
    assert [17] + (LE32(c) + [|shards| % 256] + EncodeIds(shards))
        == [17] + LE32(c) + [|shards| % 256] + EncodeIds(shards);
  }

  /** What a client knows that is told of these changes of its authority, in order. */
  ghost function Informed(own: ClientId, l: seq<Handover>): Membership {
    if l == [] then Outside
    else
      var h := l[|l| - 1];
      Told(own, Informed(own, l[..|l| - 1]), EncodeAction(Spatial.AuthorityChange(own, h.src, h.dst)))
  }

  lemma {:induction false} ChangeWraps(c: ClientId, src: nat, dst: nat)
    ensures EncodeAction(Spatial.AuthorityChange(c, src, dst))
         == EncodeAction(Spatial.AuthorityChange(c, src % U32, dst % U32))
  {
    hide LE32;
  }

  lemma {:induction false} InformedLast(own: ClientId, l: seq<Handover>)
    ensures Informed(own, l) == if l == [] then Outside else Member(l[|l| - 1].dst % U32)
  {
    hide EncodeAction, Told;
    if l != [] {
      var h := l[|l| - 1];
      ChangeWraps(own, h.src, h.dst);
      ChangeSays(own, h.src % U32, h.dst % U32);
    }
  }

  lemma {:induction false} RecordedFits(w: Spatial.World, s: Spatial.Server, c: nat)
    requires Inv(w, s) && s.svc.nextId <= U32
    ensures c in s.svc.primary ==> s.svc.primary[c] < U32
  {
    hide TreeInv, ReadyInv, GroupInv;
  }

  /**
   * The client and the spatial server agree: after every run that numbers fewer than 2^32 shards, a client
   * that was told of each change of its authority belongs to the shard it is recorded in, and a client that
   * is not recorded to none.
   */
  lemma {:induction false} ClientFollows(w: Spatial.World, run: seq<Record>, c: ClientId)
    requires Spatial.Sound(w) && IsRun(w, run) && End(w, run).svc.nextId <= U32
    ensures var primary := End(w, run).svc.primary;
            Informed(c, Handovers(run, c)) == if c in primary then Member(primary[c]) else Outside
  {
    hide Informed, End, Handovers, Inv, IsRun, Told;
    AuthorityChain(w, run, c);
    InformedLast(c, Handovers(run, c));
    EndInv(w, run);
    RecordedFits(w, End(w, run), c);
  }
}
