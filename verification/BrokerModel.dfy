/** The broker's routing tables and messages as values, and what every message history keeps. */
module BrokerModel {
  import opened Wire

  type Addr = nat

  datatype TopicRoute = TopicRoute(authority: Addr, clients: set<ClientId>)

  datatype Tables = Tables(addresses: map<ClientId, Addr>, topics: map<ClientId, set<Bytes>>,
          routes: map<Bytes, TopicRoute>)

  const NO_TABLES := Tables(map[], map[], map[])

  /** A packet to one address. */
  datatype Packet = Packet(to: Addr, data: Bytes)

  // ---------------------------------------------------------------- messages

  datatype Message =
    | Subscribe(client: ClientId, topic: Bytes)
    | Unsubscribe(client: ClientId, topic: Bytes)
    | Publish(topic: Bytes, game: Bytes)
    | ClientInput(client: ClientId, input: Bytes)
    | RegisterShard(topic: Bytes)
    | ClientDisconnect(client: ClientId)
    | RouteToTopic(topic: Bytes, payload: Bytes)
    | Alert(client: ClientId, data: Bytes)
    | Authority(client: ClientId, oldShard: nat, newShard: nat, data: Bytes)
    | ServerReady(data: Bytes)
    | Ignored

  /** Dispatch on the tag byte; a packet too short for its tag is ignored. */
  function Parse(packet: Bytes): (m: Message)
    ensures m.Publish? ==> |m.game| < 65536
  {
    if |packet| < 1 then Ignored else
    var data := packet[1..];
    match packet[0]
    case 1 => if |data| < 36 then Ignored else Subscribe(FromLE32(data[..4]), data[4..36])
    case 2 => if |data| < 36 then Ignored else Unsubscribe(FromLE32(data[..4]), data[4..36])
    case 3 =>
      if |data| < 34 then Ignored else
      var len := FromLE16(data[32..34]);
      if |data| < 34 + len then Ignored else Publish(data[..32], data[34..34 + len])
    case 5 => if |data| < 4 then Ignored else ClientInput(FromLE32(data[..4]), data[4..])
    case 6 => if |data| < 32 then Ignored else RegisterShard(data[..32])
    case 7 => if |data| < 4 then Ignored else ClientDisconnect(FromLE32(data[..4]))
    case 8 => if |data| < 32 then Ignored else RouteToTopic(data[..32], data[32..])
    case 17 => if |data| < 4 then Ignored else Alert(FromLE32(data[..4]), data)
    case 18 =>
      if |data| < 12 then Ignored
      else Authority(FromLE32(data[..4]), FromLE32(data[4..8]), FromLE32(data[8..12]), data)
    case 20 => if |data| < 4 then Ignored else ServerReady(data)
    case _ => Ignored
  }

  // ---------------------------------------------------------------- the tables

  function TopicsOf(t: Tables, c: ClientId): set<Bytes> {
    if c in t.topics then t.topics[c] else {}
  }

  function ListenersOf(t: Tables, topic: Bytes): set<ClientId> {
    if topic in t.routes then t.routes[topic].clients else {}
  }

  function AddListener(t: Tables, c: ClientId, topic: Bytes): map<Bytes, TopicRoute> {
    if topic in t.routes then t.routes[topic := t.routes[topic].(clients := t.routes[topic].clients + {c})]
        else t.routes
  }

  function DropListener(t: Tables, c: ClientId, topic: Bytes): map<Bytes, TopicRoute> {
    if topic in t.routes then t.routes[topic := t.routes[topic].(clients := t.routes[topic].clients - {c})]
        else t.routes
  }

  function Claim(t: Tables, topic: Bytes, src: Addr): map<Bytes, TopicRoute> {
    t.routes[topic := TopicRoute(src, ListenersOf(t, topic))]
  }

  /** Drop the client from the routes of the topics it is known to be subscribed to. */
  function DropEverywhere(t: Tables, c: ClientId): map<Bytes, TopicRoute> {
    map topic | topic in t.routes ::
      if topic in TopicsOf(t, c) then t.routes[topic].(clients := t.routes[topic].clients - {c}) else t.routes[topic]
  }

  function Next(t: Tables, m: Message, src: Addr): Tables {
    match m
    case Subscribe(c, topic) => t.(topics := t.topics[c := TopicsOf(t, c) + {topic}],
        routes := AddListener(t, c, topic))
    case Unsubscribe(c, topic) =>
      t.(topics := if c in t.topics then t.topics[c := t.topics[c] - {topic}] else t.topics,
          routes := DropListener(t, c, topic))
    case ClientInput(c, _) => t.(addresses := t.addresses[c := src])
    case RegisterShard(topic) => t.(routes := Claim(t, topic, src))
    case ClientDisconnect(c) => Tables(t.addresses - {c}, t.topics - {c}, DropEverywhere(t, c))
    case _ => t
  }

  // ---------------------------------------------------------------- what is sent

  /** An order in which a hash set may yield its elements. */
  ghost predicate Enumerates<T(!new)>(order: seq<T>, s: set<T>) {
    && (forall i, j :: 0 <= i < j < |order| ==> order[i] != order[j])
    && (forall x :: x in order <==> x in s)
  }

  const BROADCAST_LIMIT: nat := 1500

  const INPUT_LIMIT: nat := 512

  function Broadcast(game: Bytes): Bytes
    requires |game| < 65536
  {
    [4] + LE16(|game|) + game
  }

  function Recipients(t: Tables, topic: Bytes): set<ClientId> {
    set c | c in ListenersOf(t, topic) && c in t.addresses
  }

  function Routed(t: Tables, c: ClientId): set<Bytes> {
    set topic | topic in TopicsOf(t, c) && topic in t.routes
  }

  /** One copy to every subscriber with a known address, in some order. */
  ghost predicate PublishSends(t: Tables, topic: Bytes, game: Bytes, src: Addr, sent: seq<Packet>) {
    if |game| < 65536 && topic in t.routes && t.routes[topic].authority == src && 3 + |game| <= BROADCAST_LIMIT
    then exists order: seq<ClientId> ::
           Enumerates(order, Recipients(t, topic)) && |sent| == |order|
           && forall i :: 0 <= i < |order| ==> order[i] in t.addresses && sent[i] == Packet(t.addresses[order[i]],
               Broadcast(game))
    else sent == []
  }

  /** One copy of `data` to the authority of every routed topic of the client, in some order. */
  ghost predicate FanOut(t: Tables, c: ClientId, data: Bytes, sent: seq<Packet>) {
    exists order: seq<Bytes> ::
      Enumerates(order, Routed(t, c)) && |sent| == |order|
      && forall i :: 0 <= i < |order| ==> order[i] in t.routes && sent[i] == Packet(t.routes[order[i]].authority, data)
  }

  function ToClient(t: Tables, c: ClientId, data: Bytes): seq<Packet> {
    if c in t.addresses then [Packet(t.addresses[c], data)] else []
  }

  function ToTopic(t: Tables, topic: Bytes, data: Bytes): seq<Packet> {
    if topic in t.routes then [Packet(t.routes[topic].authority, data)] else []
  }

  /** The client, the host of the old shard and the host of the new shard, in this order. */
  function AuthoritySends(t: Tables, c: ClientId, oldShard: nat, newShard: nat, data: Bytes): seq<Packet> {
    ToClient(t, c, [18] + data) + ToTopic(t, ShardTopic(oldShard), [18] + data)
        + ToTopic(t, ShardTopic(newShard), [18] + data)
  }

  /** "spatial_updates" in ASCII, padded. */
  const SPATIAL_TOPIC: Bytes := TopicOf([115, 112, 97, 116, 105, 97, 108, 95, 117, 112, 100, 97, 116, 101, 115])

  ghost predicate Sends(t: Tables, m: Message, src: Addr, sent: seq<Packet>) {
    match m
    case Publish(topic, game) => PublishSends(t, topic, game, src, sent)
    case ClientInput(c, input) => if 5 + |input| <= INPUT_LIMIT then FanOut(t, c, [5] + LE32(c) + input, sent)
        else sent == []
    case ClientDisconnect(c) => FanOut(t, c, [7] + LE32(c), sent)
    case RouteToTopic(topic, payload) => sent == ToTopic(t, topic, payload)
    case Alert(c, data) => sent == ToClient(t, c, [17] + data)
    case Authority(c, oldShard, newShard, data) => sent == AuthoritySends(t, c, oldShard, newShard, data)
    case ServerReady(data) => sent == ToTopic(t, SPATIAL_TOPIC, [5] + LE32(0) + [20] + data)
    case _ => sent == []
  }

  // ---------------------------------------------------------------- histories

  datatype Received = Received(message: Message, src: Addr)

  ghost function TablesAfter(h: seq<Received>): Tables {
    if h == [] then NO_TABLES
    else Next(TablesAfter(h[..|h| - 1]), h[|h| - 1].message, h[|h| - 1].src)
  }

  ghost predicate Cancels(m: Message, c: ClientId, topic: Bytes) {
    m == Unsubscribe(c, topic) || m == ClientDisconnect(c)
  }

  /** Message `i` subscribed `c` to the topic and nothing after it took that back. */
  ghost predicate SubscribedSince(h: seq<Received>, i: nat, c: ClientId, topic: Bytes) {
    && i < |h| && h[i].message == Subscribe(c, topic)
    && forall j :: i < j < |h| ==> !Cancels(h[j].message, c, topic)
  }

  ghost predicate RegisteredBefore(h: seq<Received>, i: nat, topic: Bytes) {
    exists r: nat :: r < i && r < |h| && h[r].message == RegisterShard(topic)
  }

  ghost predicate Wants(h: seq<Received>, c: ClientId, topic: Bytes) {
    exists i :: SubscribedSince(h, i, c, topic)
  }

  /** A standing subscription that came after the topic was first registered. */
  ghost predicate Hears(h: seq<Received>, c: ClientId, topic: Bytes) {
    exists i :: SubscribedSince(h, i, c, topic) && RegisteredBefore(h, i, topic)
  }

  lemma {:induction false} RegisteredSnoc(front: seq<Received>, last: Received, i: nat, topic: Bytes)
    ensures i <= |front| ==> (RegisteredBefore(front + [last], i, topic) <==> RegisteredBefore(front, i, topic))
    ensures RegisteredBefore(front + [last], |front| + 1, topic)
       <==> RegisteredBefore(front, |front|, topic) || last.message == RegisterShard(topic)
  {
    var h := front + [last];
    assert forall r :: 0 <= r < |front| ==> h[r] == front[r];
    assert h[|front|] == last;
    if RegisteredBefore(front, i, topic) {
      var r: nat :| r < i && r < |front| && front[r].message == RegisterShard(topic);
      assert h[r].message == RegisterShard(topic);
    }
    if RegisteredBefore(front, |front|, topic) {
      var r: nat :| r < |front| && front[r].message == RegisterShard(topic);
      assert h[r].message == RegisterShard(topic);
    }
  }

  lemma {:induction false} SubscribedSnoc(front: seq<Received>, last: Received, i: nat, c: ClientId, topic: Bytes)
    ensures SubscribedSince(front + [last], i, c, topic)
       <==> || (i == |front| && last.message == Subscribe(c, topic))
            || (SubscribedSince(front, i, c, topic) && !Cancels(last.message, c, topic))
  {
    var h := front + [last];
    assert forall r :: 0 <= r < |front| ==> h[r] == front[r];
    assert h[|front|] == last;
  }

  lemma {:induction false} SubscribedBound(h: seq<Received>, i: nat, c: ClientId, topic: Bytes)
    requires SubscribedSince(h, i, c, topic)
    ensures i < |h|
  {
  }

  lemma {:induction false} RegisteredEarlier(h: seq<Received>, i: nat, topic: Bytes)
    requires RegisteredBefore(h, i, topic)
    ensures RegisteredBefore(h, |h|, topic)
  {
  }

  lemma {:induction false} HistorySnoc(front: seq<Received>, last: Received, c: ClientId, topic: Bytes)
    ensures Wants(front + [last], c, topic)
       <==> last.message == Subscribe(c, topic) || (Wants(front, c, topic) && !Cancels(last.message, c, topic))
    ensures Hears(front + [last], c, topic)
       <==> || (last.message == Subscribe(c, topic) && RegisteredBefore(front, |front|, topic))
            || (Hears(front, c, topic) && !Cancels(last.message, c, topic))
  {
    hide SubscribedSince, RegisteredBefore, Cancels;
    var h := front + [last];
    forall i: nat
      ensures SubscribedSince(h, i, c, topic)
         <==> || (i == |front| && last.message == Subscribe(c, topic))
              || (SubscribedSince(front, i, c, topic) && !Cancels(last.message, c, topic))
    {
      SubscribedSnoc(front, last, i, c, topic);
    }
    forall i: nat | SubscribedSince(front, i, c, topic)
      ensures i < |front| && (RegisteredBefore(h, i, topic) <==> RegisteredBefore(front, i, topic))
    {
      SubscribedBound(front, i, c, topic);
      RegisteredSnoc(front, last, i, topic);
    }
    RegisteredSnoc(front, last, |front|, topic);
    if last.message == Subscribe(c, topic) {
      assert SubscribedSince(h, |front|, c, topic);
      if Hears(front, c, topic) {
        var i :| SubscribedSince(front, i, c, topic) && RegisteredBefore(front, i, topic);
        RegisteredEarlier(front, i, topic);
      }
    }
  }

  lemma {:induction false} HearsWants(h: seq<Received>, c: ClientId, topic: Bytes)
    ensures Hears(h, c, topic) ==> Wants(h, c, topic)
  {
    hide SubscribedSince, RegisteredBefore;
  }

  /** One message, seen from one client and one topic. */
  lemma {:induction false} StepTables(t: Tables, m: Message, src: Addr, c: ClientId, topic: Bytes)
    requires c in ListenersOf(t, topic) ==> topic in TopicsOf(t, c)
    ensures topic in Next(t, m, src).routes <==> topic in t.routes || m == RegisterShard(topic)
    ensures topic in TopicsOf(Next(t, m, src), c)
       <==> m == Subscribe(c, topic) || (topic in TopicsOf(t, c) && !Cancels(m, c, topic))
    ensures c in ListenersOf(Next(t, m, src), topic)
       <==> (m == Subscribe(c, topic) && topic in t.routes) || (c in ListenersOf(t, topic) && !Cancels(m, c, topic))
  {
  }

  /**
   * What the tables hold, for every message history: a topic has a route once it was registered, a
   * client's topics are its standing subscriptions, and a route lists exactly the clients whose
   * standing subscription came after the topic was first registered.
   */
  lemma {:induction false} TablesExact(h: seq<Received>, c: ClientId, topic: Bytes)
    ensures topic in TablesAfter(h).routes <==> RegisteredBefore(h, |h|, topic)
    ensures topic in TopicsOf(TablesAfter(h), c) <==> Wants(h, c, topic)
    ensures c in ListenersOf(TablesAfter(h), topic) <==> Hears(h, c, topic)
  {
    if h != [] {
      var front, last := h[..|h| - 1], h[|h| - 1];
      assert h == front + [last];
      TablesExact(front, c, topic);
      HistorySnoc(front, last, c, topic);
      RegisteredSnoc(front, last, 0, topic);
      HearsWants(front, c, topic);
      StepTables(TablesAfter(front), last.message, last.src, c, topic);
    }
  }

  /** Message `i` is the latest claim of the topic, and it came from `src`. */
  ghost predicate LatestClaim(h: seq<Received>, i: nat, topic: Bytes, src: Addr) {
    && i < |h| && h[i] == Received(RegisterShard(topic), src)
    && forall j :: i < j < |h| ==> h[j].message != RegisterShard(topic)
  }

  /** Message `i` is the latest input of the client, it came from `src`, and the client has not left since. */
  ghost predicate LatestInput(h: seq<Received>, i: nat, c: ClientId, src: Addr) {
    && i < |h| && h[i].message.ClientInput? && h[i].message.client == c && h[i].src == src
    && forall j :: i < j < |h| ==>
         h[j].message != ClientDisconnect(c) && !(h[j].message.ClientInput? && h[j].message.client == c)
  }

  lemma {:induction false} LatestSnoc(front: seq<Received>, last: Received, i: nat, topic: Bytes, c: ClientId,
          src: Addr)
    ensures LatestClaim(front + [last], i, topic, src) <==>
              || (i == |front| && last == Received(RegisterShard(topic), src))
              || (LatestClaim(front, i, topic, src) && last.message != RegisterShard(topic))
    ensures LatestInput(front + [last], i, c, src) <==>
              || (i == |front| && last.message.ClientInput? && last.message.client == c && last.src == src)
              || (LatestInput(front, i, c, src) && last.message != ClientDisconnect(c)
                  && !(last.message.ClientInput? && last.message.client == c))
  {
    var h := front + [last];
    assert forall r :: 0 <= r < |front| ==> h[r] == front[r];
    assert h[|front|] == last;
  }

  lemma {:induction false} ClaimSnoc(front: seq<Received>, last: Received, topic: Bytes, src: Addr)
    ensures (exists i :: LatestClaim(front + [last], i, topic, src)) <==>
              if last.message == RegisterShard(topic) then last.src == src
              else exists i :: LatestClaim(front, i, topic, src)
  {
    hide LatestClaim;
    forall i: nat
      ensures LatestClaim(front + [last], i, topic, src) <==>
                || (i == |front| && last == Received(RegisterShard(topic), src))
                || (LatestClaim(front, i, topic, src) && last.message != RegisterShard(topic))
    {
      LatestSnoc(front, last, i, topic, 0, src);
    }
    assert last == Received(RegisterShard(topic), src) ==> LatestClaim(front + [last], |front|, topic, src);
    if i :| LatestClaim(front, i, topic, src) && last.message != RegisterShard(topic) {
      assert LatestClaim(front + [last], i, topic, src);
    }
  }

  lemma {:induction false} InputSnoc(front: seq<Received>, last: Received, c: ClientId, src: Addr)
    ensures (exists i :: LatestInput(front + [last], i, c, src)) <==>
              if last.message.ClientInput? && last.message.client == c then last.src == src
              else last.message != ClientDisconnect(c) && exists i :: LatestInput(front, i, c, src)
  {
    hide LatestInput;
    forall i: nat
      ensures LatestInput(front + [last], i, c, src) <==>
                || (i == |front| && last.message.ClientInput? && last.message.client == c && last.src == src)
                || (LatestInput(front, i, c, src) && last.message != ClientDisconnect(c)
                    && !(last.message.ClientInput? && last.message.client == c))
    {
      LatestSnoc(front, last, i, [], c, src);
    }
    assert last.message.ClientInput? && last.message.client == c && last.src == src ==>
        LatestInput(front + [last], |front|, c, src);
    if i :| LatestInput(front, i, c, src) {
      assert last.message != ClientDisconnect(c) && !(last.message.ClientInput? && last.message.client == c) ==>
          LatestInput(front + [last], i, c, src);
    }
  }

  /** One message, seen from one topic's authority and one client's address. */
  lemma {:induction false} StepAddresses(t: Tables, m: Message, from: Addr, topic: Bytes, c: ClientId, src: Addr)
    ensures var u := Next(t, m, from);
            && (topic in u.routes && u.routes[topic].authority == src <==>
                  if m == RegisterShard(topic) then from == src
                  else topic in t.routes && t.routes[topic].authority == src)
            && (c in u.addresses && u.addresses[c] == src <==>
                  if m.ClientInput? && m.client == c then from == src
                  else m != ClientDisconnect(c) && c in t.addresses && t.addresses[c] == src)
  {
  }

  lemma {:induction false} NoneLatest(topic: Bytes, c: ClientId, src: Addr)
    ensures topic !in TablesAfter([]).routes && c !in TablesAfter([]).addresses
    ensures forall i :: !LatestClaim([], i, topic, src) && !LatestInput([], i, c, src)
  {
  }

  /**
   * Over every message history: the authority of a topic is whoever claimed it last, and the address of a
   * client is where its last input came from, unless it has left since.
   */
  lemma {:induction false} AddressesExact(h: seq<Received>, topic: Bytes, c: ClientId, src: Addr)
    ensures var t := TablesAfter(h);
            && (topic in t.routes && t.routes[topic].authority == src <==> exists i :: LatestClaim(h, i, topic, src))
            && (c in t.addresses && t.addresses[c] == src <==> exists i :: LatestInput(h, i, c, src))
  {
    hide Next, LatestClaim, LatestInput;
    if h == [] {
      NoneLatest(topic, c, src);
    } else {
      var front, last := h[..|h| - 1], h[|h| - 1];
      assert h == front + [last];
      AddressesExact(front, topic, c, src);
      StepAddresses(TablesAfter(front), last.message, last.src, topic, c, src);
      ClaimSnoc(front, last, topic, src);
      InputSnoc(front, last, c, src);
    }
  }

  /** A route never lists a client that the other index does not know: the two tables agree one way. */
  lemma {:induction false} RoutesWithinTopics(h: seq<Received>, c: ClientId, topic: Bytes)
    requires c in ListenersOf(TablesAfter(h), topic)
    ensures topic in TopicsOf(TablesAfter(h), c)
  {
    TablesExact(h, c, topic);
    HearsWants(h, c, topic);
  }

  /** A disconnect leaves no trace of the client in any of the three tables. */
  lemma {:induction false} DisconnectLeavesNoTrace(h: seq<Received>, c: ClientId, src: Addr, topic: Bytes)
    ensures var t := TablesAfter(h + [Received(ClientDisconnect(c), src)]);
            c !in t.addresses && c !in t.topics && c !in ListenersOf(t, topic)
  {
    var g := h + [Received(ClientDisconnect(c), src)];
    assert g[..|g| - 1] == h;
    if c in ListenersOf(TablesAfter(h), topic) {
      RoutesWithinTopics(h, c, topic);
    }
  }

  /** A new server claiming a topic inherits its listeners, and nobody else's subscriptions change. */
  lemma {:induction false} ClaimKeepsListeners(h: seq<Received>, claimed: Bytes, src: Addr, topic: Bytes, c: ClientId)
    ensures var t, u := TablesAfter(h), TablesAfter(h + [Received(RegisterShard(claimed), src)]);
            && ListenersOf(u, topic) == ListenersOf(t, topic) && TopicsOf(u, c) == TopicsOf(t, c)
            && claimed in u.routes && u.routes[claimed].authority == src
            && (topic != claimed && topic in t.routes ==> topic in u.routes && u.routes[topic] == t.routes[topic])
  {
    var g := h + [Received(RegisterShard(claimed), src)];
    assert g[..|g| - 1] == h;
  }
}
