/** The broker itself: handlers that update its tables in place and send packets. */
module Broker {
  import opened Wire
  import opened BrokerModel

  /** Who is told depends on topics and routes alone. */
  lemma {:induction false} FanOutFrame(t: Tables, u: Tables, c: ClientId, data: Bytes, sent: seq<Packet>)
    requires FanOut(u, c, data, sent) && t.topics == u.topics && t.routes == u.routes
    ensures FanOut(t, c, data, sent)
  {
    assert Routed(t, c) == Routed(u, c);
  }

  class BrokerState {
    var clientAddresses: map<ClientId, Addr>
    var clientToTopics: map<ClientId, set<Bytes>>
    var routes: map<Bytes, TopicRoute>

    ghost function State(): Tables
      reads this
    {
      Tables(clientAddresses, clientToTopics, routes)
    }

    constructor ()
      ensures State() == NO_TABLES
    {
      clientAddresses, clientToTopics, routes := map[], map[], map[];
    }

    /** One datagram: dispatch on its tag. */
    method Receive(packet: Bytes, src: Addr) returns (sent: seq<Packet>)
      modifies this
      ensures State() == Next(old(State()), Parse(packet), src)
      ensures Sends(old(State()), Parse(packet), src, sent)
    {
      hide Parse, FanOut, PublishSends, AuthoritySends, ToClient, ToTopic, DropEverywhere, AddListener, DropListener,
        Claim;
      sent := [];
      match Parse(packet) {
        case Subscribe(c, topic) => HandleSubscribe(c, topic);
        case Unsubscribe(c, topic) => HandleUnsubscribe(c, topic);
        case Publish(topic, game) => sent := HandlePublish(topic, game, src);
        case ClientInput(c, input) => sent := HandleClientInput(c, input, src);
        case RegisterShard(topic) => HandleRegisterShard(topic, src);
        case ClientDisconnect(c) => sent := HandleClientDisconnect(c);
        case RouteToTopic(topic, payload) => sent := SendToTopic(topic, payload);
        case Alert(c, data) => sent := SendToClient(c, [17] + data);
        case Authority(c, oldShard, newShard, data) => sent := HandleAuthorityChange(c, oldShard, newShard, data);
        case ServerReady(data) => sent := SendToTopic(SPATIAL_TOPIC, [5] + LE32(0) + [20] + data);
        case Ignored =>
      }
    }

    /** 0x01: remember the topic, and listen to it if it has a server. */
    method HandleSubscribe(c: ClientId, topic: Bytes)
      modifies this
      ensures State() == old(State()).(
                topics := old(clientToTopics)[c := TopicsOf(old(State()), c) + {topic}],
                routes := AddListener(old(State()), c, topic))
    {
      var topics := if c in clientToTopics then clientToTopics[c] else {};
      clientToTopics := clientToTopics[c := topics + {topic}];
      if topic in routes {
        routes := routes[topic := routes[topic].(clients := routes[topic].clients + {c})];
      }
    }

    /** 0x02: forget the topic on both sides. */
    method HandleUnsubscribe(c: ClientId, topic: Bytes)
      modifies this
      ensures State() == old(State()).(
                topics := if c !in old(clientToTopics) then old(clientToTopics)
                          else old(clientToTopics)[c := old(clientToTopics)[c] - {topic}],
                routes := DropListener(old(State()), c, topic))
    {
      if c in clientToTopics {
        clientToTopics := clientToTopics[c := clientToTopics[c] - {topic}];
      }
      if topic in routes {
        routes := routes[topic := routes[topic].(clients := routes[topic].clients - {c})];
      }
    }

    /** 0x06: a server claims a topic; an existing route keeps its listeners. */
    method HandleRegisterShard(topic: Bytes, src: Addr)
      modifies this
      ensures State() == old(State()).(routes := Claim(old(State()), topic, src))
    {
      if topic in routes {
        routes := routes[topic := routes[topic].(authority := src)];
      } else {
        routes := routes[topic := TopicRoute(src, {})];
      }
    }

    method SendToTopic(topic: Bytes, data: Bytes) returns (sent: seq<Packet>)
      ensures sent == ToTopic(State(), topic, data)
    {
      sent := [];
      if topic in routes {
        sent := [Packet(routes[topic].authority, data)];
      }
    }

    method SendToClient(c: ClientId, data: Bytes) returns (sent: seq<Packet>)
      ensures sent == ToClient(State(), c, data)
    {
      sent := [];
      if c in clientAddresses {
        sent := [Packet(clientAddresses[c], data)];
      }
    }

    /** 0x12: tell the client, the server it leaves and the server it enters. */
    method HandleAuthorityChange(c: ClientId, oldShard: nat, newShard: nat, data: Bytes) returns (sent: seq<Packet>)
      ensures sent == AuthoritySends(State(), c, oldShard, newShard, data)
    {
      hide ToClient, ToTopic;
      sent := SendToClient(c, [18] + data);
      var oldTopic := StringToTopic(SHARD_PREFIX + Decimal(oldShard));
      var leave := SendToTopic(oldTopic, [18] + data);
      var newTopic := StringToTopic(SHARD_PREFIX + Decimal(newShard));
      var enter := SendToTopic(newTopic, [18] + data);
      sent := sent + leave + enter;
    }

    /** 0x03: copy the frame to every subscriber whose address is known. */
    method HandlePublish(topic: Bytes, game: Bytes, src: Addr) returns (sent: seq<Packet>)
      requires |game| < 65536
      ensures PublishSends(State(), topic, game, src, sent)
    {
      hide Broadcast;
      sent := [];
      if topic in routes && src == routes[topic].authority {
        var todo := routes[topic].clients;
        ghost var order: seq<ClientId> := [];
        var fits := 3 + |game| <= BROADCAST_LIMIT;
        while todo != {}
          invariant todo <= routes[topic].clients
          invariant forall i, j :: 0 <= i < j < |order| ==> order[i] != order[j]
          invariant forall c :: c in order <==> c in routes[topic].clients && c !in todo && c in clientAddresses
          invariant if fits then |sent| == |order|
              && forall i :: 0 <= i < |order| ==> sent[i] == Packet(clientAddresses[order[i]], Broadcast(game))
                    else sent == []
        {
          var c :| c in todo;
          todo := todo - {c};
          if c in clientAddresses {
            if fits {
              sent := sent + [Packet(clientAddresses[c], Broadcast(game))];
            }
            order := order + [c];
          }
        }
        assert Enumerates(order, Recipients(State(), topic));
      }
    }

    /** Send `data` to the server of every routed topic of the client. */
    method SendToServers(c: ClientId, data: Bytes) returns (sent: seq<Packet>)
      ensures FanOut(State(), c, data, sent)
    {
      sent := [];
      var todo := if c in clientToTopics then clientToTopics[c] else {};
      ghost var order: seq<Bytes> := [];
      while todo != {}
        invariant todo <= TopicsOf(State(), c)
        invariant forall i, j :: 0 <= i < j < |order| ==> order[i] != order[j]
        invariant forall topic :: topic in order <==> topic in TopicsOf(State(), c) && topic !in todo && topic in routes
        invariant |sent| == |order|
        invariant forall i :: 0 <= i < |order| ==> sent[i] == Packet(routes[order[i]].authority, data)
      {
        var topic :| topic in todo;
        todo := todo - {topic};
        if topic in routes {
          sent := sent + [Packet(routes[topic].authority, data)];
          order := order + [topic];
        }
      }
      assert Enumerates(order, Routed(State(), c));
    }

    /** 0x05: remember where the client is, and forward its input to all its servers. */
    method HandleClientInput(c: ClientId, input: Bytes, src: Addr) returns (sent: seq<Packet>)
      modifies this
      ensures State() == old(State()).(addresses := old(clientAddresses)[c := src])
      ensures if 5 + |input| <= INPUT_LIMIT then FanOut(old(State()), c, [5] + LE32(c) + input, sent) else sent == []
    {
      clientAddresses := clientAddresses[c := src];
      sent := [];
      if 5 + |input| <= INPUT_LIMIT {
        sent := SendToServers(c, [5] + LE32(c) + input);
        FanOutFrame(old(State()), State(), c, [5] + LE32(c) + input, sent);
      }
    }

    /** 0x07: tell the client's servers, then forget it everywhere. */
    method HandleClientDisconnect(c: ClientId) returns (sent: seq<Packet>)
      modifies this
      ensures State() == Tables(old(clientAddresses) - {c}, old(clientToTopics) - {c}, DropEverywhere(old(State()), c))
      ensures FanOut(old(State()), c, [7] + LE32(c), sent)
    {
      sent := [];
      ghost var data := [7] + LE32(c);
      var todo := if c in clientToTopics then clientToTopics[c] else {};
      ghost var order: seq<Bytes> := [];
      while todo != {}
        invariant todo <= TopicsOf(old(State()), c)
        invariant clientAddresses == old(clientAddresses) && clientToTopics == old(clientToTopics)
        invariant routes == map topic | topic in old(routes) ::
                    if topic in TopicsOf(old(State()), c) && topic !in todo
                    then old(routes)[topic].(clients := old(routes)[topic].clients - {c}) else old(routes)[topic]
        invariant forall i, j :: 0 <= i < j < |order| ==> order[i] != order[j]
        invariant forall topic ::
                    topic in order <==> topic in TopicsOf(old(State()), c) && topic !in todo && topic in old(routes)
        invariant |sent| == |order|
        invariant forall i :: 0 <= i < |order| ==> sent[i] == Packet(old(routes)[order[i]].authority, data)
      {
        var topic :| topic in todo;
        todo := todo - {topic};
        if topic in routes {
          sent := sent + [Packet(routes[topic].authority, [7] + LE32(c))];
          order := order + [topic];
          routes := routes[topic := routes[topic].(clients := routes[topic].clients - {c})];
        }
      }
      assert Enumerates(order, Routed(old(State()), c));
      clientToTopics := clientToTopics - {c};
      clientAddresses := clientAddresses - {c};
    }
  }
}
