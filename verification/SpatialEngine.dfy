/**
 * The spatial server as it runs: a service that updates its tables in place, and the event loop
 * around it. Each method is proved to compute the step of module `Spatial`.
 */
module SpatialEngine {
  import opened Geometry
  import opened Options
  import opened SortedIds
  import Trees
  import opened Wire
  import opened Spatial
  import opened QuadTrees
  import opened SpatialPackets

  /** One change of authority for each listed client, no client twice. */
  ghost predicate RescueLog(primary: map<nat, nat>, t: Trees.Tree, order: seq<nat>, actions: seq<SpatialAction>) {
    && (forall i, j :: 0 <= i < j < |order| ==> order[i] != order[j])
    && |actions| == |order|
    && forall i :: 0 <= i < |order| ==>
         && order[i] in primary
         && actions[i] == AuthorityChange(order[i], primary[order[i]], RescueShard(t, primary[order[i]]))
  }

  lemma {:induction false} NothingLogged(primary: map<nat, nat>, t: Trees.Tree)
    ensures RescueLog(primary, t, [], [])
  {
  }

  lemma {:induction false} LogOneMore(primary: map<nat, nat>, t: Trees.Tree, order: seq<nat>,
          actions: seq<SpatialAction>, c: nat)
    requires RescueLog(primary, t, order, actions) && c in primary && c !in order
    ensures RescueLog(primary, t, order + [c], actions + [AuthorityChange(c, primary[c], RescueShard(t, primary[c]))])
  {
    hide RescueShard;
  }

  /** Where the clients are after a rescue. */
  ghost function Rescued(primary: map<nat, nat>, crashed: seq<nat>, t: Trees.Tree): map<nat, nat> {
    map c | c in primary :: if primary[c] in crashed then RescueShard(t, primary[c]) else primary[c]
  }

  lemma {:induction false} CountOneMore(primary: map<nat, nat>, c: nat, shard: nat, s: nat)
    requires c !in primary
    ensures CountAt(primary[c := shard], s) == CountAt(primary, s) + if s == shard then 1 else 0
  {
    assert ClientsAt(primary[c := shard], s) == ClientsAt(primary, s) + if s == shard then {c} else {};
  }

  lemma {:induction false} ValuesOneMore(primary: map<nat, nat>, c: nat, shard: nat)
    requires c !in primary
    ensures primary[c := shard].Values == primary.Values + {shard}
  {
    var more := primary[c := shard];
    assert more[c] == shard;
    forall d | d in primary ensures more[d] == primary[d] {}
  }

  lemma {:induction false} CountZero(primary: map<nat, nat>, s: nat)
    ensures Trees.Population(Populations(primary), s) == CountAt(primary, s)
  {
    if s !in primary.Values {
      assert ClientsAt(primary, s) == {};
    }
  }

  /** Counting one more client adds one to its shard. */
  lemma {:induction false} OneMore(primary: map<nat, nat>, c: nat, shard: nat)
    requires c !in primary
    ensures Populations(primary[c := shard])
        == Populations(primary)[shard := Trees.Population(Populations(primary), shard) + 1]
  {
    hide CountAt;
    forall s: nat ensures CountAt(primary[c := shard], s) == CountAt(primary, s) + if s == shard then 1 else 0 {
      CountOneMore(primary, c, shard, s);
    }
    ValuesOneMore(primary, c, shard);
    CountZero(primary, shard);
  }

  class SpatialService {
    var quadtree: QuadTree
    const margin: real
    var clientPrimaryShard: map<nat, nat>
    var clientSubscribedShards: map<nat, seq<nat>>
    var nextShardId: nat
    var pendingSplits: set<nat>
    var pendingMerges: set<nat>

    ghost var Repr: set<object>

    ghost predicate Valid()
      reads this, Repr
    {
      && this in Repr && quadtree in Repr && quadtree.Repr <= Repr && this !in quadtree.Repr
      && quadtree.Valid()
    }

    ghost function State(): Service
      requires Valid()
      reads this, Repr
    {
      Service(quadtree.Model(), margin, nextShardId, clientPrimaryShard, clientSubscribedShards,
              pendingSplits, pendingMerges)
    }

    constructor (quadtree: QuadTree, margin: real, nextShardId: nat)
      requires quadtree.Valid()
      ensures Valid() && fresh(Repr - quadtree.Repr)
      ensures State() == Service(quadtree.Model(), margin, nextShardId, map[], map[], {}, {})
    {
      this.quadtree, this.margin, this.nextShardId := quadtree, margin, nextShardId;
      clientPrimaryShard, clientSubscribedShards := map[], map[];
      pendingSplits, pendingMerges := {}, {};
      Repr := {this} + quadtree.Repr + {quadtree};
    }

    /** The nearby shards with the intercept applied and the primary included. */
    method NearbyShards(pos: Vec2, pendingReady: map<nat, nat>, primary: Option<nat>) returns (near: seq<nat>)
      requires Valid() && primary == PrimaryAt(quadtree.Model(), pendingReady, pos)
      ensures near == NearAt(quadtree.Model(), pendingReady, margin, pos)
    {
      hide QuadTree.Valid, QuadTree.Model, PrimaryAt;
      near := quadtree.ShardsNear(pos, margin);
      ghost var plain := near;
      for i := 0 to |near|
        invariant |near| == |plain|
        invariant forall j :: 0 <= j < |plain| ==> near[j] == if j < i then Intercept(pendingReady, plain[j])
            else plain[j]
      {
        if near[i] in pendingReady {
          near := near[i := pendingReady[near[i]]];
        }
      }
      assert near == InterceptAll(pendingReady, plain);
      if primary.Some? && primary.value !in near {
        near := near + [primary.value];
      }
      near := SortDedup(near);
    }

    /** Subscriptions to add and to drop, as actions. */
    method SubscriptionChanges(c: nat, near: seq<nat>, current: seq<nat>) returns (actions: seq<SpatialAction>)
      ensures actions == SubscribeActions(c, near, current) + UnsubscribeActions(c, current, near)
    {
      actions := [];
      for i := 0 to |near|
        invariant actions == SubscribeActions(c, near[..i], current)
      {
        if near[i] !in current {
          var topic := StringToTopic(SHARD_PREFIX + Decimal(near[i]));
          actions := actions + [Subscribe(c, topic)];
        }
        assert near[..i + 1][..i] == near[..i];
      }
      assert near[..|near|] == near;
      ghost var subscribes := actions;
      for i := 0 to |current|
        invariant actions == subscribes + UnsubscribeActions(c, current[..i], near)
      {
        if current[i] !in near {
          var topic := StringToTopic(SHARD_PREFIX + Decimal(current[i]));
          actions := actions + [Unsubscribe(c, topic)];
        }
        assert current[..i + 1][..i] == current[..i];
      }
      assert current[..|current|] == current;
    }

    /** Give the client its primary shard, announcing a change of authority if it is a new one. */
    method PlaceClient(c: nat, newShard: Option<nat>) returns (actions: seq<SpatialAction>)
      requires Valid()
      modifies this`clientPrimaryShard
      ensures Valid() && State() == old(State()).(primary := Placed(old(State()), c, newShard))
      ensures actions == AuthorityActions(old(State()), c, newShard)
    {
      hide QuadTree.Valid, QuadTree.Model;
      actions := [];
      if newShard.Some? {
        if c !in clientPrimaryShard || clientPrimaryShard[c] != newShard.value {
          var from := if c in clientPrimaryShard then clientPrimaryShard[c] else 0;
          actions := [AuthorityChange(c, from, newShard.value)];
          clientPrimaryShard := clientPrimaryShard[c := newShard.value];
        }
      }
      assert clientPrimaryShard == Placed(old(State()), c, newShard);
    }

    /** Subscribe the client to the nearby shards and to no others, and tell it about them. */
    method FollowShards(c: nat, near: seq<nat>) returns (actions: seq<SpatialAction>)
      requires Valid()
      modifies this`clientSubscribedShards
      ensures Valid() && State() == old(State()).(subscribed := old(State()).subscribed[c := near])
      ensures var current := Current(old(State()), c);
              actions == SubscribeActions(c, near, current) + UnsubscribeActions(c, current, near)
                  + AlertActions(c, near)
    {
      hide QuadTree.Valid, QuadTree.Model, SubscribeActions, UnsubscribeActions;
      var current := if c in clientSubscribedShards then clientSubscribedShards[c] else [];
      actions := SubscriptionChanges(c, near, current);
      clientSubscribedShards := clientSubscribedShards[c := near];
      if |near| > 1 {
        actions := actions + [CrossingAlert(c, near)];
      }
    }

    /** Where the client stands; a shard that is still booting stands for its parent. */
    method StandsIn(pos: Vec2, pendingReady: map<nat, nat>) returns (shard: Option<nat>)
      requires Valid()
      ensures shard == PrimaryAt(quadtree.Model(), pendingReady, pos)
    {
      hide QuadTree.Valid, QuadTree.Model, Trees.ShardFor;
      shard := quadtree.ShardFor(pos);
      if shard.Some? && shard.value in pendingReady {
        shard := Some(pendingReady[shard.value]);
      }
    }

    /** Place a client, follow its subscriptions, and split its shard when it is overpopulated. */
    method HandlePositionUpdate(c: nat, pos: Vec2, pendingReady: map<nat, nat>) returns (actions: seq<SpatialAction>)
      requires Valid()
      modifies Repr
      ensures Valid() && fresh(Repr - old(Repr))
      ensures Update(State(), actions) == PositionUpdate(old(State()), c, pos, pendingReady)
    {
      hide QuadTree.Valid, QuadTree.Model, PrimaryAt, NearAt, ScaleCheck, SubscribeActions, UnsubscribeActions,
        AuthorityActions, AlertActions, Placed;
      var newShard := StandsIn(pos, pendingReady);
      var moved := PlaceClient(c, newShard);
      var near := NearbyShards(pos, pendingReady, newShard);
      var followed := FollowShards(c, near);
      var scale := CheckOverpopulation(newShard);
      actions := moved + followed + scale;
      ghost var s := old(State());
      ghost var current := Current(s, c);
      assert moved + followed == AuthorityActions(s, c, newShard) + SubscribeActions(c, near, current)
                               + UnsubscribeActions(c, current, near) + AlertActions(c, near);
    }

    /** Lock the shard and split it, if it is unlocked and has too many clients. */
    method CheckOverpopulation(shard: Option<nat>) returns (actions: seq<SpatialAction>)
      requires Valid()
      modifies Repr
      ensures Valid() && fresh(Repr - old(Repr))
      ensures Update(State(), actions) == ScaleCheck(old(State()), shard)
    {
      hide QuadTree.Valid, QuadTree.Model, Trees.SplitLeaf;
      actions := [];
      if shard.Some? && shard.value !in pendingSplits && shard.value !in pendingMerges {
        var pop := CountAt(clientPrimaryShard, shard.value);
        if pop > MAX_POPULATION {
          pendingSplits := pendingSplits + {shard.value};
          var ids, next := quadtree.SplitLeaf(shard.value, nextShardId);
          Repr := Repr + quadtree.Repr;
          nextShardId := next;
          if ids.Some? {
            actions := [ScaleUp(shard.value, ids.value)];
          }
        }
      }
    }

    /** The parent of a crashed shard, or the root if it has none. */
    method RescueTarget(primary: nat) returns (newShard: nat)
      requires Valid()
      ensures newShard == RescueShard(quadtree.Model(), primary)
    {
      hide QuadTree.Valid, QuadTree.Model, Trees.FindParentOf;
      newShard := 0;
      var parent := quadtree.FindParentOf(primary);
      if parent.Some? {
        newShard := parent.value;
      }
    }

    /** Move every client of a crashed shard to that shard's parent, or to the root if it has none. */
    method RescueClients(crashed: seq<nat>) returns (actions: seq<SpatialAction>, ghost order: seq<nat>)
      requires Valid()
      modifies this`clientPrimaryShard
      ensures Valid() && State() == old(State()).(primary := clientPrimaryShard)
      ensures clientPrimaryShard == Rescued(old(clientPrimaryShard), crashed, old(State()).tree)
      ensures forall c :: c in order <==> c in old(clientPrimaryShard) && old(clientPrimaryShard)[c] in crashed
      ensures RescueLog(old(clientPrimaryShard), old(State()).tree, order, actions)
    {
      hide QuadTree.Valid, QuadTree.Model, RescueShard, RescueLog;
      NothingLogged(clientPrimaryShard, quadtree.Model());
      ghost var before, t := clientPrimaryShard, quadtree.Model();
      actions, order := [], [];
      var clients := clientPrimaryShard.Keys;
      while clients != {}
        invariant clients <= before.Keys && Valid() && quadtree.Model() == t
        invariant clientPrimaryShard == map c | c in before ::
                    if c !in clients && before[c] in crashed then RescueShard(t, before[c]) else before[c]
        invariant forall c :: c in order <==> c in before && c !in clients && before[c] in crashed
        invariant RescueLog(before, t, order, actions)
      {
        var c :| c in clients;
        clients := clients - {c};
        var primary := clientPrimaryShard[c];
        if primary in crashed {
          var newShard := RescueTarget(primary);
          LogOneMore(before, t, order, actions, c);
          actions := actions + [AuthorityChange(c, primary, newShard)];
          clientPrimaryShard := clientPrimaryShard[c := newShard];
          order := order + [c];
        }
      }
    }

    /** Release the locks held by the crashed shards. */
    method ReleaseLocks(crashed: seq<nat>)
      requires Valid()
      modifies this`pendingSplits, this`pendingMerges
      ensures Valid()
      ensures pendingSplits == old(pendingSplits) - (set x | x in crashed)
      ensures pendingMerges == old(pendingMerges) - (set x | x in crashed)
    {
      hide QuadTree.Valid, QuadTree.Model;
      for i := 0 to |crashed|
        invariant Valid()
        invariant pendingSplits == old(pendingSplits) - (set x | x in crashed[..i])
        invariant pendingMerges == old(pendingMerges) - (set x | x in crashed[..i])
      {
        pendingSplits := pendingSplits - {crashed[i]};
        pendingMerges := pendingMerges - {crashed[i]};
        assert crashed[..i + 1] == crashed[..i] + [crashed[i]];
      }
      assert crashed[..|crashed|] == crashed;
    }

    /** Collapse the tree around the crashed shards and move every stranded client to the root. */
    method HandleServerCrash(crashed: seq<nat>) returns (actions: seq<SpatialAction>)
      requires Valid()
      modifies Repr
      ensures Valid() && fresh(Repr - old(Repr))
      ensures State() == Crashed(old(State()), crashed)
      ensures exists order :: IsRescueOrder(old(State()), crashed, order) && actions == RescueActions(old(State()),
          crashed, order)
    {
      hide QuadTree.Valid, QuadTree.Model, Trees.ForceCollapse, RescueShard;
      ghost var s := State();
      var hit := quadtree.ForceCollapse(crashed);
      Repr := Repr + quadtree.Repr;
      ghost var order;
      actions, order := RescueClients(crashed);
      ReleaseLocks(crashed);
      assert IsRescueOrder(s, crashed, order);
      assert actions == RescueActions(s, crashed, order);
    }

    /** How many clients each shard has. */
    method CountPopulations() returns (pops: map<nat, nat>)
      ensures pops == Populations(clientPrimaryShard)
    {
      pops := map[];
      var clients := clientPrimaryShard.Keys;
      ghost var counted: map<nat, nat> := map[];
      while clients != {}
        invariant clients <= clientPrimaryShard.Keys
        invariant counted == map c | c in clientPrimaryShard && c !in clients :: clientPrimaryShard[c]
        invariant pops == Populations(counted)
      {
        var c :| c in clients;
        clients := clients - {c};
        var shard := clientPrimaryShard[c];
        OneMore(counted, c, shard);
        pops := pops[shard := Trees.Population(pops, shard) + 1];
        counted := counted[c := shard];
      }
      assert counted == clientPrimaryShard;
    }

    /** Merge the first sparsely populated group of siblings, if there is one, and lock its parent. */
    method CheckMerges() returns (actions: seq<SpatialAction>)
      requires Valid()
      modifies Repr
      ensures Valid() && fresh(Repr - old(Repr))
      ensures Update(State(), actions) == Spatial.CheckMerges(old(State()))
    {
      hide QuadTree.Valid, QuadTree.Model, Trees.TryMerge;
      actions := [];
      var pops := CountPopulations();
      var merged := quadtree.TryMerge(pops, MIN_POPULATION);
      Repr := Repr + quadtree.Repr;
      if merged.Some? {
        pendingMerges := pendingMerges + {merged.value.parent};
        actions := [ScaleDown(merged.value.parent, merged.value.children)];
      }
    }
  }

  lemma {:induction false} QuietEvents(s: Server)
    ensures forall shard :: Emits(s, Ready(shard), [])
  {
  }

  /** Bookkeeping never touches the service. */
  lemma {:induction false} BookKeepsService(s: Server, actions: seq<SpatialAction>)
    ensures Book(s, actions).svc == s.svc
  {
    if actions != [] {
      BookKeepsService(s, actions[..|actions| - 1]);
    }
  }

  lemma {:induction false} AwaitNobody(ready: map<nat, nat>, parent: nat)
    ensures Await(ready, [], parent) == ready
  {
    assert Await(ready, [], parent) == ready + map[];
  }

  lemma {:induction false} AwaitSnoc(ready: map<nat, nat>, shards: seq<nat>, x: nat, parent: nat)
    ensures Await(ready, shards + [x], parent) == Await(ready, shards, parent)[x := parent]
  {
    assert forall s :: s in shards + [x] <==> s in shards || s == x;
  }

  /** The event loop: the service, and who is waited for. */
  class SpatialServer {
    const service: SpatialService
    var pendingReady: map<nat, nat>
    var parentToChildren: map<nat, seq<nat>>

    ghost predicate Valid()
      reads this, service, service.Repr
    {
      this !in service.Repr && service.Valid()
    }

    ghost function State(): Server
      requires Valid()
      reads this, service, service.Repr
    {
      Server(service.State(), pendingReady, parentToChildren)
    }

    constructor (w: World)
      ensures Valid() && fresh(service) && fresh(service.Repr)
      ensures State() == Initial(w)
    {
      var quadtree := new QuadTree(w.bounds, 0, w.max);
      service := new SpatialService(quadtree, w.margin, 1);
      pendingReady, parentToChildren := map[], map[];
    }

    /** One datagram: read it and handle its event, if it has one. */
    method HandlePacket(packet: Bytes, float: nat -> real) returns (sent: seq<Bytes>, ghost actions: seq<SpatialAction>)
      requires Valid()
      modifies this, service.Repr
      ensures Valid() && fresh(service.Repr - old(service.Repr))
      ensures var e := EventOf(packet, float);
              if e.None? then State() == old(State()) && actions == []
              else State() == Step(old(State()), e.value) && Emits(old(State()), e.value, actions)
      ensures sent == EncodeAll(actions)
    {
      assert service in service.Repr;
      hide SpatialService.Valid, SpatialService.State, Spatial.OnPosition, Spatial.OnReady, Spatial.OnDisconnect,
        PositionUpdate, Crashed, IdsFrom, EventOf, Emits;
      EventCases(packet, float);
      QuietEvents(State());
      sent, actions := [], [];
      if |packet| >= 6 && packet[0] == 5 {
        var c := FromLE32(packet[1..5]);
        if packet[5] == 16 {
          if |packet| >= 14 {
            sent, actions := OnPosition(c, Vec2(float(FromLE32(packet[6..10])), float(FromLE32(packet[10..14]))));
          }
        } else if packet[5] == 20 {
          if |packet| >= 10 {
            OnReady(FromLE32(packet[6..10]));
          }
        } else if packet[5] == 25 {
          if |packet| >= 10 {
            var crashed := ReadShards(packet, FromLE32(packet[6..10]));
            sent, actions := OnCrash(crashed);
          }
        }
      } else if |packet| >= 5 && packet[0] == 7 {
        sent, actions := OnDisconnect(FromLE32(packet[1..5]));
      }
    }

    /** 0x10: a position update; every action it yields is sent, and a split or merge is booked. */
    method OnPosition(c: nat, pos: Vec2) returns (sent: seq<Bytes>, ghost actions: seq<SpatialAction>)
      requires Valid()
      modifies this, service.Repr
      ensures Valid() && fresh(service.Repr - old(service.Repr))
      ensures State() == Spatial.OnPosition(old(State()), c, pos)
      ensures Emits(old(State()), Position(c, pos), actions) && sent == EncodeAll(actions)
    {
      hide SpatialService.Valid, SpatialService.State, PositionUpdate, EncodeAction;
      ghost var s := State();
      var emitted := service.HandlePositionUpdate(c, pos, pendingReady);
      ghost var start := s.(svc := service.State());
      sent := [];
      for i := 0 to |emitted|
        invariant Valid() && service.State() == start.svc && fresh(service.Repr - old(service.Repr))
        invariant State() == Book(start, emitted[..i])
        invariant sent == EncodeAll(emitted[..i])
      {
        BookKeepsService(start, emitted[..i]);
        assert emitted[..i + 1][..i] == emitted[..i];
        var msg := Datagram(emitted[i]);
        sent := sent + [msg];
        match emitted[i] {
          case ScaleUp(parent, shards) => RecordSplit(parent, shards);
          case ScaleDown(parent, shards) =>
            pendingReady := pendingReady[parent := parent];
            parentToChildren := parentToChildren[parent := shards];
          case _ =>
        }
      }
      assert emitted[..|emitted|] == emitted;
      actions := emitted;
    }

    /** Wait for every new shard on behalf of its parent. */
    method RecordSplit(parent: nat, shards: seq<nat>)
      modifies this
      ensures pendingReady == Await(old(pendingReady), shards, parent)
      ensures parentToChildren == old(parentToChildren)[parent := shards]
    {
      AwaitNobody(pendingReady, parent);
      hide Await;
      for i := 0 to |shards|
        invariant pendingReady == Await(old(pendingReady), shards[..i], parent)
        invariant parentToChildren == old(parentToChildren)
      {
        AwaitSnoc(old(pendingReady), shards[..i], shards[i], parent);
        pendingReady := pendingReady[shards[i] := parent];
        assert shards[..i + 1] == shards[..i] + [shards[i]];
      }
      assert shards[..|shards|] == shards;
      parentToChildren := parentToChildren[parent := shards];
    }

    /** 0x14: a server is up; the last one of its group releases the lock of the parent. */
    method OnReady(shard: nat)
      requires Valid()
      modifies this, service
      ensures Valid() && service.Repr == old(service.Repr)
      ensures State() == Spatial.OnReady(old(State()), shard)
    {
      hide QuadTree.Valid, QuadTree.Model, Without;
      if shard in pendingReady {
        var parent := pendingReady[shard];
        pendingReady := pendingReady - {shard};
        if parent in parentToChildren {
          var left := Without(parentToChildren[parent], shard);
          parentToChildren := parentToChildren[parent := left];
          if left == [] {
            if parent in service.pendingMerges {
              service.pendingMerges := service.pendingMerges - {parent};
            } else {
              service.pendingSplits := service.pendingSplits - {parent};
            }
            parentToChildren := parentToChildren - {parent};
            assert old(parentToChildren)[parent := left] - {parent} == old(parentToChildren) - {parent};
          }
        }
      }
    }

    /** 0x19: a server died with these shards. */
    method OnCrash(crashed: seq<nat>) returns (sent: seq<Bytes>, ghost actions: seq<SpatialAction>)
      requires Valid()
      modifies service.Repr
      ensures Valid() && fresh(service.Repr - old(service.Repr))
      ensures State() == Step(old(State()), Crash(crashed))
      ensures Emits(old(State()), Crash(crashed), actions) && sent == EncodeAll(actions)
    {
      hide SpatialService.Valid, SpatialService.State;
      var emitted := service.HandleServerCrash(crashed);
      assert forall i :: 0 <= i < |emitted| ==> emitted[i].AuthorityChange?;
      sent := SendAll(emitted);
      actions := emitted;
    }

    /** One datagram per action, in order. */
    method SendAll(emitted: seq<SpatialAction>) returns (sent: seq<Bytes>)
      ensures sent == EncodeAll(emitted)
    {
      hide EncodeAction;
      sent := [];
      for i := 0 to |emitted|
        invariant sent == EncodeAll(emitted[..i])
      {
        assert emitted[..i + 1][..i] == emitted[..i];
        var msg := Datagram(emitted[i]);
        sent := sent + [msg];
      }
      assert emitted[..|emitted|] == emitted;
    }

    /** 0x07: a client left; its shard may now be mergeable. */
    method OnDisconnect(c: nat) returns (sent: seq<Bytes>, ghost actions: seq<SpatialAction>)
      requires Valid()
      modifies this, service.Repr
      ensures Valid() && fresh(service.Repr - old(service.Repr))
      ensures State() == Spatial.OnDisconnect(old(State()), c)
      ensures Emits(old(State()), Disconnect(c), actions) && sent == EncodeAll(actions)
    {
      hide QuadTree.Valid, QuadTree.Model, Trees.TryMerge;
      ghost var s := State();
      ForgetClient(c);
      var emitted := service.CheckMerges();
      ghost var start := s.(svc := service.State());
      for i := 0 to |emitted|
        invariant Valid() && service.State() == start.svc && fresh(service.Repr - old(service.Repr))
        invariant State() == BookMerge(start, emitted[..i])
      {
        assert emitted[..i + 1][..i] == emitted[..i];
        if emitted[i].ScaleDown? {
          var parent := emitted[i].parent;
          pendingReady := pendingReady[parent := parent];
          parentToChildren := parentToChildren[parent := [parent]];
        }
      }
      assert emitted[..|emitted|] == emitted;
      sent := SendAll(emitted);
      actions := emitted;
    }

    method ForgetClient(c: nat)
      requires Valid()
      modifies service
      ensures Valid() && service.Repr == old(service.Repr)
      ensures State() == old(State()).(svc := Forget(old(State()).svc, c))
    {
      hide QuadTree.Valid, QuadTree.Model;
      service.clientPrimaryShard := service.clientPrimaryShard - {c};
      service.clientSubscribedShards := service.clientSubscribedShards - {c};
    }
  }
}
