/**
 * The spatial service and the event loop around it, as one step function over values. The classes
 * of `SpatialEngine` are proved to compute these steps.
 */
module Spatial {
  import opened Geometry
  import opened Options
  import opened SortedIds
  import opened Trees
  import opened TreeSearch
  import opened Wire

  const MAX_POPULATION: nat := 2

  const MIN_POPULATION: nat := 1

  datatype SpatialAction =
    | Subscribe(client: nat, topic: Bytes)
    | Unsubscribe(client: nat, topic: Bytes)
    | CrossingAlert(client: nat, shards: seq<nat>)
    | AuthorityChange(client: nat, oldShard: nat, newShard: nat)
    | ScaleUp(parent: nat, newShards: seq<nat>)
    | ScaleDown(parent: nat, oldShards: seq<nat>)

  /** The fields of `SpatialService`. */
  datatype Service = Service(
    tree: Tree,
    margin: real,
    nextId: nat,
    primary: map<nat, nat>,
    subscribed: map<nat, seq<nat>>,
    splits: set<nat>,
    merges: set<nat>)

  datatype Update = Update(service: Service, actions: seq<SpatialAction>)

  // ---------------------------------------------------------------- what a client sees

  /** A shard whose server is still booting stands for the shard it was split from. */
  function Intercept(ready: map<nat, nat>, s: nat): nat {
    if s in ready then ready[s] else s
  }

  function InterceptAll(ready: map<nat, nat>, l: seq<nat>): (r: seq<nat>)
    ensures |r| == |l| && forall i :: 0 <= i < |l| ==> r[i] == Intercept(ready, l[i])
  {
    seq(|l|, i requires 0 <= i < |l| => Intercept(ready, l[i]))
  }

  function PrimaryAt(t: Tree, ready: map<nat, nat>, pos: Vec2): Option<nat> {
    var s := ShardFor(t, pos);
    if s.Some? then Some(Intercept(ready, s.value)) else None
  }

  /** The intercepted, sorted and deduplicated list of nearby shards, the primary included. */
  function NearAt(t: Tree, ready: map<nat, nat>, margin: real, pos: Vec2): (r: seq<nat>)
    ensures Increasing(r)
  {
    var near := InterceptAll(ready, ShardsNear(t, pos, margin));
    var p := PrimaryAt(t, ready, pos);
    SortDedup(if p.Some? && p.value !in near then near + [p.value] else near)
  }

  // ---------------------------------------------------------------- handle_position_update

  function AuthorityActions(s: Service, c: nat, p: Option<nat>): seq<SpatialAction> {
    if p.Some? && !(c in s.primary && s.primary[c] == p.value)
    then [AuthorityChange(c, if c in s.primary then s.primary[c] else 0, p.value)]
    else []
  }

  function Placed(s: Service, c: nat, p: Option<nat>): map<nat, nat> {
    if p.Some? then s.primary[c := p.value] else s.primary
  }

  function Current(s: Service, c: nat): seq<nat> {
    if c in s.subscribed then s.subscribed[c] else []
  }

  /** One Subscribe for every id of `near` that is not in `current`, in order. */
  function SubscribeActions(c: nat, near: seq<nat>, current: seq<nat>): seq<SpatialAction> {
    if near == [] then [] else
    var n := near[|near| - 1];
    SubscribeActions(c, near[..|near| - 1], current) + if n in current then [] else [Subscribe(c, ShardTopic(n))]
  }

  /** One Unsubscribe for every id of `current` that is not in `near`, in order. */
  function UnsubscribeActions(c: nat, current: seq<nat>, near: seq<nat>): seq<SpatialAction> {
    if current == [] then [] else
    var n := current[|current| - 1];
    UnsubscribeActions(c, current[..|current| - 1], near) + if n in near then [] else [Unsubscribe(c, ShardTopic(n))]
  }

  function AlertActions(c: nat, near: seq<nat>): seq<SpatialAction> {
    if |near| > 1 then [CrossingAlert(c, near)] else []
  }

  /** The clients whose primary shard is `s`. */
  function ClientsAt(primary: map<nat, nat>, s: nat): set<nat> {
    set c | c in primary && primary[c] == s
  }

  function CountAt(primary: map<nat, nat>, s: nat): nat {
    |ClientsAt(primary, s)|
  }

  /** Step 6: lock and split the shard when it is unlocked and overpopulated. */
  function ScaleCheck(s: Service, p: Option<nat>): Update {
    if p.None? || p.value in s.splits || p.value in s.merges || CountAt(s.primary, p.value) <= MAX_POPULATION
    then Update(s, [])
    else
      var locked := s.(splits := s.splits + {p.value});
      var u := SplitLeaf(s.tree, p.value, s.nextId);
      if u.None? then Update(locked, [])
      else Update(locked.(tree := u.value, nextId := s.nextId + 4),
                  [ScaleUp(p.value, [s.nextId, s.nextId + 1, s.nextId + 2, s.nextId + 3])])
  }

  /** Steps 1 to 5: the client is placed and its subscriptions follow. */
  function Moved(s: Service, c: nat, pos: Vec2, ready: map<nat, nat>): Update {
    var p := PrimaryAt(s.tree, ready, pos);
    var near := NearAt(s.tree, ready, s.margin, pos);
    Update(s.(primary := Placed(s, c, p), subscribed := s.subscribed[c := near]),
           AuthorityActions(s, c, p)
           + SubscribeActions(c, near, Current(s, c))
           + UnsubscribeActions(c, Current(s, c), near)
           + AlertActions(c, near))
  }

  function PositionUpdate(s: Service, c: nat, pos: Vec2, ready: map<nat, nat>): Update {
    var m := Moved(s, c, pos, ready);
    var u := ScaleCheck(m.service, PrimaryAt(s.tree, ready, pos));
    Update(u.service, m.actions + u.actions)
  }

  // ---------------------------------------------------------------- check_merges

  function Populations(primary: map<nat, nat>): map<nat, nat> {
    map s | s in primary.Values :: CountAt(primary, s)
  }

  function CheckMerges(s: Service): Update {
    var m := TryMerge(s.tree, Populations(s.primary), MIN_POPULATION);
    if m.None? then Update(s, [])
    else Update(s.(tree := m.value.tree, merges := s.merges + {m.value.parent}),
                [ScaleDown(m.value.parent, m.value.children)])
  }

  // ---------------------------------------------------------------- handle_server_crash

  function RescueShard(t: Tree, primary: nat): nat {
    var p := FindParentOf(t, primary);
    if p.Some? then p.value else 0
  }

  function Crashed(s: Service, crashed: seq<nat>): Service {
    var t := ForceCollapse(s.tree, crashed).tree;
    s.(tree := t,
       primary := map c | c in s.primary :: if s.primary[c] in crashed then RescueShard(t, s.primary[c])
           else s.primary[c],
       splits := s.splits - (set x | x in crashed),
       merges := s.merges - (set x | x in crashed))
  }

  /** An order in which the hash map may yield the clients whose primary crashed. */
  ghost predicate IsRescueOrder(s: Service, crashed: seq<nat>, order: seq<nat>) {
    && (forall i, j :: 0 <= i < j < |order| ==> order[i] != order[j])
    && (forall c :: c in order <==> c in s.primary && s.primary[c] in crashed)
  }

  ghost function RescueActions(s: Service, crashed: seq<nat>, order: seq<nat>): (r: seq<SpatialAction>)
    requires forall c :: c in order ==> c in s.primary
    ensures |r| == |order|
  {
    var t := ForceCollapse(s.tree, crashed).tree;
    seq(|order|, i requires 0 <= i < |order| =>
      AuthorityChange(order[i], s.primary[order[i]], RescueShard(t, s.primary[order[i]])))
  }

  // ---------------------------------------------------------------- the event loop

  /** The state of the spatial server: the service and the two maps of the event loop. */
  datatype Server = Server(svc: Service, pendingReady: map<nat, nat>, parentToChildren: map<nat, seq<nat>>)

  datatype Event =
    | Position(client: nat, pos: Vec2)
    | Ready(shard: nat)
    | Disconnect(gone: nat)
    | Crash(crashed: seq<nat>)

  function Await(ready: map<nat, nat>, shards: seq<nat>, parent: nat): map<nat, nat> {
    ready + map s | s in shards :: parent
  }

  /** What the loop records for one action of a position update. */
  function BookAction(s: Server, a: SpatialAction): Server {
    match a
    case ScaleUp(parent, shards) =>
      s.(pendingReady := Await(s.pendingReady, shards, parent),
          parentToChildren := s.parentToChildren[parent := shards])
    case ScaleDown(parent, shards) =>
      s.(pendingReady := s.pendingReady[parent := parent], parentToChildren := s.parentToChildren[parent := shards])
    case _ => s
  }

  function Book(s: Server, actions: seq<SpatialAction>): Server {
    if actions == [] then s
    else BookAction(Book(s, actions[..|actions| - 1]), actions[|actions| - 1])
  }

  function OnPosition(s: Server, c: nat, pos: Vec2): Server {
    var u := PositionUpdate(s.svc, c, pos, s.pendingReady);
    Book(s.(svc := u.service), u.actions)
  }

  function Without(l: seq<nat>, x: nat): (r: seq<nat>)
    ensures forall y :: y in r <==> y in l && y != x
  {
    if l == [] then []
    else
      assert forall y :: y in l <==> y in l[..|l| - 1] || y == l[|l| - 1];
      Without(l[..|l| - 1], x) + (if l[|l| - 1] == x then [] else [l[|l| - 1]])
  }

  /** The last server a parent waited for is up: release the merge lock if there is one, else the split lock. */
  function Unlock(s: Service, parent: nat): Service {
    if parent in s.merges then s.(merges := s.merges - {parent}) else s.(splits := s.splits - {parent})
  }

  function OnReady(s: Server, shard: nat): Server {
    if shard !in s.pendingReady then s
    else
      var parent := s.pendingReady[shard];
      var r := s.(pendingReady := s.pendingReady - {shard});
      if parent !in s.parentToChildren then r
      else
        var left := Without(s.parentToChildren[parent], shard);
        if left != [] then r.(parentToChildren := s.parentToChildren[parent := left])
        else r.(svc := Unlock(s.svc, parent), parentToChildren := s.parentToChildren - {parent})
  }

  function Forget(s: Service, c: nat): Service {
    s.(primary := s.primary - {c}, subscribed := s.subscribed - {c})
  }

  /** The merge bookkeeping of the disconnect branch: the parent waits for itself. */
  function BookMerge(s: Server, actions: seq<SpatialAction>): Server {
    if actions == [] then s
    else
      var before := BookMerge(s, actions[..|actions| - 1]);
      match actions[|actions| - 1]
      case ScaleDown(parent, _) =>
        before.(pendingReady := before.pendingReady[parent := parent],
                parentToChildren := before.parentToChildren[parent := [parent]])
      case _ => before
  }

  function OnDisconnect(s: Server, c: nat): Server {
    var u := CheckMerges(Forget(s.svc, c));
    BookMerge(s.(svc := u.service), u.actions)
  }

  function Step(s: Server, e: Event): Server {
    match e
    case Position(c, pos) => OnPosition(s, c, pos)
    case Ready(shard) => OnReady(s, shard)
    case Disconnect(c) => OnDisconnect(s, c)
    case Crash(crashed) => s.(svc := Crashed(s.svc, crashed))
  }

  /** The actions a step may emit; only the order of crash rescues is left open. */
  ghost predicate Emits(s: Server, e: Event, actions: seq<SpatialAction>) {
    match e
    case Position(c, pos) => actions == PositionUpdate(s.svc, c, pos, s.pendingReady).actions
    case Ready(_) => actions == []
    case Disconnect(c) => actions == CheckMerges(Forget(s.svc, c)).actions
    case Crash(crashed) =>
      exists order :: IsRescueOrder(s.svc, crashed, order) && actions == RescueActions(s.svc, crashed, order)
  }

  // ---------------------------------------------------------------- runs

  /** The world a server is started with. */
  datatype World = World(bounds: Rect, max: nat, margin: real)

  ghost predicate Sound(w: World) {
    Proper(w.bounds) && w.margin >= 0.0
  }

  function Initial(w: World): Server {
    Server(Service(Leaf(Cell(w.bounds, 0, w.max), 0), w.margin, 1, map[], map[], {}, {}), map[], map[])
  }

  function After(w: World, events: seq<Event>): Server {
    if events == [] then Initial(w)
    else Step(After(w, events[..|events| - 1]), events[|events| - 1])
  }
}
