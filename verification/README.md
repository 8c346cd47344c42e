# Verified model of the sharded game backend

This project models the part of the backend that decides which server simulates which player: the
spatial server with its quadtree, the publish/subscribe broker, and the authority and frame handling
of the dedicated game servers and the client. It is written in Dafny 4.11;
`dafny verify dfyconfig.toml` checks all of it.

## What is modelled

- **Quadtree** (`Geometry`, `SortedIds`, `Trees`, `TreeSearch`, `TreeSurgery`, `QuadTrees`). The
  mutable tree of the source is the class `QuadTree`; each of its methods is proved against an
  operation on tree values, and what searching, splitting, merging and collapsing mean is proved about
  those. Coordinates are exact reals and rectangles are closed on all sides; `DeployedWorld` shows that
  the deployed world only ever has bounds that single-precision floats hold exactly, and `DeployedScene`
  what every client sees after its first split, in plain coordinates.
- **Spatial server** (`Spatial`, `SpatialPackets`, `SpatialEngine`). One step per event: a position
  update, a Ready signal, a departure, a crash report, read from datagrams. The classes
  `SpatialService` and `SpatialServer` update their tables in place and are proved to compute these
  steps, loop by loop.
- **All runs of it** (`SpatialInvariant`, `SplitTransparency`, `SpatialTheorems`, `SpatialRuns`,
  `Merging`, `SpatialLocks`, `LockLeaks`, `LockWitnesses`). The inductive invariant behind the one-hop
  interception, the invisibility of splits, the stability of repeated updates, commuting Ready signals,
  merging, counting, crash rescue, the chain of authority, when locks are released and when they are not.
- **Broker** (`Wire`, `BrokerModel`, `Broker`, `Delivery`). Packets as bytes, the three tables, what each
  message sends to whom, and what the tables hold as a function of the whole message history.
- **Several servers together** (`Subscriptions`, `BrokeredRuns`, `Listeners`, `Frames`, `Dedicated`,
  `Ownership`, `Borders`, `Scaling`). The spatial server behind the broker: it hears what the broker
  forwards, the broker hears what it emits, the two agree on subscriptions, and a shard's frames go to the
  clients that have it on record. State frames go from a shard through the broker to the client. The
  authority changes of a run leave at most one owner per player, and exactly one when the new host knew the
  player, and the client follows them. A split goes from the request through orchestrator, broker and game
  server to the release of its lock.

Sends are output sequences. Client ids on the wire are 32-bit; inside the spatial server ids are
unbounded, and `SpatialRuns.NextIdCounts` shows that the 32-bit shard counter is exact for fewer than
2^30 splits. Deferred entity commands are applied in order. The order in which a hash map or hash set
yields its elements is left open: what depends on it is specified for every order.

## Where the code does not do what it says

- "Release any locks so the parent shard can split again" (shared/src/quadtree.rs:351): the crash report
  names children, the lock is held by the parent. `LockLeaks.CrashFreesRootExactly` says exactly when
  shard 0 can split at the next update. After the history of `LockWitnesses.CrashLeavesRootLocked` it
  cannot, until all four new servers, the crashed one included, have signalled Ready or a report names
  shard 0 itself.
- A merge ignores split locks (shared/src/quadtree.rs:476-493). `LockLeaks.MergeLeaksLockExactly`
  says exactly when it leaves a lock behind, `LockLeaks.StuckForever` that nothing but a crash report that
  names the shard releases it, and `LockWitnesses.LeaveLeaksLock` is a history: one departure while four
  servers boot.
- A shard at the maximum depth is locked although it cannot split (shared/src/quadtree.rs:458-461):
  `LockLeaks.PositionLeaksLockExactly` says exactly when, and `LockWitnesses.EveryWorldLeaksLock` is
  such a history in every world, 31 events long in the deployed one (`DeployedLeaksLock`). In runs without
  crashes there is no third way: `LockLeaks.StuckExactly`.
- "Promote them from Ghost to Owned" (dedicated_server/src/main.rs:396-402): a host that does not know the
  player yet ignores the change, and nobody owns the player (`Ownership.LateHostOwnsNothing`).
- "New player joining the game" (dedicated_server/src/main.rs:353): the broker forwards a join request to
  the server of every shard the client subscribes to, and each of them becomes its owner.
  `Borders.JoinLeavesOneOwner` says exactly when there is one owner; next to a border between two servers
  there are several (`Borders.JoinAtBorder`).
- The rescue looks for the parent of a crashed shard after the collapse has removed it
  (shared/src/quadtree.rs:331-340): `TreeSurgery.RescueLookupFails`. Every rescue goes to shard 0.
- The ScaleDown branch of the position loop (spatial_server/src/main.rs:211-240) is never taken:
  `SpatialInvariant.PositionInTwoParts`.
- The broker reports a departure to the spatial server only through the topics of the client
  (broker/src/main.rs:176-188). `BrokeredRuns.AgreementExact` says exactly when the two servers agree all
  along, `BrokeredRuns.UnheardLeaveDesyncs` is a history in which they end up disagreeing. The shipped
  client subscribes to the topic before anything else and never unsubscribes (client/src/main.rs:82-88);
  for such clients `BrokeredRuns.SubscriptionsAgree` holds without any assumption on departures.
- The crash message of the orchestrator (orchestrator/src/main.rs:208-216) is never handled: the spatial
  server expects it inside tag 5 (spatial_server/src/main.rs:99 and 306), and
  `SpatialPackets.CrashMessageSkipped` shows that it arrives without. Crash is therefore an event on the
  handler in this model, not an end-to-end path.
- The comment at shared/src/quadtree.rs:56 calls the id one of a leaf; interior nodes keep theirs
  (line 108), and the model follows the code.

## Model

| member | source | states |
|---|---|---|
| `Geometry.QuadrantsTile` | shared/src/quadtree.rs:77-97 | the four child bounds of a split cover their parent, stay inside it, and share no interior point |
| `Geometry.QuadrantsOverlap` | shared/src/quadtree.rs:283-285 | a box meets a rectangle exactly when it meets one of its quadrants: pruning at a parent never loses a child |
| `Geometry.QuadrantCorners` | shared/src/quadtree.rs:77-97 | the four child bounds in coordinates: equal quarters, NW the upper left, NE the upper right, SW the lower left, SE the lower right |
| `DeployedWorld.DeployedShardsOnGrid` | spatial_server/src/main.rs:37-50 | in every run of the deployed world every shard, leaf or interior, is a square of a fixed 16 x 16 grid with integer corners |
| `DeployedWorld.DeployedSplitsExact` | shared/src/quadtree.rs:77-97 | every size, sum, centre and offset that a split of such a shard computes on the way is a small multiple of 62.5, which single precision holds exactly: no split rounds |
| `DeployedScene.FirstSplitViews` | spatial_server/src/main.rs:37-50 | a concrete history of the deployed world, three arrivals and four Readys: shards 1 to 4 are the upper left, upper right, lower left and lower right quarter, borders belong to the lower number, and a client at any position sees exactly the shards at most 50 away from it on either axis |
| `SortedIds.SortDedup` | shared/src/quadtree.rs:178-184 | sort followed by dedup: strictly increasing, with exactly the elements of the input |
| `TreeSearch.ShardForIsFirstLeaf` | shared/src/quadtree.rs:156-174 | the pruned descent answers the first leaf, in the order NW, NE, SW, SE, whose closed bounds hold the point |
| `TreeSearch.ShardForDefined` | shared/src/quadtree.rs:156-174 | a point has a shard if and only if it lies in the closed bounds of the root |
| `TreeSearch.ShardForInCoordinates` | shared/src/quadtree.rs:156-174 | the point search in coordinates: the first leaf whose four sides enclose the point, borders included; none exactly outside the four sides of the root |
| `TreeSearch.NearListIsScan` | shared/src/quadtree.rs:186-202 | the pruned descent pushes what a scan of all leaves in preorder would push |
| `TreeSearch.ShardsNearExact` | shared/src/quadtree.rs:178-202 | the nearby list is strictly increasing and holds exactly the ids of the leaves whose bounds meet the margin box |
| `TreeSearch.NearInCoordinates` | shared/src/quadtree.rs:178-202 | the nearby list in coordinates: a shard is listed if and only if some point of it is at most the margin away on either axis |
| `TreeSearch.PrimaryIsNear` | shared/src/quadtree.rs:176-202 | for every margin of at least 0 the shard of a point is one of the shards near it |
| `TreeSearch.LeavesDisjoint` | shared/src/quadtree.rs:72-109 | no point lies strictly inside two leaves of a well-formed tree |
| `TreeSurgery.SplitDefined` | shared/src/quadtree.rs:125-153 | splitting succeeds if and only if the target is a leaf above the maximum depth |
| `TreeSurgery.SplitShape` | shared/src/quadtree.rs:125-153 | a split keeps the tree well formed, adds exactly the four new ids as leaves below the target, makes the target interior and keeps the root |
| `TreeSurgery.SplitRenamesShardFor` | shared/src/quadtree.rs:125-174 | after a split, forgetting the new ids gives the old answer of the point search, for every position |
| `TreeSurgery.SplitRenamesNear` | shared/src/quadtree.rs:125-202 | after a split, forgetting the new ids gives the old set of nearby shards, for every position and margin |
| `TreeSurgery.SplitKeepsLeaf` | shared/src/quadtree.rs:125-153 | a split leaves every other leaf under the parent it had |
| `TreeSurgery.TryMergeIsFirstEligible` | shared/src/quadtree.rs:206-238 | a merge cuts exactly below the first node in post-order with four sparsely populated leaf children, and reports that node and its children; without such a node nothing changes |
| `TreeSurgery.TryMergeSoundComplete` | shared/src/quadtree.rs:206-238 | a merge happens if and only if some four sibling leaves hold at most the given population |
| `TreeSurgery.MergeUndoesSplit` | shared/src/quadtree.rs:125-238 | a merge is the inverse of a split: it keeps the tree well formed, removes one interior node and the four ids, and splitting the parent again with the old ids gives the old tree |
| `TreeSurgery.MergeRestoresSplit` | shared/src/quadtree.rs:125-238 | when the merged group is the one just split, the tree before the split is restored exactly |
| `TreeSurgery.MergeRenames` | shared/src/quadtree.rs:206-238 | a merge changes both searches only by giving the parent id to what its four children held |
| `TreeSurgery.MergeKeepsLeaf` | shared/src/quadtree.rs:206-238 | a leaf that survives a merge keeps its parent |
| `TreeSurgery.CollapseAllOrNothing` | shared/src/quadtree.rs:242-262 | a collapse turns a node into a leaf and answers true if and only if some proper descendant crashed; otherwise the subtree is unchanged |
| `TreeSurgery.FindParentExact` | shared/src/quadtree.rs:265-279 | the parent search answers p if and only if the node p has the target as a child |
| `TreeSurgery.FindParentDefined` | shared/src/quadtree.rs:265-279 | the parent search answers exactly for the ids below the root |
| `TreeSurgery.RescueLookupFails` | shared/src/quadtree.rs:330-340 | after the collapse no crashed shard has a parent any more, so the rescue always falls back to shard 0 |
| `Trees.LeavesFromInner` | shared/src/quadtree.rs:72-109 | a tree of four-way nodes has one more than three times as many leaves as interior nodes |
| `QuadTrees.QuadTree.constructor` | shared/src/quadtree.rs:61-69 | a fresh node is a leaf numbered 0 with the given bounds and depths |
| `QuadTrees.QuadTree.Split` | shared/src/quadtree.rs:72-109 | an unsplit node above the maximum depth gets four fresh leaves with the four quadrant bounds, one level deeper and numbered 0; any other node is left alone |
| `QuadTrees.QuadTree.SplitLeaf` | shared/src/quadtree.rs:125-153 | the tree object changes as the specified split says, ids are consecutive from the counter, and on failure nothing is written |
| `QuadTrees.QuadTree.ShardFor` | shared/src/quadtree.rs:156-174 | the search over the object equals the specified search over its abstract tree |
| `QuadTrees.QuadTree.ShardsNearImpl` | shared/src/quadtree.rs:186-202 | the recursion appends exactly the specified ids to the buffer |
| `QuadTrees.QuadTree.ShardsNear` | shared/src/quadtree.rs:178-184 | the sorted, deduplicated list of the specified ids |
| `QuadTrees.QuadTree.TryMerge` | shared/src/quadtree.rs:206-238 | the loop merges in place what the specified merge says and reports the same parent and children; without a merge nothing is written |
| `QuadTrees.QuadTree.ForceCollapse` | shared/src/quadtree.rs:242-262 | the loop collapses in place what the specified collapse says, and writes nothing when no descendant crashed |
| `QuadTrees.QuadTree.FindParentOf` | shared/src/quadtree.rs:265-279 | the search over the object equals the specified parent search |
| `Wire.StringToTopic` | shared/src/quadtree.rs:36-42 | the loop over the zeroed buffer yields the text cut to 32 bytes and padded with zeros |
| `Wire.ShardTopicInjective` | shared/src/quadtree.rs:36-42 | no two 32-bit shard ids have the same topic: none is truncated and padding cannot confuse two of them |
| `Wire.ShardTopicText` | shared/src/quadtree.rs:36-42 | the topic of a shard, byte by byte: "shard:", the decimal digits of the id without leading zeros, zeros up to 32 bytes |
| `SpatialPackets.NamedTopics` | spatial_server/src/main.rs:71-189 | the topics spatial_updates and orchestrator_commands, character by character |
| `Wire.LE32RoundTrip` | spatial_server/src/main.rs:134-148 | decoding the four bytes of a 32-bit number gives the number back |
| `Wire.LittleEndian` | spatial_server/src/main.rs:134-148 | the least significant byte comes first, in 32-bit and in 16-bit numbers |
| `SpatialEngine.SpatialService.constructor` | shared/src/quadtree.rs:314-324 | a service over the given tree with empty tables and no locks |
| `SpatialEngine.SpatialService.StandsIn` | shared/src/quadtree.rs:369-378 | the shard of a position, with a booting shard replaced by its parent |
| `SpatialEngine.SpatialService.NearbyShards` | shared/src/quadtree.rs:396-413 | the interception loop, the added primary, sort and dedup yield the specified nearby list |
| `SpatialEngine.SpatialService.PlaceClient` | shared/src/quadtree.rs:380-394 | the client is recorded in its new shard, and the change of authority is emitted exactly if it is a new one |
| `SpatialEngine.SpatialService.SubscriptionChanges` | shared/src/quadtree.rs:421-440 | the two loops emit one Subscribe per new and one Unsubscribe per abandoned shard, in list order |
| `SpatialEngine.SpatialService.FollowShards` | shared/src/quadtree.rs:415-450 | the new list replaces the old one and an alert follows when there is more than one shard |
| `SpatialEngine.SpatialService.CheckOverpopulation` | shared/src/quadtree.rs:452-470 | an unlocked shard with more than two clients is locked, and split if it can be |
| `SpatialEngine.SpatialService.HandlePositionUpdate` | shared/src/quadtree.rs:361-473 | the whole update computes the specified next state and the specified actions in order |
| `SpatialEngine.SpatialService.RescueClients` | shared/src/quadtree.rs:333-349 | the loop over the clients, in any order, moves exactly those in crashed shards and emits one AuthorityChange for each |
| `SpatialEngine.SpatialService.ReleaseLocks` | shared/src/quadtree.rs:351-355 | exactly the locks named in the crash report are released |
| `SpatialEngine.SpatialService.HandleServerCrash` | shared/src/quadtree.rs:327-358 | collapse, rescue and release compute the specified next state; the actions are the specified ones in the order the map yields |
| `SpatialEngine.SpatialService.CountPopulations` | shared/src/quadtree.rs:479-483 | the counting loop yields, for every shard, the number of clients recorded in it, whatever the order of the map |
| `SpatialEngine.SpatialService.CheckMerges` | shared/src/quadtree.rs:476-496 | at most one merge, of the specified group, with a lock on its parent |
| `SpatialEngine.SpatialServer.constructor` | spatial_server/src/main.rs:37-65 | the initial state of the event loop |
| `SpatialEngine.SpatialServer.HandlePacket` | spatial_server/src/main.rs:85-405 | one datagram: the state and the actions are those of the event it parses to, the datagrams sent are the encodings of these actions in order, and a packet too short for its tags changes and sends nothing |
| `SpatialEngine.SpatialServer.OnPosition` | spatial_server/src/main.rs:112-243 | update plus the loop over its actions compute the specified step, and send the datagram of every action in order |
| `SpatialEngine.SpatialServer.RecordSplit` | spatial_server/src/main.rs:199-205 | every new shard waits for its parent and the parent waits for the list |
| `SpatialEngine.SpatialServer.OnReady` | spatial_server/src/main.rs:248-301 | a Ready signal computes the specified step: the shard is struck off, and the last one releases the merge lock if there is one, else the split lock |
| `SpatialEngine.SpatialServer.OnCrash` | spatial_server/src/main.rs:306-351 | a crash report computes the specified step and sends rescues only |
| `SpatialEngine.SpatialServer.OnDisconnect` | spatial_server/src/main.rs:357-404 | a departure computes the specified step: the client is forgotten, at most one merge is booked as waiting for its own parent, and its order is sent |
| `SpatialPackets.Datagram` | spatial_server/src/main.rs:129-207 | each of the six actions is built, list by list, into the specified datagram |
| `SpatialPackets.ActionReads` | spatial_server/src/main.rs:129-240 | the broker reads from the datagram of every action exactly the message meant: clients, topics, shards, and the payload routed to the orchestrator |
| `SpatialPackets.ReadShards` | spatial_server/src/main.rs:310-323 | the loop reads the announced number of shard ids, or as many as the packet still holds |
| `SpatialPackets.CrashReportRead` | spatial_server/src/main.rs:306-323 | a report in the format the handler documents is read in full up to 253 shards; of a longer one exactly the first 253 survive the 1024-byte buffer |
| `SpatialPackets.CrashMessageSkipped` | orchestrator/src/main.rs:204-216 | the crash message the orchestrator does send reaches the spatial server without the outer tag 5 and is skipped there, whatever it reports |
| `SpatialPackets.ReadyArrives` | broker/src/main.rs:103-120 | the Ready of a game server, wrapped by the broker, reaches the authority of the spatial topic, if there is one, and is read there as the Ready of that shard |
| `SpatialPackets.DepartureArrives` | spatial_server/src/main.rs:357-361 | the departure packet of the broker is read as the departure of that client |
| `SpatialPackets.PositionReads` | broker/src/main.rs:285-309 | broker and spatial server both read the position packet of a client as that client and those coordinate bits |
| `SpatialPackets.PositionArrives` | broker/src/main.rs:285-314 | a position packet reaches the server of every routed topic of the client and reads there as the same client at the same coordinate bits |
| `SpatialInvariant.PositionInTwoParts` | shared/src/quadtree.rs:361-473 | a position update is a move followed by an overpopulation check, and never emits a ScaleDown, so the ScaleDown branch of the position loop is dead code |
| `SpatialInvariant.StepKeepsInv` | spatial_server/src/main.rs:85-405 | every event keeps the invariant: tree well formed in its world, a pending child still in the tree is a leaf directly below its mapped parent, which is not pending itself, no client sees a pending child, and every waiting list is non-empty and maps back to its parent |
| `SpatialInvariant.ReachableInv` | spatial_server/src/main.rs:85-405 | the invariant holds after any interleaving of position, Ready, disconnect and crash events, with duplicates |
| `SpatialInvariant.NoClientSeesPendingShard` | shared/src/quadtree.rs:372-442 | in every reachable state no client is placed in, or subscribed to, a shard that has not signalled Ready |
| `SplitTransparency.NearAtExact` | shared/src/quadtree.rs:396-413 | the nearby list of a client holds exactly the intercepted ids of the nearby leaves; adding the primary never changes it |
| `SplitTransparency.SplitInvisible` | shared/src/quadtree.rs:370-413 | a split whose children are recorded as pending changes neither the primary nor the nearby list of any position |
| `SplitTransparency.PositionKeepsViews` | spatial_server/src/main.rs:112-208 | no position update, splitting or not, changes what a client at any position would be told |
| `SplitTransparency.SplitsInvisibleUntilReady` | spatial_server/src/main.rs:112-208 | after any history, any number of position updates leaves the view from every position unchanged until another kind of event arrives |
| `SplitTransparency.MergeRenamesView` | spatial_server/src/main.rs:371-402 | a merge changes views only by giving the parent id to what the four children held, pending or not |
| `SplitTransparency.DisconnectViews` | spatial_server/src/main.rs:357-404 | a departure leaves every view unchanged, or unchanged up to that renaming when four siblings merge |
| `SplitTransparency.ReadyViews` | spatial_server/src/main.rs:248-259 | a Ready of k changes a view only where k is nearby, and there only from its parent to k |
| `SplitTransparency.CrashViews` | shared/src/quadtree.rs:327-331 | a crash below the root shows every position shard 0 and nothing else; any other crash report changes no view |
| `SpatialTheorems.ScaleUpExactly` | shared/src/quadtree.rs:452-470 | new servers are requested if and only if the client's shard is unlocked, holds more than two clients and is a leaf above the maximum depth; they get the next four ids |
| `Subscriptions.UpdateInOrder` | shared/src/quadtree.rs:380-470 | an update emits in this order: a change of authority, exactly if the client is not recorded where it stands; Subscribes; Unsubscribes; one CrossingAlert that lists the new record, exactly if that record has two shards or more; the request for servers |
| `Subscriptions.UpdateAscends` | shared/src/quadtree.rs:421-440 | Subscribes and Unsubscribes each come in ascending order of shards |
| `SpatialTheorems.SamePositionTwice` | shared/src/quadtree.rs:361-473 | processing the same position twice: the second time nothing changes and at most a CrossingAlert is emitted, even when the first time split the shard |
| `SpatialTheorems.OutOfSightAlike` | shared/src/quadtree.rs:283-285 | a position whose margin box misses the world leaves the client in its primary shard and unsubscribes it from everything, whatever the coordinates are |
| `SpatialTheorems.ReadyIdempotent` | spatial_server/src/main.rs:257-299 | a duplicate Ready changes nothing |
| `SpatialTheorems.ReadyCommutes` | spatial_server/src/main.rs:257-299 | in every reachable state two Ready signals give the same state in either order |
| `SpatialRuns.TreeAlwaysWellFormed` | shared/src/quadtree.rs:72-262 | after any run children tile their parent, no node is deeper than the maximum, ids are unique and below the counter, siblings are consecutive and larger than their parent, and leaves are 1 + 3 x interior |
| `SpatialRuns.NextIdCounts` | shared/src/quadtree.rs:141-146 | the counter is 1 + 4 x the number of ScaleUps of the run |
| `SpatialRuns.InteriorCounts` | shared/src/quadtree.rs:452-496 | in every run the interior nodes are ScaleUps minus ScaleDowns minus those that crashes destroyed, which are none without a crash; the leaves follow |
| `SpatialRuns.MergingExhausts` | shared/src/quadtree.rs:476-496 | repeating the merge check with fixed clients removes one interior node each time, stops, and leaves two clients or more in every four sibling leaves |
| `Merging.MergesExactly` | shared/src/quadtree.rs:476-496 | the merge check in numbers of clients: it does nothing if and only if every four sibling leaves hold two clients or more between them; otherwise it merges one group that holds at most one |
| `Merging.DepartureMergesExactly` | spatial_server/src/main.rs:357-404 | in every run a departure merges shards if and only if some four sibling leaves hold at most one client besides the one that leaves |
| `SpatialRuns.CrashRescuesAll` | shared/src/quadtree.rs:327-358 | a crash emits exactly one AuthorityChange per client in a crashed shard, always to shard 0, nothing else, collapses the tree to the root exactly when a shard below the root crashed, and releases the locks of exactly the reported shards |
| `SpatialRuns.AuthorityChain` | shared/src/quadtree.rs:381-394 | over any run the AuthorityChanges of a client form a contiguous chain from shard 0 that ends at its recorded shard, restarting at 0 after a disconnect |
| `SpatialLocks.LockHeldUntilAllReady` | spatial_server/src/main.rs:257-296 | in runs without a merge of the split shard and without a crash report that names it, whatever else crashes: its lock is released exactly when all four new servers have signalled Ready, and it is never locked again, except that a world collapsed to shard 0 may lock shard 0 anew after that release |
| `LockLeaks.LocksReachable` | spatial_server/src/main.rs:257-404 | without crashes locks, waiting lists and interior nodes always fit together: a merge lock means the parent waits for itself alone and is not interior, every other waiting parent is interior and split-locked, and a pending child in the tree is on its parent's list |
| `LockLeaks.AwaitedReachable` | spatial_server/src/main.rs:199-296 | without crashes everybody on the waiting list of a split is still in the tree |
| `LockLeaks.WaitingParentsAreLocked` | spatial_server/src/main.rs:199-205 | without crashes every waiting parent holds a split or a merge lock |
| `LockLeaks.InteriorLockedWhileBooting` | spatial_server/src/main.rs:262-296 | without crashes an interior shard is locked exactly while it has a waiting list, and exactly while one of its own children in the tree has not signalled Ready |
| `SpatialLocks.SettledHaveSignalled` | spatial_server/src/main.rs:199-259 | in every reachable state every shard is shard 0, still booting, or has signalled Ready in the history |
| `SpatialLocks.ClientsSeeSignalled` | shared/src/quadtree.rs:372-442 | every shard that a client is placed in or subscribed to is shard 0 or has signalled Ready in the history |
| `LockLeaks.StuckForever` | shared/src/quadtree.rs:455-461 | a split lock on a shard that is not split, left in a past without crashes, is released by nothing but a crash report that names the shard, and until then the shard never splits again |
| `LockLeaks.MergeLeaksLockExactly` | spatial_server/src/main.rs:268-289 | without crashes a merge leaves the split lock of its parent behind if and only if the parent was still waiting for a server |
| `LockLeaks.PositionLeaksLockExactly` | shared/src/quadtree.rs:455-469 | without crashes a position update leaves a lock behind if and only if it finds the client's shard unlocked, overpopulated and at the maximum depth |
| `LockLeaks.StuckExactly` | shared/src/quadtree.rs:452-493 | in every run without crashes, a shard that is not split holds a lock, and then for ever, if and only if some merge hit it while it waited for servers or some update locked it at the maximum depth |
| `LockLeaks.LocksKnownReachable` | shared/src/quadtree.rs:452-461 | in every reachable state only shards that exist hold a split lock |
| `LockLeaks.CrashFreesRootExactly` | shared/src/quadtree.rs:351-355 | after a crash below the root, shard 0 can split again if and only if the world is divisible, more than two clients were in it or in a crashed shard, and it was unlocked before or is itself in the crash report |
| `LockWitnesses.LeaveLeaksLock` | spatial_server/src/main.rs:357-404 | a concrete history: three arrivals and one departure during the boot leave shard 0 locked in every future in which no crash report names it |
| `LockWitnesses.ThreeArrive` | shared/src/quadtree.rs:452-470 | a concrete history: three arrivals split a divisible world; in one that may not be divided they lock shard 0 for good |
| `LockWitnesses.EveryWorldLeaksLock` | shared/src/quadtree.rs:452-470 | in every world and at every point of it, a history of 7 x depth + 3 events (three updates and four Readys per level) leaves a shard at the maximum depth locked, and no future frees it in which no crash report names it |
| `LockWitnesses.DeployedLeaksLock` | spatial_server/src/main.rs:37-50 | the same for the deployed world of depth 4: 31 events |
| `LockWitnesses.CrashLeavesRootLocked` | shared/src/quadtree.rs:351-355 | a concrete history: after three arrivals and the crash of one child, in every future without a report that names shard 0, the world stays one shard and shard 0 stays locked although overpopulated until exactly the moment all four new servers have signalled Ready |
| `LockWitnesses.SplitsAnewAfterCrash` | spatial_server/src/main.rs:268-289 | that history continued: after the four Readys the next update locks and splits shard 0 again |
| `LockWitnesses.NamingFreesLock` | shared/src/quadtree.rs:351-355 | a concrete history: a report that names shard 0 itself frees its lock while all four new servers are still booting |
| `BrokerModel.StepTables` | broker/src/main.rs:169-241 | one message, seen from one client and one topic: exactly when each of the three table entries is there afterwards |
| `BrokerModel.TablesExact` | broker/src/main.rs:169-339 | over every message history: a topic has a route once registered, a client's topics are its standing subscriptions, and a route lists exactly the clients whose standing subscription came after the first registration |
| `BrokerModel.AddressesExact` | broker/src/main.rs:285-339 | over every message history: the authority of a topic is whoever claimed it last, and the address of a client is where its last input came from, unless it has left since |
| `BrokerModel.RoutesWithinTopics` | broker/src/main.rs:169-241 | a route never lists a client whose own topics do not contain it |
| `BrokerModel.DisconnectLeavesNoTrace` | broker/src/main.rs:169-194 | after a disconnect no table mentions the client |
| `BrokerModel.ClaimKeepsListeners` | broker/src/main.rs:319-335 | claiming a topic changes its authority and nobody's subscriptions |
| `Broker.BrokerState.constructor` | broker/src/main.rs:31-38 | all tables start empty |
| `Broker.BrokerState.Receive` | broker/src/main.rs:60-76 | the dispatch computes the specified tables and sends the specified packets |
| `Broker.BrokerState.HandleSubscribe` | broker/src/main.rs:198-221 | the topic is remembered, and listened to if it has a route |
| `Broker.BrokerState.HandleUnsubscribe` | broker/src/main.rs:225-241 | the topic is forgotten on both sides |
| `Broker.BrokerState.HandlePublish` | broker/src/main.rs:246-280 | the loop sends exactly one copy to every subscriber with a known address, if the sender owns the topic and the frame fits, and nothing otherwise |
| `Broker.BrokerState.HandleClientInput` | broker/src/main.rs:285-314 | the address is recorded and one copy goes to the server of every routed topic of the client, if it fits in 512 bytes |
| `Broker.BrokerState.HandleRegisterShard` | broker/src/main.rs:319-339 | the sender becomes the authority of the topic and the listeners stay |
| `Broker.BrokerState.HandleClientDisconnect` | broker/src/main.rs:169-194 | the loop tells the server of every routed topic once and removes the client everywhere |
| `Broker.BrokerState.HandleAuthorityChange` | broker/src/main.rs:138-165 | the packet goes to the client, to the server of the old shard and to the server of the new shard, in this order, to those that are known |
| `Delivery.PublishExact` | broker/src/main.rs:246-280 | a Publish goes out if and only if its sender is the authority of the topic and the frame has at most 1497 bytes: one copy for every listener with a known address, and nothing else |
| `Delivery.LatestClaimPublishes` | broker/src/main.rs:260-335 | over every message history only frames of whoever claimed the topic last go out |
| `Delivery.InputForwarded` | broker/src/main.rs:285-314 | input of up to 507 bytes goes unchanged to the server of every routed topic of the client, one copy per topic, and to nobody else; longer input goes to nobody |
| `Delivery.DepartureForwarded` | broker/src/main.rs:169-192 | the server of every routed topic of a client is told of its departure, once per topic, and nobody else is |
| `Delivery.OthersSilent` | broker/src/main.rs:63-75 | subscriptions, claims and what the broker does not understand are never answered |
| `Delivery.ChangeDelivered` | broker/src/main.rs:138-165 | an AuthorityChange goes first to the client, if it has an address, then to the server of the old shard, then to the server of the new shard, where there are any, and to nobody else |
| `Delivery.ChangeReachesClient` | client/src/main.rs:298-315 | the client is sent the change of authority first and reads it as tag 18 with exactly its own id and the two shards; it then belongs to the new shard |
| `Delivery.ClientFollows` | client/src/main.rs:298-315 | after every run a client that was told of each change of its authority belongs to the shard the spatial server has on record, and one without a record to none |
| `Delivery.AlertReachesClient` | broker/src/main.rs:124-134 | a CrossingAlert reaches its client as the spatial server sent it, and nobody else |
| `Subscriptions.SubscriptionActionsExact` | shared/src/quadtree.rs:421-440 | a position update contains each Subscribe exactly once for a new shard, each Unsubscribe exactly once for an abandoned one, and no other |
| `Subscriptions.UpdateTopics` | shared/src/quadtree.rs:415-442 | relaying the actions of one update adds exactly the topics of the new shards to the client, removes exactly those of the shards left behind, and touches nobody else |
| `Subscriptions.UpdateKeepsSync` | shared/src/quadtree.rs:415-442 | relaying the actions of one update keeps the two records of every client in step that agreed before |
| `BrokeredRuns.SubscriptionsAgree` | shared/src/quadtree.rs:415-442 | over every history of messages at the broker, of Ready signals and of crash reports: the shard topics the broker has for a client are exactly the shards the spatial server has on record, and a client with shards on record is one the broker forwards; nothing is assumed of who sends positions and departures or how often |
| `BrokeredRuns.AgreementExact` | broker/src/main.rs:176-192 | when clients may also unsubscribe from the spatial topic: the two servers agree at every moment of a run if and only if no departure strands a client, that is goes unreported while the spatial server has shards on record |
| `BrokeredRuns.JointExact` | broker/src/main.rs:176-192 | one happening keeps the agreement if and only if it does not strand a client |
| `BrokeredRuns.LeaveExact` | broker/src/main.rs:176-192 | after a departure both servers agree on the client if and only if it was reported or no shards were on record, and on everybody else in any case |
| `BrokeredRuns.EventKinds` | broker/src/main.rs:285-314 | positions reach the spatial server only for the client that sent them and that the broker forwards, departures only as the broker reports them |
| `BrokeredRuns.EmittedExact` | spatial_server/src/main.rs:334-350 | relaying the rescues of a crash, in any order, changes none of the broker's tables |
| `BrokeredRuns.ForwardingExact` | broker/src/main.rs:87-120 | in every run, whatever message the broker receives, it sends the spatial server exactly the one specified datagram or none, in whatever order it goes through its tables |
| `BrokeredRuns.DepartureReportedOnce` | broker/src/main.rs:176-188 | in every run the broker sends the spatial server exactly one copy of a departure if the client subscribed to its topic and the topic is routed to it, and none otherwise |
| `BrokeredRuns.UnheardLeaveDesyncs` | broker/src/main.rs:176-192 | a concrete brokered history: the spatial server registers, a client subscribes to its topic, is forwarded, unsubscribes and leaves; then the two servers disagree |
| `Listeners.ListeningExact` | broker/src/main.rs:198-221 | one happening keeps every subscriber of a shard among the listeners of its route if and only if it is no update that subscribes its client to a shard nobody has claimed |
| `Listeners.ListeningAlwaysExact` | broker/src/main.rs:198-221 | over every run: at every moment everybody who is subscribed to a shard is sent its frames, if and only if no update of the run subscribed its client to a shard nobody had claimed |
| `Listeners.RoutedWhenClaimed` | broker/src/main.rs:319-339 | in every run a shard has a route if and only if some server has claimed its topic before |
| `Listeners.ListenersExact` | dedicated_server/src/main.rs:235-254 | in every run in which servers claim the topic of a shard before they report it ready, and shard 0 before the first position: the listeners of a shard at the broker are exactly the clients that have the shard on record at the spatial server |
| `Frames.BroadcastState` | dedicated_server/src/main.rs:427-467 | without players nothing is sent; else the loop builds one Publish packet of at most 255 players for every hosted shard |
| `Frames.FrameSize` | dedicated_server/src/main.rs:437-464 | a frame holds every player up to 255, says how many in one byte, and has twelve bytes for each |
| `Frames.FrameLayout` | dedicated_server/src/main.rs:438-445 | the twelve bytes of each player in a frame are its id, its x and its y coordinate, little-endian |
| `Frames.HandleBroadcast` | client/src/main.rs:199-219 | the decode loop returns the players the buffer still holds, up to the count byte |
| `Frames.BroadcastDecodes` | client/src/main.rs:191-219 | a relayed frame of at most 124 players decodes to all of them up to 85, and to the first 85 from 86 on |
| `Frames.FrameRoundTrip` | broker/src/main.rs:246-276 | end to end: all N players in order for N up to 85, exactly the first 85 for 86 to 124, nothing sent from 125 on |
| `Frames.FrameReachesSubscribers` | broker/src/main.rs:260-277 | every subscriber with a known address is sent that frame when the publisher owns the topic |
| `Dedicated.DedicatedServer.HandlePacket` | dedicated_server/src/main.rs:212-407 | every packet changes registry, authorities, count and shard list as specified, sends the specified claims and Readys, and ends the process exactly on a shutdown order |
| `Dedicated.DedicatedServer.TakeShards` | dedicated_server/src/main.rs:231-254 | the loop lists every assigned shard, claims its topic and reports it ready, in this order |
| `Dedicated.HostStepKeeps` | dedicated_server/src/main.rs:212-407 | every packet keeps the count equal to the registry size, every player on an entity of its own, and no entity without a player |
| `Dedicated.PacketKnows` | dedicated_server/src/main.rs:212-377 | which players a server knows after any packet: a sighting, a forwarded position or a join request makes a player known, a departure makes it forgotten, and nothing else does either |
| `Dedicated.NoticesRead` | dedicated_server/src/main.rs:219-377 | the broker's notice of a departure is read as the departure of that client, and tag 23 as the order to shut down |
| `Dedicated.PlayerCountExact` | dedicated_server/src/main.rs:261-377 | after any packet sequence the player count is the number of registry entries |
| `Dedicated.CountNeverUnderflows` | dedicated_server/src/main.rs:369-377 | a departure always decrements by exactly one: the counter never wraps |
| `Ownership.ChangeParses` | spatial_server/src/main.rs:164-175 | broker and game server read back exactly the client and shards of the AuthorityChange packet |
| `Ownership.ChangeReachesBoth` | broker/src/main.rs:154-164 | the copies reach the host of the old shard and then the host of the new shard, where the broker has a route, and no other host |
| `Ownership.ChangeMovesOwnership` | dedicated_server/src/main.rs:378-404 | if nobody but the host of the old shard owned the player, then afterwards the host of the new shard is the only owner if and only if it knew the player when its copy arrived, and else nobody is; also when both shards have the same host; nobody else's players change, and only these two shards need a host |
| `Ownership.PacketOwns` | dedicated_server/src/main.rs:212-407 | what any packet does to the ownership of any player: only a join request takes it, only a departure or a change of authority ends it, and a ghost stays one however often it is sighted |
| `Ownership.LateHostOwnsNothing` | dedicated_server/src/main.rs:378-404 | a new host that did not know the player when the change arrived: nobody owns the player, also not after that host has spawned it as a ghost; a join request, or a later change to a shard of that host, makes it the owner |
| `Ownership.RunNamesSignalled` | shared/src/quadtree.rs:335-394 | a run names only shard 0 and shards that had signalled Ready before |
| `Ownership.AssignmentGrows` | dedicated_server/src/main.rs:225-254 | assigning unhosted shards to a server, with its claims relayed by the broker, places exactly them and moves no placed shard and no ownership: it may come between any two deliveries |
| `Ownership.PacketGrows` | dedicated_server/src/main.rs:261-333 | so may every packet at any server that neither joins, moves nor removes the player, in particular every sighting that spawns ghosts |
| `Ownership.SingleOwnerAtQuiescence` | dedicated_server/src/main.rs:378-404 | once every AuthorityChange of a run has been delivered in order, nobody owns the player but the host of the shard the spatial server has on record, and that host owns it if and only if it knew the player when the latest change arrived; however many servers and shards join during the run and whoever spawns the player as a ghost; no shard needs a host before it has signalled Ready |
| `Borders.PositionMakesGhosts` | dedicated_server/src/main.rs:297-334 | a forwarded position moves no ownership, and afterwards exactly those hosts of shards know the client that knew it before or serve a topic it subscribes to |
| `Borders.SightingsRead` | dedicated_server/src/main.rs:261-269 | a count and then twelve bytes per player: the server reads the id of every player, in order |
| `Borders.DepartureForgets` | dedicated_server/src/main.rs:369-377 | a departure makes exactly the servers forget the client that serve a topic of it, among them the host of every shard it subscribes to, and nobody else is forgotten |
| `Borders.SubscribedHandover` | dedicated_server/src/main.rs:306-402 | the intended handover, end to end: if the client was subscribed to the new shard when it sent the position that moves it there, the host of the new shard ends up as its only owner |
| `Borders.FirstUpdateOwns` | shared/src/quadtree.rs:381-394 | the first position in a fresh world, from any servers of which only the host of shard 0 may own the player: that host owns it afterwards if and only if it knew it |
| `Borders.JoinOwnersExact` | broker/src/main.rs:298-310 | a forwarded join request makes every game server that serves a topic of the client its owner, nobody else, and takes it from nobody, and nobody else's players change |
| `Borders.JoinLeavesOneOwner` | dedicated_server/src/main.rs:345-366 | a join request of a player nobody owns leaves exactly one owner, a given server, if and only if that server and no other game server serves a topic of the client |
| `Borders.JoinAtBorder` | dedicated_server/src/main.rs:345-366 | a client subscribed to two shards on two servers sends a join request: both own it |
| `Scaling.OrderArrives` | orchestrator/src/main.rs:85-130 | a request for servers, and one to merge, reaches the orchestrator, if its topic is routed, and is read there as the parent and the four shards meant |
| `Scaling.AssignmentArrives` | orchestrator/src/main.rs:99-112 | the assignment of four shards reaches the server it is addressed to and is read there as those shards |
| `Scaling.ShutdownArrives` | orchestrator/src/main.rs:136-143 | the order to shut down reaches the server of the shard and is read there as that |
| `Scaling.AnnouncementsArrive` | dedicated_server/src/main.rs:231-254 | a server that is assigned shards: for each of them, in order, the broker first records the claim and then sends the spatial server one datagram that reads as the Ready of that shard; it sends nothing else |
| `Scaling.SplitCompletes` | spatial_server/src/main.rs:183-296 | end to end, from every reachable state: the request of a split reaches the orchestrator, the assignment of the new shards reaches the server, its announcements reach the spatial server as the four Readys, and the lock is held through the first three of them and released by the fourth |

## Left out

- Sockets, the async runtime, the Redis store, the HTTP login of the gatekeeper, environment variables, logging and process control: input and output without a property to prove.
- orchestrator/src/main.rs: processes, ports, heartbeats and the choice of a server with room; its reading of orders and its messages to game servers are modelled (`Scaling`), and that a freshly spawned server reports its shards after a warm-up is not.
- SpatialEngine.SpatialServer.HandlePacket: client positions are exact reals, and sums like position plus margin are not rounded; how the bits of a float are read is a parameter. An infinite coordinate or NaN fails every comparison with the world and is covered by reading it as any coordinate out of sight, which are all treated alike (`SpatialTheorems.OutOfSightAlike`).
- `shard_id` as an optional value: every node of a running tree has one, so it is a plain number.
- The 8-bit depth counters: depths are natural numbers, bounded by the maximum depth.
- `assign_shards`: not called by any server.
- The PendingHandoff protocol of the documentation (tags 0x20 to 0x24): not implemented in the code.
- Joins, transforms, inputs and movement inside a dedicated server beyond their effect on registry, authority and count; heartbeats and the warm-up before the first Ready.
- The dedicated server's decoder of 0x04 frames is modelled for the registry only: it reads another layout than the broker sends, so no round trip through it is stated.
- Client rendering, interpolation and input; only its decoding of frames and its reading of authority changes are modelled.
- Loss, duplication and reordering of datagrams between the servers: `BrokeredRuns` and `Ownership` assume that what one server sends another is delivered in order before the next happening; duplicated and reordered Ready signals are covered by `SpatialTheorems.ReadyCommutes`.
- BrokeredRuns.SubscriptionsAgree: assumes that nobody but the spatial server subscribes clients to shards, except the warm-up id 0xFFFFFFFF of booting game servers, which is left out of the agreement; that nobody routes forged positions or departures to the spatial topic, claims it, or unsubscribes a client from it; that the address of the spatial server claims no other topic and sends no client input; and that shard ids fit 32 bits.
- Ownership.SingleOwnerAtQuiescence: assumes that a shard keeps its host once placed, that the player does not leave, and that during the run ownership moves by AuthorityChanges alone: a JoinRequest between two of them is treated by itself (`Borders.JoinLeavesOneOwner`).
- Borders.JoinLeavesOneOwner: is about payloads that parse as a join request and not also as a player input.
- SpatialLocks.LockHeldUntilAllReady: excludes merges of the split shard and crash reports that name it, because both break it: after a merge the lock may outlast the four Readys (`LockWitnesses.LeaveLeaksLock`), and a report that names the shard frees it before them (`LockWitnesses.NamingFreesLock`).
