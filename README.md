# Distributed hash table node: ownership and routing

This project models the node of Rhino's distributed hash table
(`DistributedHashTableNode`). The node joins a cluster through the master and
keeps two lists of segments, one it owns and one it is catching up on. It
moves segments between them as replication commands report progress, and it
routes batches of requests to a segment's owner or to that segment's other
replicas.

The model is sequential and imperative. The class
`DhtNode.DistributedHashTableNode` keeps the source's fields:

- `ranges` is the owned list.
- `catchingUp` is `rangesThatWeAreCatchingUpOn`.
- `state` is the lifecycle state.
- `topology` is the last topology fetched from the master.

The node's collaborators do not appear as objects. Every call the node makes
into one of them is appended, in order, to the ghost field `trace`. The
collaborators are the master, the executer, the replication factory, the
message serializer and the queue manager.

Values come back from collaborators in two ways:

- What the master returns (`GetTopology()` and `Join(endPoint)`) is passed to
  `Start` as parameters.
- What the serializer produces is the function `serialize`, fixed at
  construction.

The module `NodeSpec` defines the functions the methods are proved against:

- `AssignedTo` and `AssignedElsewhere` are the LINQ `Where` filters of lines
  115 and 102-104.
- `IndexIn` and `IndexNotIn` are the segments matched and left behind by the
  predicates passed to `Util.MoveTo` and `RemoveAll` (lines 86 and 93).
- `GroupByOwner` is `GroupBy(x => x.AssignedEndpoint)`.
- `Registrations` and `FanOut` are the call sequences of the two loops.

The lemmas about these functions state the ownership and routing rules. The
module `Sequences` holds the order-preserving filter `Select` that all of them
are built from.

Modelling decisions:

- Three list helpers used on the node's lists come from `Util`, which is not
  part of this model. Their behaviour is assumed:
  - `MoveTo` (line 86) removes the matching elements from the source list and
    appends them, in their order, to the destination list.
  - `RemoveAll` (line 93) removes every matching element and keeps the order
    of the rest.
  - `Append` (line 73) yields the sequence with the given element added at
    the end. The recipient order "backups, then the assigned endpoint" rests
    on this assumption.
- `NodeEndpoint` comparisons (`!=` at lines 73 and 103, `==` at line 115)
  and `GroupBy`'s key comparison at line 105 are all value equality of the
  endpoint datatype. The one-command-per-source property of `Start` rests on
  this choice for `GroupBy`.
- `Start` stores the topology first, then calls `Join`. The catching-up list
  is the joined segments assigned elsewhere, in join order. For each
  distinct source endpoint, in order of first appearance, `Start` makes two
  calls:
  - it creates a replication session bound to the node's *own* endpoint
    (line 112);
  - it registers a command carrying that source and its segments.

  After the loop, the owned list is the joined segments assigned to the node,
  and the state becomes `Started` only if that list is non-empty.
- `SendToAllOtherBackups` serializes the requests once per recipient
  (line 78), not once per call. Its recipients are the segment's backups
  followed by its assigned endpoint, with the node's own endpoint skipped.

## Model

| member | source | states |
|---|---|---|
| DhtNode.DistributedHashTableNode.constructor | Rhino.DistributedHashTable/Internal/DistributedHashTableNode.cs:23-37 | a new node keeps its endpoint and serializer, is `NotStarted`, has empty owned and catching-up lists, no topology and no calls made |
| DhtNode.DistributedHashTableNode.GetTopologyVersion | Rhino.DistributedHashTable/Internal/DistributedHashTableNode.cs:48-51 | returns the version of the stored topology |
| DhtNode.DistributedHashTableNode.IsSegmentOwned | Rhino.DistributedHashTable/Internal/DistributedHashTableNode.cs:53-56 | true exactly when the stored topology has segment `range` and it is assigned to this node's endpoint |
| DhtNode.DistributedHashTableNode.SendToOwner | Rhino.DistributedHashTable/Internal/DistributedHashTableNode.cs:58-67 | makes exactly two calls: one serialization of the requests, then one send of that payload to the queued address of the segment's assigned endpoint; nothing else changes |
| DhtNode.DistributedHashTableNode.SendToAllOtherBackups | Rhino.DistributedHashTable/Internal/DistributedHashTableNode.cs:69-81 | the calls made are exactly the fan-out to the segment's backups followed by its assigned endpoint, without this node: one serialization and one send per recipient, in that order |
| DhtNode.DistributedHashTableNode.DoneReplicatingSegments | Rhino.DistributedHashTable/Internal/DistributedHashTableNode.cs:83-88 | reports `CaughtUp(self, ids)` to the master; appends exactly the catching-up segments with a listed index, in order, to the owned list and keeps the rest; sets `Started`; the two lists together keep every segment as often as before; index-disjoint lists stay index-disjoint |
| DhtNode.DistributedHashTableNode.GivingUpOn | Rhino.DistributedHashTable/Internal/DistributedHashTableNode.cs:90-94 | reports `GaveUp(self, ids)` to the master; the catching-up list loses exactly the segments with a listed index; the owned list and the state are unchanged; disjointness from the owned list is kept |
| DhtNode.DistributedHashTableNode.RegisterReplications | Rhino.DistributedHashTable/Internal/DistributedHashTableNode.cs:105-114 | for each group in order, creates a session for this node's own endpoint and then registers the group's command |
| DhtNode.DistributedHashTableNode.Start | Rhino.DistributedHashTable/Internal/DistributedHashTableNode.cs:98-122 | stores the topology; the catching-up list is the joined segments assigned elsewhere and the owned list those assigned to self, both in join order; the calls are `GetTopology`, `Join(self)`, then the registrations for the grouping of the catching-up list; the state is the one `StateAfterJoin` gives for the owned list |
| Sequences.Select | Rhino.DistributedHashTable/Internal/DistributedHashTableNode.cs:102-104 | a filter keeps exactly the elements satisfying the predicate, never more of them than the input holds |
| Sequences.SelectPartition | Rhino.DistributedHashTable/Internal/DistributedHashTableNode.cs:102-115 | filtering by a predicate and by its complement splits the input: the two results hold every element exactly as often as the input, and none is in both |
| Sequences.Without | Rhino.DistributedHashTable/Internal/DistributedHashTableNode.cs:73 | `Where(x => x != e)` keeps exactly the elements other than `e`, drops one element per occurrence of `e`, and keeps a duplicate-free input duplicate-free |
| Sequences.WithoutSnoc | Rhino.DistributedHashTable/Internal/DistributedHashTableNode.cs:73 | dropping `e` from an input extended by `x` extends the result by `x` exactly when `x` is not `e` |
| Sequences.SelectCountsOccurrences | Rhino.DistributedHashTable/Internal/DistributedHashTableNode.cs:73 | selecting exactly the occurrences of `e` keeps as many elements as `e` occurs in the input |
| Sequences.SelectNoDuplicates | Rhino.DistributedHashTable/Internal/DistributedHashTableNode.cs:73 | filtering a duplicate-free sequence leaves it duplicate-free |
| Sequences.SelectKeepsAll | Rhino.DistributedHashTable/Internal/DistributedHashTableNode.cs:86 | filtering by a predicate that every element satisfies changes nothing |
| Sequences.OccurrencesWithoutDuplicates | Rhino.DistributedHashTable/Internal/DistributedHashTableNode.cs:73 | in a duplicate-free sequence an element occurs once if present and never otherwise |
| NodeSpec.AssignedTo | Rhino.DistributedHashTable/Internal/DistributedHashTableNode.cs:115 | holds exactly the segments assigned to the endpoint |
| NodeSpec.AssignedElsewhere | Rhino.DistributedHashTable/Internal/DistributedHashTableNode.cs:102-104 | holds exactly the segments assigned to another endpoint |
| NodeSpec.IndexIn | Rhino.DistributedHashTable/Internal/DistributedHashTableNode.cs:86 | holds exactly the segments whose index is listed |
| NodeSpec.IndexNotIn | Rhino.DistributedHashTable/Internal/DistributedHashTableNode.cs:86-93 | holds exactly the segments whose index is not listed |
| NodeSpec.StateAfterJoin | Rhino.DistributedHashTable/Internal/DistributedHashTableNode.cs:116-121 | a joined node is never `NotStarted` |
| NodeSpec.JoinPartition | Rhino.DistributedHashTable/Internal/DistributedHashTableNode.cs:101-115 | the owned and catching-up lists together hold every joined segment exactly as often as the join result, every joined segment is in one of them, and none is in both |
| NodeSpec.JoinIndexDisjoint | Rhino.DistributedHashTable/Internal/DistributedHashTableNode.cs:101-115 | when the master assigns each index once, the owned and catching-up lists share no index |
| NodeSpec.JoinState | Rhino.DistributedHashTable/Internal/DistributedHashTableNode.cs:115-121 | after joining the node is `Started` exactly when a joined segment is assigned to it, so it stays `Starting` when both lists are empty; both lists are empty only when nothing was joined |
| NodeSpec.DoneKeepsSegments | Rhino.DistributedHashTable/Internal/DistributedHashTableNode.cs:86 | moving the caught-up segments loses and duplicates nothing across the two lists and keeps them index-disjoint |
| NodeSpec.DoneIdempotent | Rhino.DistributedHashTable/Internal/DistributedHashTableNode.cs:86 | a second report of the same indices moves nothing: both lists stay as they are |
| NodeSpec.GiveUpRemoves | Rhino.DistributedHashTable/Internal/DistributedHashTableNode.cs:93 | giving up splits the catching-up list into what it keeps and what it drops, keeps every segment with another index, and keeps disjointness from the owned list |
| NodeSpec.Owners | Rhino.DistributedHashTable/Internal/DistributedHashTableNode.cs:105 | the group keys are no more than the segments, and every segment's endpoint is among them |
| NodeSpec.GroupByOwner | Rhino.DistributedHashTable/Internal/DistributedHashTableNode.cs:105 | no more groups than segments; each group's elements are exactly the segments assigned to its key |
| NodeSpec.FanOutSkipping | Rhino.DistributedHashTable/Internal/DistributedHashTableNode.cs:73-80 | a loop that skips the node makes two calls for each candidate that is not the node |
| NodeSpec.OwnersDistinct | Rhino.DistributedHashTable/Internal/DistributedHashTableNode.cs:105 | the group keys are distinct, include every segment's endpoint, and are each some segment's endpoint |
| NodeSpec.GroupByOwnerGroups | Rhino.DistributedHashTable/Internal/DistributedHashTableNode.cs:105 | the groups have distinct keys; each holds exactly its key's segments in order and is not empty; every segment's endpoint has a group |
| NodeSpec.GroupsCoverCatchingUp | Rhino.DistributedHashTable/Internal/DistributedHashTableNode.cs:102-105 | every catching-up segment is in exactly one group, the group of its assigned endpoint, and no group is for the node itself |
| NodeSpec.Registrations | Rhino.DistributedHashTable/Internal/DistributedHashTableNode.cs:105-114 | two calls per group |
| NodeSpec.RegistrationsSnoc | Rhino.DistributedHashTable/Internal/DistributedHashTableNode.cs:105-114 | one more group adds its session creation and then its registration at the end |
| NodeSpec.RegistrationsAt | Rhino.DistributedHashTable/Internal/DistributedHashTableNode.cs:105-114 | call `2k` creates a session for the node's own endpoint and call `2k + 1` registers group `k`'s command |
| NodeSpec.StartCommands | Rhino.DistributedHashTable/Internal/DistributedHashTableNode.cs:105-114 | the `k`-th registered command's source is not the node and differs from every other command's source; it carries exactly that source's catching-up segments, never none; its session is bound to the node's own endpoint |
| NodeSpec.OtherReplicas | Rhino.DistributedHashTable/Internal/DistributedHashTableNode.cs:72-73 | the recipients are exactly the backups and the assigned endpoint other than the node itself, which is never among them |
| NodeSpec.OtherReplicasCount | Rhino.DistributedHashTable/Internal/DistributedHashTableNode.cs:72-73 | with no endpoint listed twice, there are as many distinct recipients as backups plus one, one fewer when the node is a replica |
| NodeSpec.FanOut | Rhino.DistributedHashTable/Internal/DistributedHashTableNode.cs:73-80 | two calls per recipient |
| NodeSpec.FanOutSnoc | Rhino.DistributedHashTable/Internal/DistributedHashTableNode.cs:73-80 | one more recipient adds its serialization and then its send at the end |
| NodeSpec.FanOutSkippingIsFanOut | Rhino.DistributedHashTable/Internal/DistributedHashTableNode.cs:73-80 | a loop over the candidates that skips the node makes the same calls as a fan-out to the candidates with the node filtered out |
| NodeSpec.FanOutAt | Rhino.DistributedHashTable/Internal/DistributedHashTableNode.cs:73-80 | call `2k` serializes the requests and call `2k + 1` sends the payload to the queued address of recipient `k` |
| NodeSpec.FanOutNeverSelf | Rhino.DistributedHashTable/Internal/DistributedHashTableNode.cs:69-81 | every send of the fan-out goes to the queued address of a backup or of the assigned endpoint, never of the node itself, and is preceded by its own serialization |

## Left out

- Collaborator failures: every call into the master, the replication factory, the executer, the serializer and the queue manager is modelled as returning normally. In the source any of them can throw and abort the rest of the method, so the model does not capture these cases:
  - if `master.CaughtUp` throws (line 85), nothing moves and the state is kept;
  - if `master.Join` throws (line 101), the topology has already been replaced (line 100);
  - if one `queueManager.Send` throws (line 75), the loop skips every later recipient.
- Concurrency: the model is a sequence of calls on one object; races between catch-up callbacks and `Start` are not modelled.
- `OnlineSegmentReplicationCommand` and the replication session protocol are not part of this model. A registered command records its source endpoint, its segments and its session, not the back-reference to the node (`this`, line 111).
- Queue delivery, the contents of `MessagePayload` and the serialization format: a send is a logged call, and serialization is a function fixed at construction.
- `Topology`, `Segment`, `NodeEndpoint` and `Guid` are not part of this model beyond what the node reads. A topology is a map from index to segment, `IsOwnedBy` is presence plus ownership, and a version is an opaque value.
- `GetSegment` on a missing index fails in the source; here that is a precondition of `SendToOwner` and `SendToAllOtherBackups`.
- Reading `Topology` before `Start` dereferences null in the source. Here that is a precondition (`topology.Some?`) of `GetTopologyVersion`, `IsSegmentOwned` and the two send methods.
- External writes through the public `State` and `Topology` setters (lines 39, 41) are not modelled: the fields change only through the modelled methods, so a topology swapped in after `Start` is not covered. The `Endpoint` getter (lines 43-46) is a read of `endPoint`, and the `Storage` property (line 96) is a pass-through the node's operations do not use.
- `IList` mutation in place: `MoveTo` and `RemoveAll` become reassignment of the `ranges` and `catchingUp` fields, so aliasing of those lists by other objects is not captured.
- DhtNode.DistributedHashTableNode.Start: its own contract is the lists, calls and state. The partition of the join result and the index disjointness of the two lists are stated on the same functions by `NodeSpec.JoinPartition` and `NodeSpec.JoinIndexDisjoint`. Disjointness by index holds only when the master assigns each index once.
