/** The distributed hash table node: its segment-ownership state machine and
    its routing helpers. The master, the executer, the replication factory,
    the serializer and the queue manager are not objects here: every call the
    node makes into them is appended to the ghost `trace`, the answers of the
    master are parameters of `Start`, and the serializer is the function
    `serialize` fixed at construction. */
module DhtNode {
  import opened Types
  import opened Sequences
  import opened NodeSpec

  class DistributedHashTableNode {
    /** This node's own endpoint. */
    const endPoint: Endpoint
    /** What `messageSerializer.Serialize` computes from a batch of requests. */
    const serialize: seq<Request> -> seq<bv8>

    /** The segments this node owns. */
    var ranges: seq<Segment>
    /** The segments this node is catching up on (`rangesThatWeAreCatchingUpOn`). */
    var catchingUp: seq<Segment>
    var state: NodeState
    /** The topology last fetched from the master; absent before `Start`. */
    var topology: Option<Topology>
    /** Every call made into a collaborator, in order. */
    ghost var trace: seq<Call>

    constructor (endPoint: Endpoint, serialize: seq<Request> -> seq<bv8>)
      ensures this.endPoint == endPoint && this.serialize == serialize
      ensures state == NotStarted
      ensures ranges == [] && catchingUp == [] && topology == None
      ensures trace == []
    {
      this.endPoint := endPoint;
      this.serialize := serialize;
      ranges := [];
      catchingUp := [];
      topology := None;
      state := NotStarted;
      trace := [];
    }

    method GetTopologyVersion() returns (version: Guid)
      requires topology.Some?
      ensures version == topology.value.version
    {
      version := topology.value.version;
    }

    method IsSegmentOwned(range: int) returns (owned: bool)
      requires topology.Some?
      ensures owned <==> range in topology.value.segments
                         && topology.value.segments[range].assignedEndpoint == endPoint
    {
      owned := topology.value.IsOwnedBy(endPoint, range);
    }

    /** Serializes `requests` and queues them for the owner of segment `range`. */
    method SendToOwner(range: int, requests: seq<Request>)
      requires topology.Some? && range in topology.value.segments
      modifies this`trace
      ensures trace == old(trace) + [Serialize(requests),
        Send(topology.value.segments[range].assignedEndpoint.async, MessagePayload(serialize(requests)))]
    {
      var ownerSegment := topology.value.GetSegment(range);
      var address := ownerSegment.assignedEndpoint.async;
      trace := trace + [Serialize(requests)];
      var payload := MessagePayload(serialize(requests));
      trace := trace + [Send(address, payload)];
    }

    /** Queues `requests` for every backup of segment `range` and then for its
        owner, skipping this node; the requests are serialized once per send. */
    method SendToAllOtherBackups(range: int, requests: seq<Request>)
      requires topology.Some? && range in topology.value.segments
      modifies this`trace
      ensures trace == old(trace)
        + FanOut(OtherReplicas(topology.value.segments[range], endPoint), requests, serialize(requests))
    {
      var ownerSegment := topology.value.GetSegment(range);
      var candidates := ownerSegment.backups + [ownerSegment.assignedEndpoint];
      var i := 0;
      while i < |candidates|
        invariant 0 <= i <= |candidates|
        invariant trace == old(trace) + FanOutSkipping(candidates[..i], endPoint, requests, serialize(requests))
      {
        assert candidates[..i + 1][..i] == candidates[..i];
        if candidates[i] != endPoint {
          trace := trace + [Serialize(requests)];
          var payload := MessagePayload(serialize(requests));
          trace := trace + [Send(candidates[i].async, payload)];
        }
        i := i + 1;
      }
      assert candidates[..i] == candidates;
      FanOutSkippingIsFanOut(candidates, endPoint, requests, serialize(requests));
    }

    /** A replication command reports that the segments `replicatedSegments`
        are caught up: tell the master, move them from the catching-up list
        to the owned list, and consider the node started. */
    method DoneReplicatingSegments(replicatedSegments: seq<int>)
      modifies this`trace, this`ranges, this`catchingUp, this`state
      ensures trace == old(trace) + [CaughtUp(endPoint, replicatedSegments)]
      ensures ranges == old(ranges) + IndexIn(old(catchingUp), replicatedSegments)
      ensures catchingUp == IndexNotIn(old(catchingUp), replicatedSegments)
      ensures state == Started
      ensures multiset(ranges) + multiset(catchingUp) == multiset(old(ranges)) + multiset(old(catchingUp))
      ensures IndexDisjoint(old(ranges), old(catchingUp)) ==> IndexDisjoint(ranges, catchingUp)
    {
      trace := trace + [CaughtUp(endPoint, replicatedSegments)];
      DoneKeepsSegments(ranges, catchingUp, replicatedSegments);
      // Util.MoveTo: remove the matching segments, append them in order.
      ranges := ranges + IndexIn(catchingUp, replicatedSegments);
      catchingUp := IndexNotIn(catchingUp, replicatedSegments);
      state := Started;
    }

    /** A replication command gives up on `rangesGivingUpOn`: tell the master
        and drop those segments from the catching-up list. */
    method GivingUpOn(rangesGivingUpOn: seq<int>)
      modifies this`trace, this`catchingUp
      ensures trace == old(trace) + [GaveUp(endPoint, rangesGivingUpOn)]
      ensures catchingUp == IndexNotIn(old(catchingUp), rangesGivingUpOn)
      ensures multiset(catchingUp) <= multiset(old(catchingUp))
      ensures IndexDisjoint(ranges, old(catchingUp)) ==> IndexDisjoint(ranges, catchingUp)
      ensures ranges == old(ranges) && state == old(state)
    {
      trace := trace + [GaveUp(endPoint, rangesGivingUpOn)];
      GiveUpRemoves(ranges, catchingUp, rangesGivingUpOn);
      catchingUp := IndexNotIn(catchingUp, rangesGivingUpOn);
    }

    /** The `foreach` of `Start`: for each group of catching-up segments,
        create a replication session for this node's own endpoint and register
        a command for the group's endpoint and segments with the executer. */
    method RegisterReplications(groups: seq<Grouping>)
      modifies this`trace
      ensures trace == old(trace) + Registrations(groups, endPoint)
    {
      var i := 0;
      while i < |groups|
        invariant 0 <= i <= |groups|
        invariant trace == old(trace) + Registrations(groups[..i], endPoint)
      {
        assert groups[..i + 1] == groups[..i] + [groups[i]];
        RegistrationsSnoc(groups[..i], groups[i], endPoint);
        var session := ReplicationSession(endPoint);
        trace := trace + [CreateSession(endPoint)];
        var command := ReplicationCommand(groups[i].key, groups[i].elements, session);
        trace := trace + [RegisterForExecution(command)];
        i := i + 1;
      }
      assert groups[..i] == groups;
    }

    /** Joins the cluster. `current` is what `master.GetTopology()` returns and
        `joined` what `master.Join(endPoint)` returns. */
    method Start(current: Topology, joined: seq<Segment>)
      modifies this`trace, this`ranges, this`catchingUp, this`state, this`topology
      ensures topology == Some(current)
      ensures catchingUp == AssignedElsewhere(joined, endPoint)
      ensures ranges == AssignedTo(joined, endPoint)
      ensures trace == old(trace) + [GetTopology, Join(endPoint)]
        + Registrations(GroupByOwner(catchingUp), endPoint)
      ensures state == StateAfterJoin(ranges)
    {
      topology := Some(current);
      trace := trace + [GetTopology, Join(endPoint)];
      var catching := AssignedElsewhere(joined, endPoint);
      catchingUp := catching;
      RegisterReplications(GroupByOwner(catching));
      var owned := AssignedTo(joined, endPoint);
      ranges := owned;
      state := if |owned| > 0 then Started else Starting;
    }
  }
}
