/** The values the node works with: endpoints, segments, topologies and the
    node's lifecycle state. `NodeEndpoint`, `Segment` and `Topology` are
    defined outside the modelled file; only what the node reads of them is
    kept here. */
module Types {

  datatype Option<T> = None | Some(value: T)

  /** A node's identity: one address for synchronous request/response
      traffic, one for queued (fire-and-forget) traffic. Compared by value. */
  datatype Endpoint = Endpoint(sync: string, async: string)

  /** One partition of the keyspace: its index, the endpoint currently
      assigned to own it, and the endpoints holding backups of it. */
  datatype Segment = Segment(index: int, assignedEndpoint: Endpoint, backups: seq<Endpoint>)

  /** The topology's version identifier; opaque to the node. */
  datatype Guid = Guid(value: nat)

  /** A snapshot of the segment assignment, keyed by segment index. */
  datatype Topology = Topology(version: Guid, segments: map<int, Segment>)
  {
    /** Whether the segment at `index` exists and is assigned to `endpoint`. */
    predicate IsOwnedBy(endpoint: Endpoint, index: int)
    {
      index in segments && segments[index].assignedEndpoint == endpoint
    }

    /** The segment at `index`; looking up a missing index is an error of the
        caller. */
    function GetSegment(index: int): (s: Segment)
      requires index in segments
      ensures s in segments.Values
    {
      segments[index]
    }
  }

  datatype NodeState = NotStarted | Starting | Started
}
