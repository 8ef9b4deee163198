/** The Gets a server holds back, filed under the minimum clock that releases them. */
module PendingBuffer {
  import opened Requests

  type Pending = map<nat, seq<GetReq>>

  function Filed(p: Pending, clock: nat): seq<GetReq>
  {
    if clock in p then p[clock] else []
  }

  function Push(p: Pending, clock: nat, req: GetReq): Pending
  {
    p[clock := Filed(p, clock) + [req]]
  }

  /** The requests filed under clock, and the buffer without them. */
  function Pop(p: Pending, clock: nat): (seq<GetReq>, Pending)
  {
    (Filed(p, clock), p - {clock})
  }

  class PendingBuffer {
    var buffer: Pending

    constructor ()
      ensures buffer == map[]
    {
      buffer := map[];
    }

    method PopAt(clock: nat) returns (popped: seq<GetReq>)
      modifies this
      ensures (popped, buffer) == Pop(old(buffer), clock)
    {
      popped := [];
      if clock in buffer {
        popped := buffer[clock];
        buffer := buffer - {clock};
      } else {
        assert buffer - {clock} == buffer;
      }
    }

    /** The subscript operator files an empty list first when there is none. */
    method PushAt(clock: nat, req: GetReq)
      modifies this
      ensures buffer == Push(old(buffer), clock, req)
    {
      if clock !in buffer {
        buffer := buffer[clock := []];
      }
      buffer := buffer[clock := buffer[clock] + [req]];
    }
  }
}
