/**
 * The instance handler: at start-up it claims a node id in the registry
 * (refreshing a stale row or inserting a new one), checks that the id fits
 * the snowflake layout, and keeps the row alive with a heartbeat job.
 */
module InstanceHandler {
  import opened Wrappers
  import opened Bits
  import opened Orm
  import opened Instances
  import opened SnowflakeGenerator

  datatype HandlerError = NodeIdRejected(error: GeneratorError)

  /** The heartbeat job: running, or aborted for good. */
  datatype JobState = Running | Aborted

  class Handler {
    /** The node id, stored as a u16. */
    const instanceId: U16

    constructor WithNodeId(nodeId: I16)
      ensures instanceId == I16AsU16(nodeId)
    {
      instanceId := I16AsU16(nodeId);
    }

    /**
     * `get_instance_id`: the stored u16.  The heartbeat job reads it back as
     * an i16; that reading casts back to the same id, so no information is lost.
     */
    function GetInstanceId(): (id: U16)
      ensures id == instanceId
      ensures I16AsU16(U16AsI16(id)) == id
    {
      instanceId
    }

    /**
     * One run of the repeated heartbeat job for this handler's node (its id
     * read back as an i16).  A missing row or a failed update aborts the
     * process; an aborted job does nothing more.
     */
    method HeartbeatTick(registry: Registry, now: Instant, state: JobState) returns (next: JobState)
      requires registry.Valid()
      modifies registry
      ensures registry.Valid()
      ensures state == Aborted ==> next == Aborted && registry.rows == old(registry.rows)
      ensures state == Running ==>
                (next == Aborted <==> U16AsI16(instanceId) !in NodeIds(old(registry.rows)))
      ensures next == Running ==> registry.rows == Claim(old(registry.rows), U16AsI16(instanceId), now)
      ensures state == Running && next == Aborted ==> registry.rows == old(registry.rows)
    {
      if state == Aborted {
        return Aborted;
      }
      var failed := HeartbeatOnce(registry, U16AsI16(instanceId), now);
      next := if failed then Aborted else Running;
    }
  }

  /**
   * Start-up: allocate a node id and write its row, then validate it.  The
   * row stays written when the validation fails.
   */
  method New(registry: Registry, now: Instant) returns (r: Result<Handler, HandlerError>)
    requires registry.Valid()
    modifies registry
    ensures registry.Valid()
    ensures registry.rows == Claim(old(registry.rows), AllocatedId(old(registry.rows), now), now)
    ensures r.Ok? <==> AllocatedId(old(registry.rows), now) <= MAX_NODE_ID
    ensures r.Ok? ==> fresh(r.value) && r.value.GetInstanceId() == AllocatedId(old(registry.rows), now)
    ensures r.Err? ==> r.error == NodeIdRejected(NodeIdTooLarge)
  {
    var created := registry.GetNodeIdAndCreateNewInstance(now);
    var nodeId := created.value.nodeId;
    var validated := ValidateNodeId(nodeId);
    if validated.Err? {
      return Err(NodeIdRejected(validated.error));
    }
    var handler := new Handler.WithNodeId(nodeId as I16);
    r := Ok(handler);
  }

  /**
   * With nodes 0 .. n-1 holding fresh rows, a start-up claims node n, and it
   * succeeds exactly while n fits in ten bits: MAX_NODE_ID + 1 rows fill the
   * registry and the next start-up fails, leaving MAX_NODE_ID + 2 rows.
   */
  lemma StartOutcome(rows: seq<Instance>, n: nat, now: Instant)
    requires KeyedByNodeId(rows)
    requires NodeIds(rows) == RangeSet(n)
    requires forall r :: r in rows ==> IsActive(r, now)
    ensures AllocatedId(rows, now) == n
    ensures ValidateNodeId(AllocatedId(rows, now)).Ok? <==> n <= MAX_NODE_ID
    ensures |Claim(rows, n, now)| == n + 1
  {
    ConsecutiveAllocation(rows, n, now);
    CountDistinct(rows);
  }
}
