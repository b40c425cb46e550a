/**
 * The instance registry: one record per running process, keyed by its node
 * id, refreshed by a heartbeat.  Node-id allocation picks the smallest id
 * not held by a record whose heartbeat is recent, then refreshes that id's
 * record or inserts a new one.  The database table is the map `records`;
 * the exclusive row lock of the allocating transaction is the atomicity of
 * the allocating method.
 */
module Instances {
  import opened Wrappers
  import opened Orm
  import Heartbeat

  /** A row of the instances table. */
  datatype Instance = Instance(nodeId: int, lastHeartbeat: Instant, createdAt: Instant, updatedAt: Instant)

  /** The same row as an active model, column by column. */
  datatype InstanceActiveModel = InstanceActiveModel(
    nodeId: ActiveValue<int>,
    lastHeartbeat: ActiveValue<Instant>,
    createdAt: ActiveValue<Instant>,
    updatedAt: ActiveValue<Instant>)

  datatype ModelError = EntityNotFound | RecordNotUpdated | DuplicateKey

  function IntoActiveModel(m: Instance): InstanceActiveModel {
    InstanceActiveModel(Unchanged(m.nodeId), Unchanged(m.lastHeartbeat), Unchanged(m.createdAt), Unchanged(m.updatedAt))
  }

  /**
   * The save hook: on an update whose `updated_at` was left untouched, stamp
   * it with now.  Inserts and updates that set it themselves pass through.
   */
  function BeforeSave(am: InstanceActiveModel, insert: bool, now: Instant): (r: InstanceActiveModel)
    ensures insert ==> r == am
    ensures !insert && am.updatedAt.IsUnchanged() ==> r == am.(updatedAt := Set(now))
    ensures !insert && !am.updatedAt.IsUnchanged() ==> r == am
  {
    if !insert && am.updatedAt.IsUnchanged() then am.(updatedAt := Set(now)) else am
  }

  function ApplyUpdate(row: Instance, am: InstanceActiveModel): Instance {
    Instance(Written(am.nodeId, row.nodeId), Written(am.lastHeartbeat, row.lastHeartbeat),
             Written(am.createdAt, row.createdAt), Written(am.updatedAt, row.updatedAt))
  }

  /** chrono's `Duration::num_seconds` for a duration in milliseconds: truncation toward zero. */
  function NumSeconds(millis: int): int {
    if millis >= 0 then millis / 1000 else -((-millis) / 1000)
  }

  /** The filter of the allocating query: the heartbeat is younger than the tolerance, in whole seconds. */
  predicate IsActive(inst: Instance, now: Instant) {
    NumSeconds(now - inst.lastHeartbeat) < Heartbeat.INSTANCE_HEARTBEAT_TOLERANCE_SECONDS as int
  }

  /** Whole-second truncation makes "active" the same as "heartbeat less than 30 000 ms old". */
  lemma IsActiveWithinTolerance(inst: Instance, now: Instant)
    ensures IsActive(inst, now) <==> now - inst.lastHeartbeat < 30_000
  {
  }

  /** The node ids of the given rows. */
  function NodeIds(rows: seq<Instance>): (s: set<int>)
    ensures forall r :: r in rows ==> r.nodeId in s
    ensures forall id :: id in s ==> exists r :: r in rows && r.nodeId == id
  {
    set r | r in rows :: r.nodeId
  }

  /** The node ids of the rows whose heartbeat is recent at `now`. */
  function ActiveIds(rows: seq<Instance>, now: Instant): (s: set<int>)
    ensures forall r :: r in rows && IsActive(r, now) ==> r.nodeId in s
    ensures forall id :: id in s ==> exists r :: r in rows && IsActive(r, now) && r.nodeId == id
  {
    set r | r in rows && IsActive(r, now) :: r.nodeId
  }

  /** The integers 0 .. n-1 as a set. */
  function RangeSet(n: nat): (s: set<int>)
    ensures |s| == n
    ensures forall k :: k in s <==> 0 <= k < n
  {
    if n == 0 then {} else RangeSet(n - 1) + {n - 1}
  }

  /** If all of 0 .. n-1 belong to s, then s has at least n elements. */
  lemma Pigeonhole(s: set<int>, n: nat)
    requires forall k :: 0 <= k < n ==> k in s
    ensures n <= |s|
  {
    var r := RangeSet(n);
    assert r <= s;
    SubsetCardinality(r, s);
  }

  lemma SubsetCardinality(a: set<int>, b: set<int>)
    requires a <= b
    ensures |a| <= |b|
  {
    assert b == a + (b - a);
    assert a * (b - a) == {};
  }

  lemma {:induction false} SeqSetCardinality(q: seq<int>)
    ensures |set x | x in q| <= |q|
  {
    if q != [] {
      SeqSetCardinality(q[1..]);
      assert (set x | x in q) == (set x | x in q[1..]) + {q[0]};
    }
  }

  /** The least natural number from i on that is missing from s, given that all below i are present. */
  function SmallestAvailableFrom(s: set<int>, i: nat): (n: nat)
    requires forall k :: 0 <= k < i ==> k in s
    ensures i <= n && n !in s
    ensures forall k :: 0 <= k < n ==> k in s
    decreases |s| - i
  {
    Pigeonhole(s, i);
    if i !in s then i else Pigeonhole(s, i + 1); SmallestAvailableFrom(s, i + 1)
  }

  /** The least natural number missing from s: the reference for the allocation loop. */
  function SmallestAvailable(s: set<int>): (n: nat)
    ensures n !in s && forall k :: 0 <= k < n ==> k in s
    ensures n <= |s|
  {
    var n := SmallestAvailableFrom(s, 0);
    Pigeonhole(s, n);
    n
  }

  /** Being missing from s while all smaller naturals are present determines the number. */
  lemma SmallestAvailableUnique(s: set<int>, n: nat)
    requires n !in s && forall k :: 0 <= k < n ==> k in s
    ensures SmallestAvailable(s) == n
  {
    var m := SmallestAvailable(s);
    assert m < n ==> m in s;
    assert n < m ==> n in s;
  }

  /**
   * The first integer from 0 upward that is not an active id.  The loop
   * always returns: every id it passes is active, so it cannot pass more ids
   * than there are active ones, and the statement after it is never reached.
   */
  method FindSmallestAvailableNumber(allNodeIds: seq<int>, activeNodeIds: seq<int>) returns (r: int)
    ensures r >= 0 && r !in activeNodeIds
    ensures forall k :: 0 <= k < r ==> k in activeNodeIds
    ensures r <= |activeNodeIds|
    ensures r == SmallestAvailable(set id | id in activeNodeIds)
  {
    var activeSet := set id | id in activeNodeIds;
    assert forall k :: k in activeSet <==> k in activeNodeIds;
    SeqSetCardinality(activeNodeIds);
    var i: nat := 0;
    while true
      invariant forall k :: 0 <= k < i ==> k in activeSet
      invariant i <= |activeSet|
      decreases |activeSet| - i
    {
      if i !in activeSet {
        SmallestAvailableUnique(activeSet, i);
        return i;
      }
      Pigeonhole(activeSet, i + 1);
      i := i + 1;
    }
    r := |allNodeIds|;
  }

  /** The primary key: no two rows share a node id. */
  ghost predicate KeyedByNodeId(rows: seq<Instance>) {
    forall i, j :: 0 <= i < j < |rows| ==> rows[i].nodeId != rows[j].nodeId
  }

  /** Where the row with the given node id is stored, if anywhere. */
  function IndexOf(rows: seq<Instance>, nodeId: int): (r: Option<nat>)
    ensures r.Some? ==> r.value < |rows| && rows[r.value].nodeId == nodeId
    ensures r.None? <==> nodeId !in NodeIds(rows)
  {
    if rows == [] then None
    else if rows[|rows| - 1].nodeId == nodeId then Some(|rows| - 1)
    else
      var r := IndexOf(rows[..|rows| - 1], nodeId);
      assert rows == rows[..|rows| - 1] + [rows[|rows| - 1]];
      r
  }

  /** The row an allocation leaves for `id`: the stored one with a fresh heartbeat, or a new one. */
  function Claimed(rows: seq<Instance>, id: int, now: Instant): (inst: Instance)
    ensures inst.lastHeartbeat == now && inst.updatedAt == now
    ensures IndexOf(rows, id).Some? ==> inst == rows[IndexOf(rows, id).value].(lastHeartbeat := now, updatedAt := now)
    ensures IndexOf(rows, id).None? ==> inst == Instance(id, now, now, now)
  {
    match IndexOf(rows, id)
    case Some(i) => rows[i].(lastHeartbeat := now, updatedAt := now)
    case None => Instance(id, now, now, now)
  }

  /** The table after the row for `id` is claimed at `now`: refreshed in place, or appended. */
  function Claim(rows: seq<Instance>, id: int, now: Instant): seq<Instance> {
    match IndexOf(rows, id)
    case Some(i) => rows[i := Claimed(rows, id, now)]
    case None => rows + [Claimed(rows, id, now)]
  }

  /** The id an allocation at `now` picks: the least one no active row holds. */
  function AllocatedId(rows: seq<Instance>, now: Instant): (id: nat)
    ensures id !in ActiveIds(rows, now)
    ensures forall k :: 0 <= k < id ==> k in ActiveIds(rows, now)
  {
    SmallestAvailable(ActiveIds(rows, now))
  }

  class Registry {
    /** The instances table, in storage order. */
    var rows: seq<Instance>

    ghost predicate Valid()
      reads this
    {
      KeyedByNodeId(rows)
    }

    constructor ()
      ensures Valid() && rows == []
    {
      rows := [];
    }

    function FindByNodeId(nodeId: int): (r: Result<Instance, ModelError>)
      reads this
      ensures r.Ok? <==> nodeId in NodeIds(rows)
      ensures r.Ok? ==> r.value in rows && r.value.nodeId == nodeId
      ensures r.Err? ==> r.error == EntityNotFound
    {
      match IndexOf(rows, nodeId)
      case Some(i) => Ok(rows[i])
      case None => Err(EntityNotFound)
    }

    function CountInstances(): (n: nat)
      reads this
      ensures Valid() ==> n == |NodeIds(rows)|
    {
      CountDistinct(rows);
      |rows|
    }

    /** Insert a row for `nodeId` with every timestamp set to now; the primary key must be free. */
    method CreateNewInstance(nodeId: int, now: Instant) returns (r: Result<Instance, ModelError>)
      requires Valid()
      modifies this
      ensures Valid()
      ensures nodeId in NodeIds(old(rows)) ==> r == Err(DuplicateKey) && rows == old(rows)
      ensures nodeId !in NodeIds(old(rows)) ==>
                r == Ok(Instance(nodeId, now, now, now)) && rows == old(rows) + [r.value]
    {
      var am := InstanceActiveModel(Set(nodeId), Set(now), Set(now), Set(now));
      am := BeforeSave(am, true, now);
      if IndexOf(rows, nodeId).Some? {
        return Err(DuplicateKey);
      }
      var row := Instance(am.nodeId.value, am.lastHeartbeat.value, am.createdAt.value, am.updatedAt.value);
      rows := rows + [row];
      r := Ok(row);
    }

    /** Write now into `last_heartbeat` of the stored row; the save hook stamps `updated_at`. */
    method UpdateHeartbeat(inst: Instance, now: Instant) returns (r: Result<Instance, ModelError>)
      requires Valid()
      modifies this
      ensures Valid()
      ensures IndexOf(old(rows), inst.nodeId).None? ==> r == Err(RecordNotUpdated) && rows == old(rows)
      ensures IndexOf(old(rows), inst.nodeId).Some? ==>
                var i := IndexOf(old(rows), inst.nodeId).value;
                && r == Ok(old(rows)[i].(lastHeartbeat := now, updatedAt := now))
                && rows == old(rows)[i := r.value]
    {
      var am := IntoActiveModel(inst).(lastHeartbeat := Set(now));
      am := BeforeSave(am, false, now);
      match IndexOf(rows, inst.nodeId)
      case None =>
        r := Err(RecordNotUpdated);
      case Some(i) =>
        var row := ApplyUpdate(rows[i], am);
        rows := rows[i := row];
        r := Ok(row);
    }

    /** Refresh the row for `nodeId` if there is one, otherwise insert it. */
    method CreateOrUpdateInstance(nodeId: int, now: Instant) returns (r: Result<Instance, ModelError>)
      requires Valid()
      modifies this
      ensures Valid()
      ensures r == Ok(Claimed(old(rows), nodeId, now))
      ensures rows == Claim(old(rows), nodeId, now)
    {
      var found := FindByNodeId(nodeId);
      if found.Ok? {
        r := UpdateHeartbeat(found.value, now);
      } else {
        r := CreateNewInstance(nodeId, now);
      }
    }

    /** The node ids of all rows and of the active rows, as the locked query lists them. */
    method CollectNodeIds(now: Instant) returns (all: seq<int>, active: seq<int>)
      ensures (set x | x in all) == NodeIds(rows)
      ensures (set x | x in active) == ActiveIds(rows, now)
    {
      all, active := [], [];
      for i := 0 to |rows|
        invariant (set x | x in all) == NodeIds(rows[..i])
        invariant (set x | x in active) == ActiveIds(rows[..i], now)
      {
        assert rows[..i + 1] == rows[..i] + [rows[i]];
        assert (set x | x in all + [rows[i].nodeId]) == (set x | x in all) + {rows[i].nodeId};
        all := all + [rows[i].nodeId];
        if IsActive(rows[i], now) {
          assert (set x | x in active + [rows[i].nodeId]) == (set x | x in active) + {rows[i].nodeId};
          active := active + [rows[i].nodeId];
        }
      }
      assert rows[..|rows|] == rows;
    }

    /**
     * Allocation at process start, in one transaction over the locked table:
     * the smallest id without an active row is claimed, by refreshing its
     * stale row or inserting a new one.
     */
    method GetNodeIdAndCreateNewInstance(now: Instant) returns (r: Result<Instance, ModelError>)
      requires Valid()
      modifies this
      ensures Valid()
      ensures r == Ok(Claimed(old(rows), AllocatedId(old(rows), now), now))
      ensures rows == Claim(old(rows), AllocatedId(old(rows), now), now)
    {
      var all, active := CollectNodeIds(now);
      var next := FindSmallestAvailableNumber(all, active);
      SmallestAvailableUnique(ActiveIds(rows, now), next);
      r := CreateOrUpdateInstance(next, now);
    }
  }

  /** With distinct node ids, there are as many ids as rows. */
  lemma {:induction false} CountDistinct(rows: seq<Instance>)
    ensures KeyedByNodeId(rows) ==> |NodeIds(rows)| == |rows|
  {
    if rows != [] && KeyedByNodeId(rows) {
      var front := rows[..|rows| - 1];
      CountDistinct(front);
      assert rows == front + [rows[|rows| - 1]];
      assert NodeIds(rows) == NodeIds(front) + {rows[|rows| - 1].nodeId};
    }
  }

  /**
   * The body of a heartbeat job: look up the row of `nodeId` and refresh its
   * heartbeat.  `failed` reports a missing row or a failed update, on which
   * the calling job ends the process.
   */
  method HeartbeatOnce(registry: Registry, nodeId: int, now: Instant) returns (failed: bool)
    requires registry.Valid()
    modifies registry
    ensures registry.Valid()
    ensures failed <==> nodeId !in NodeIds(old(registry.rows))
    ensures failed ==> registry.rows == old(registry.rows)
    ensures !failed ==> registry.rows == Claim(old(registry.rows), nodeId, now)
  {
    var found := registry.FindByNodeId(nodeId);
    if found.Err? {
      return true;
    }
    var updated := registry.UpdateHeartbeat(found.value, now);
    failed := updated.Err?;
  }

  /** The smallest-available search on the cases its unit tests list. */
  lemma SmallestAvailableExamples()
    ensures SmallestAvailable({0, 1, 2, 4, 5, 6, 7}) == 3
    ensures SmallestAvailable({0, 1, 2, 3, 4, 5, 6, 7}) == 8
    ensures SmallestAvailable({2, 3, 4, 5, 6, 7}) == 0
    ensures SmallestAvailable({9}) == 0
    ensures SmallestAvailable({}) == 0
  {
    SmallestAvailableUnique({0, 1, 2, 4, 5, 6, 7}, 3);
    SmallestAvailableUnique({0, 1, 2, 3, 4, 5, 6, 7}, 8);
    SmallestAvailableUnique({2, 3, 4, 5, 6, 7}, 0);
    SmallestAvailableUnique({9}, 0);
    SmallestAvailableUnique({}, 0);
  }

  /**
   * A claim keeps the primary key, leaves every row of another id as it was,
   * and leaves the claimed id with exactly one row, the claimed one.
   */
  lemma ClaimKeepsOtherRows(rows: seq<Instance>, id: int, now: Instant)
    requires KeyedByNodeId(rows)
    ensures KeyedByNodeId(Claim(rows, id, now))
    ensures forall r :: r in rows && r.nodeId != id ==> r in Claim(rows, id, now)
    ensures forall r :: r in Claim(rows, id, now) && r.nodeId != id ==> r in rows
    ensures Claimed(rows, id, now) in Claim(rows, id, now)
    ensures NodeIds(Claim(rows, id, now)) == NodeIds(rows) + {id}
  {
    var after := Claim(rows, id, now);
    match IndexOf(rows, id)
    case Some(i) =>
      assert after == rows[i := Claimed(rows, id, now)];
      forall r | r in rows && r.nodeId != id
        ensures r in after
      {
        var j :| 0 <= j < |rows| && rows[j] == r;
        assert after[j] == r;
      }
      forall r | r in after && r.nodeId != id
        ensures r in rows
      {
        var j :| 0 <= j < |after| && after[j] == r;
        assert rows[j] == r;
      }
      assert after[i] == Claimed(rows, id, now);
    case None =>
      assert after == rows + [Claimed(rows, id, now)];
      assert after[|rows|] == Claimed(rows, id, now);
  }

  /**
   * When nodes 0 .. n-1 all hold fresh heartbeats, an allocation hands out
   * n by appending a new row, after which 0 .. n are held and fresh: from an
   * empty table, successive allocations give 0, 1, 2, ...
   */
  lemma AllActive(rows: seq<Instance>, now: Instant)
    requires forall r :: r in rows ==> IsActive(r, now)
    ensures ActiveIds(rows, now) == NodeIds(rows)
  {
    forall id | id in NodeIds(rows) ensures id in ActiveIds(rows, now) {
      var r :| r in rows && r.nodeId == id;
    }
  }

  lemma NodeIdsAppend(rows: seq<Instance>, added: Instance)
    ensures NodeIds(rows + [added]) == NodeIds(rows) + {added.nodeId}
  {
    forall id | id in NodeIds(rows + [added]) ensures id in NodeIds(rows) + {added.nodeId} {
      var r :| r in rows + [added] && r.nodeId == id;
    }
  }

  lemma ConsecutiveAllocation(rows: seq<Instance>, n: nat, now: Instant)
    requires KeyedByNodeId(rows)
    requires NodeIds(rows) == RangeSet(n)
    requires forall r :: r in rows ==> IsActive(r, now)
    ensures AllocatedId(rows, now) == n
    ensures Claim(rows, n, now) == rows + [Instance(n, now, now, now)]
    ensures NodeIds(Claim(rows, n, now)) == RangeSet(n + 1)
    ensures forall r :: r in Claim(rows, n, now) ==> IsActive(r, now)
  {
    AllActive(rows, now);
    SmallestAvailableUnique(ActiveIds(rows, now), n);
    var added := Instance(n, now, now, now);
    assert Claim(rows, n, now) == rows + [added];
    NodeIdsAppend(rows, added);
    assert RangeSet(n + 1) == RangeSet(n) + {n};
    assert IsActive(added, now);
  }
}
