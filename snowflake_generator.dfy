/**
 * The snowflake id generator.  An id packs, from the high bits down, the
 * milliseconds since the snowflake epoch, the 10-bit node id of the process
 * and a 12-bit sequence number that counts ids minted within one
 * millisecond.  When the sequence wraps within a millisecond, the generator
 * spins on the clock until the reading changes.
 *
 * The clock is an input: `clock` lists the values successive readings of
 * the (already epoch-relative) millisecond clock return, and a call reports
 * how many of them it consumed.
 */
module SnowflakeGenerator {
  import opened Wrappers
  import opened Bits
  import opened Orm
  import opened Instances

  const SNOWFLAKE_EPOCH: int := 1_705_247_483_000
  const NODE_ID_BITS: nat := 10
  const SEQUENCE_BITS: nat := 12
  const TIMESTAMP_SHIFT: nat := NODE_ID_BITS + SEQUENCE_BITS
  const MAX_NODE_ID: nat := 0x3FF
  const MAX_SEQUENCE: nat := 0xFFF
  const SNOWFLAKE_HEARTBEAT_INTERVAL_SECONDS: nat := 10

  /** Timestamps below 2^41 leave bit 63 clear, so the id is non-negative. */
  const TIMESTAMP_LIMIT: nat := 0x200_0000_0000

  datatype GeneratorError = NodeIdTooLarge | InvalidSystemClock

  /** The limits are the all-ones values of their bit widths, and the three fields tile the low 22 bits. */
  lemma LayoutConstants()
    ensures TIMESTAMP_SHIFT == 22
    ensures MAX_NODE_ID == Pow2(NODE_ID_BITS) - 1 && MAX_SEQUENCE == Pow2(SEQUENCE_BITS) - 1
    ensures Pow2(TIMESTAMP_SHIFT) == (MAX_NODE_ID + 1) * (MAX_SEQUENCE + 1)
    ensures Pow2(TIMESTAMP_SHIFT) * TIMESTAMP_LIMIT == 0x8000_0000_0000_0000
  {
    Pow2Values();
  }

  lemma PackLayout(ts: U64, node: U64, sequence: U64)
    ensures ts < 0x400_0000_0000 && node <= MAX_NODE_ID && sequence <= MAX_SEQUENCE ==>
              BitOr(BitOr(Shl64(ts, TIMESTAMP_SHIFT), Shl64(node, SEQUENCE_BITS)), sequence)
              == ts * 0x40_0000 + node * 0x1000 + sequence
  {
    if ts < 0x400_0000_0000 && node <= MAX_NODE_ID && sequence <= MAX_SEQUENCE {
      Pow2Values();
      assert Shl64(ts, TIMESTAMP_SHIFT) == ts * Pow2(22);
      assert Shl64(node, SEQUENCE_BITS) == node * Pow2(12);
      BitOrLowBits(ts, node * 0x1000, 22);
      assert ts * 0x40_0000 + node * 0x1000 == (ts * 0x400 + node) * Pow2(12);
      BitOrLowBits(ts * 0x400 + node, sequence, 12);
    }
  }

  /** The id's bit pattern, `(ts << 22) | (node << 12) | sequence` on u64. */
  function Pack(ts: U64, node: U64, sequence: U64): (r: U64)
    ensures ts < 0x400_0000_0000 && node <= MAX_NODE_ID && sequence <= MAX_SEQUENCE ==>
              r == ts * 0x40_0000 + node * 0x1000 + sequence
  {
    Pow2Values();
    var high := Shl64(ts, TIMESTAMP_SHIFT);
    var middle := Shl64(node, SEQUENCE_BITS);
    BitOrBound(high, middle, 64);
    BitOrBound(BitOr(high, middle), sequence, 64);
    PackLayout(ts, node, sequence);
    BitOr(BitOr(high, middle), sequence)
  }

  /** The id as the signed 64-bit value handed out. */
  function Compose(ts: U64, node: U64, sequence: U64): I64 {
    AsI64(Pack(ts, node, sequence))
  }

  predicate FieldsFit(ts: U64, node: U64, sequence: U64) {
    ts < TIMESTAMP_LIMIT && node <= MAX_NODE_ID && sequence <= MAX_SEQUENCE
  }

  /** An id whose fields fit is non-negative and its fields can be read back from it. */
  lemma IdLayout(ts: U64, node: U64, sequence: U64)
    requires FieldsFit(ts, node, sequence)
    ensures Compose(ts, node, sequence) == ts * 0x40_0000 + node * 0x1000 + sequence
    ensures Compose(ts, node, sequence) >= 0
    ensures Compose(ts, node, sequence) / 0x40_0000 == ts
    ensures (Compose(ts, node, sequence) / 0x1000) % 0x400 == node
    ensures Compose(ts, node, sequence) % 0x1000 == sequence
  {
    var v := ts * 0x40_0000 + node * 0x1000 + sequence;
    assert v < 0x8000_0000_0000_0000;
    assert Compose(ts, node, sequence) == v;
    DivModUnique(v, ts, 0x40_0000, node * 0x1000 + sequence);
    DivModUnique(v, ts * 0x400 + node, 0x1000, sequence);
    DivModUnique(ts * 0x400 + node, ts, 0x400, node);
  }

  /** Ids are unique: two ids with fitting fields are equal only when all their fields are. */
  lemma IdsInjective(ts1: U64, node1: U64, seq1: U64, ts2: U64, node2: U64, seq2: U64)
    requires FieldsFit(ts1, node1, seq1) && FieldsFit(ts2, node2, seq2)
    ensures Compose(ts1, node1, seq1) == Compose(ts2, node2, seq2) <==> ts1 == ts2 && node1 == node2 && seq1 == seq2
  {
    IdLayout(ts1, node1, seq1);
    IdLayout(ts2, node2, seq2);
  }

  /** On one node, ids are ordered by timestamp and then by sequence. */
  lemma IdsOrdered(node: U64, ts1: U64, seq1: U64, ts2: U64, seq2: U64)
    requires FieldsFit(ts1, node, seq1) && FieldsFit(ts2, node, seq2)
    requires ts1 < ts2 || (ts1 == ts2 && seq1 < seq2)
    ensures Compose(ts1, node, seq1) < Compose(ts2, node, seq2)
  {
    IdLayout(ts1, node, seq1);
    IdLayout(ts2, node, seq2);
    if ts1 < ts2 {
      assert ts2 * 0x40_0000 >= (ts1 + 1) * 0x40_0000;
    }
  }

  /** The generator's mutable part. */
  datatype State = State(lastTimestamp: U64, sequence: U64)

  /** What one call leaves: its result, the generator's new state and how many clock readings it used. */
  datatype Minted = Minted(result: Result<I64, GeneratorError>, state: State, used: nat)

  /** The first reading from position i on that differs from `last`. */
  function NextDifferent(readings: seq<U64>, i: nat, last: U64): (j: nat)
    requires i <= |readings|
    requires exists k :: i <= k < |readings| && readings[k] != last
    ensures i <= j < |readings| && readings[j] != last
    ensures forall k :: i <= k < j ==> readings[k] == last
    decreases |readings| - i
  {
    if readings[i] != last then i else NextDifferent(readings, i + 1, last)
  }

  /**
   * The clock gives at least one reading, and when the sequence is about to
   * wrap within the current millisecond, some later reading differs: the
   * spin on the clock ends.
   */
  predicate ClockSupports(st: State, clock: seq<U64>) {
    && |clock| >= 1
    && (clock[0] == st.lastTimestamp && (st.sequence + 1) % (MAX_SEQUENCE + 1) == 0 ==>
          exists k :: 1 <= k < |clock| && clock[k] != st.lastTimestamp)
  }

  /** `(sequence + 1) & MAX_SEQUENCE`: the successor modulo 4096. */
  function IncrementSequence(sq: U64): (r: U64)
    requires sq <= MAX_SEQUENCE
    ensures r == (sq + 1) % (MAX_SEQUENCE + 1)
  {
    BitAndLowMask(sq + 1, SEQUENCE_BITS);
    Pow2Values();
    BitAnd(sq + 1, MAX_SEQUENCE)
  }

  /** One id request from state `st`: the reference for `Generator.NextId`. */
  function NextIdSpec(node: U64, st: State, clock: seq<U64>): (m: Minted)
    requires ClockSupports(st, clock)
    ensures 1 <= m.used <= |clock|
    ensures m.result.Err? <==> clock[0] < st.lastTimestamp
    ensures m.result.Err? ==> m.result.error == InvalidSystemClock && m.state == st && m.used == 1
    ensures m.result.Ok? ==> m.state.sequence <= MAX_SEQUENCE && m.state.lastTimestamp == clock[m.used - 1]
    ensures m.result.Ok? ==> m.result.value == Compose(m.state.lastTimestamp, node, m.state.sequence)
  {
    var now := clock[0];
    if now < st.lastTimestamp then
      Minted(Err(InvalidSystemClock), st, 1)
    else if now > st.lastTimestamp then
      Minted(Ok(Compose(now, node, 0)), State(now, 0), 1)
    else
      var sq := (st.sequence + 1) % (MAX_SEQUENCE + 1);
      if sq != 0 then
        Minted(Ok(Compose(now, node, sq)), State(now, sq), 1)
      else
        var j := NextDifferent(clock, 1, now);
        Minted(Ok(Compose(clock[j], node, 0)), State(clock[j], 0), j + 1)
  }

  predicate NonDecreasing(clock: seq<U64>) {
    forall i, j :: 0 <= i <= j < |clock| ==> clock[i] <= clock[j]
  }

  predicate Below(clock: seq<U64>, limit: int) {
    forall i :: 0 <= i < |clock| ==> clock[i] < limit
  }

  /** The state order ids follow on one node: by timestamp, then by sequence. */
  predicate Precedes(a: State, b: State) {
    a.lastTimestamp < b.lastTimestamp || (a.lastTimestamp == b.lastTimestamp && a.sequence < b.sequence)
  }

  /**
   * On a clock that does not step back, every id handed out moves the state
   * forward: a new millisecond, or the next sequence number in the same one.
   */
  lemma NextIdAdvances(node: U64, st: State, clock: seq<U64>)
    requires st.sequence <= MAX_SEQUENCE
    requires ClockSupports(st, clock) && NonDecreasing(clock)
    ensures NextIdSpec(node, st, clock).result.Ok? ==> Precedes(st, NextIdSpec(node, st, clock).state)
  {
  }

  /**
   * Two successive requests on one node with fitting fields give strictly
   * increasing ids, so a node never repeats an id while its clock is monotone.
   */
  lemma SuccessiveIdsIncrease(node: U64, st: State, first: seq<U64>, second: seq<U64>)
    requires node <= MAX_NODE_ID && st.sequence <= MAX_SEQUENCE
    requires ClockSupports(st, first) && NonDecreasing(first) && Below(first, TIMESTAMP_LIMIT)
    requires NextIdSpec(node, st, first).result.Ok?
    requires ClockSupports(NextIdSpec(node, st, first).state, second)
    requires NonDecreasing(second) && Below(second, TIMESTAMP_LIMIT)
    requires NextIdSpec(node, NextIdSpec(node, st, first).state, second).result.Ok?
    ensures NextIdSpec(node, st, first).result.value
            < NextIdSpec(node, NextIdSpec(node, st, first).state, second).result.value
  {
    var m1 := NextIdSpec(node, st, first);
    var m2 := NextIdSpec(node, m1.state, second);
    NextIdAdvances(node, m1.state, second);
    IdsOrdered(node, m1.state.lastTimestamp, m1.state.sequence, m2.state.lastTimestamp, m2.state.sequence);
  }

  /** Nodes with different ids never hand out the same id while their timestamps fit. */
  lemma DistinctNodesDistinctIds(node1: U64, st1: State, clock1: seq<U64>, node2: U64, st2: State, clock2: seq<U64>)
    requires node1 <= MAX_NODE_ID && node2 <= MAX_NODE_ID && node1 != node2
    requires ClockSupports(st1, clock1) && Below(clock1, TIMESTAMP_LIMIT)
    requires ClockSupports(st2, clock2) && Below(clock2, TIMESTAMP_LIMIT)
    requires NextIdSpec(node1, st1, clock1).result.Ok? && NextIdSpec(node2, st2, clock2).result.Ok?
    ensures NextIdSpec(node1, st1, clock1).result.value != NextIdSpec(node2, st2, clock2).result.value
  {
    var m1 := NextIdSpec(node1, st1, clock1);
    var m2 := NextIdSpec(node2, st2, clock2);
    IdsInjective(m1.state.lastTimestamp, node1, m1.state.sequence, m2.state.lastTimestamp, node2, m2.state.sequence);
  }

  /**
   * The spin only waits for a different reading, not a later one: a clock
   * that steps back while the sequence wraps yields an id below the previous one.
   */
  lemma SpinAcceptsEarlierReading()
    ensures && ClockSupports(State(5, MAX_SEQUENCE), [5, 4])
            && NextIdSpec(0, State(5, MAX_SEQUENCE), [5, 4]) == Minted(Ok(Compose(4, 0, 0)), State(4, 0), 2)
    ensures Compose(4, 0, 0) < Compose(5, 0, MAX_SEQUENCE)
  {
    assert [5, 4][1] != 5;
    assert NextDifferent([5, 4], 1, 5) == 1;
    IdsOrdered(0, 4, 0, 5, MAX_SEQUENCE);
  }

  /** The bound `new` puts on the node id it is given: as a u64 it must not exceed MAX_NODE_ID. */
  function NodeIdAccepted(nodeId: I16): (ok: bool)
    ensures ok <==> 0 <= nodeId <= MAX_NODE_ID
  {
    !(I16AsU64(nodeId) > MAX_NODE_ID)
  }

  /**
   * `validate_node_id`, which the instance handler calls, is not part of
   * this model's sources; it is modelled as the same bound `new` applies.
   */
  function ValidateNodeId(nodeId: int): (r: Result<int, GeneratorError>)
    ensures r.Ok? <==> 0 <= nodeId <= MAX_NODE_ID
    ensures r.Ok? ==> r.value == nodeId
    ensures r.Err? ==> r.error == NodeIdTooLarge
  {
    if nodeId < 0 || nodeId > MAX_NODE_ID then Err(NodeIdTooLarge) else Ok(nodeId)
  }

  /** On i16 values the validation and the bound in `new` agree. */
  lemma ValidateAgreesWithNew(nodeId: I16)
    ensures ValidateNodeId(nodeId).Ok? <==> NodeIdAccepted(nodeId)
  {
  }

  /** The reading the spin stops at, in the clock's own positions. */
  lemma WaitEndsAtNextDifferent(clock: seq<U64>, last: U64, ts: U64, waited: nat)
    requires 1 <= waited < |clock| && ts == clock[1..][waited - 1] && ts != last
    requires forall k :: 0 <= k < waited - 1 ==> clock[1..][k] == last
    requires exists k :: 1 <= k < |clock| && clock[k] != last
    ensures NextDifferent(clock, 1, last) == waited && ts == clock[waited]
  {
    var j := NextDifferent(clock, 1, last);
    assert forall k :: 1 <= k < waited ==> clock[k] == clock[1..][k - 1];
  }

  datatype StartError = GeneratorFailed(error: GeneratorError) | ModelFailed(cause: ModelError)

  class Generator {
    const nodeId: U64
    var lastTimestamp: U64
    var sequence: U64

    ghost predicate Valid()
      reads this
    {
      sequence <= MAX_SEQUENCE
    }

    function Snapshot(): State
      reads this
    {
      State(lastTimestamp, sequence)
    }

    constructor WithNodeId(nodeId: U64)
      ensures this.nodeId == nodeId && Snapshot() == State(0, 0) && Valid()
    {
      this.nodeId := nodeId;
      lastTimestamp := 0;
      sequence := 0;
    }

    /**
     * Spin on the clock while it still reads `last`.  `later` lists the
     * readings after `current`; the result is the first of them that
     * differs, and `used` says how many were taken.
     */
    method WaitForNextMillis(later: seq<U64>, current: U64, last: U64) returns (ts: U64, used: nat)
      requires current != last || exists k :: 0 <= k < |later| && later[k] != last
      ensures ts != last && used <= |later|
      ensures current != last ==> ts == current && used == 0
      ensures current == last ==> 1 <= used && ts == later[used - 1]
      ensures forall k :: 0 <= k < used - 1 ==> later[k] == last
    {
      ts, used := current, 0;
      while ts == last
        invariant used <= |later|
        invariant ts == last ==> exists k :: used <= k < |later| && later[k] != last
        invariant current != last ==> ts == current && used == 0
        invariant current == last && ts != last ==> 1 <= used && ts == later[used - 1]
        invariant forall k :: 0 <= k < used - 1 ==> later[k] == last
        invariant ts == last ==> forall k :: 0 <= k < used ==> later[k] == last
        decreases |later| - used
      {
        ts := later[used];
        used := used + 1;
      }
    }

    /**
     * The clock and sequence steps of `next_id` for a reading that is not
     * behind `last_timestamp`: the state it moves to and the readings taken.
     */
    method Advance(clock: seq<U64>) returns (next: State, used: nat)
      requires Valid() && ClockSupports(Snapshot(), clock) && clock[0] >= lastTimestamp
      ensures next == NextIdSpec(nodeId, Snapshot(), clock).state
      ensures used == NextIdSpec(nodeId, Snapshot(), clock).used
    {
      var currentTimestamp := clock[0];
      used := 1;
      var last := lastTimestamp;
      var sq := sequence;
      if currentTimestamp == last {
        sq := IncrementSequence(sq);
        if sq == 0 {
          var k :| 1 <= k < |clock| && clock[k] != last;
          assert clock[1..][k - 1] != last;
          var waited;
          currentTimestamp, waited := WaitForNextMillis(clock[1..], currentTimestamp, last);
          WaitEndsAtNextDifferent(clock, last, currentTimestamp, waited);
          used := waited + 1;
        }
      } else {
        sq := 0;
      }
      next := State(currentTimestamp, sq);
    }

    /**
     * Mint an id: reject a clock that went back, count up within the same
     * millisecond (spinning to the next one when the count wraps) and start
     * again at zero in a new one.  `used` is the number of readings taken.
     */
    method NextId(clock: seq<U64>) returns (r: Result<I64, GeneratorError>, used: nat)
      requires Valid() && ClockSupports(Snapshot(), clock)
      modifies this
      ensures Valid()
      ensures Minted(r, Snapshot(), used) == NextIdSpec(nodeId, old(Snapshot()), clock)
    {
      if clock[0] < lastTimestamp {
        return Err(InvalidSystemClock), 1;
      }
      var next;
      next, used := Advance(clock);
      lastTimestamp, sequence := next.lastTimestamp, next.sequence;
      r := Ok(AsI64(Pack(next.lastTimestamp, nodeId, next.sequence)));
    }

    /**
     * One tick of the generator's own heartbeat task: refresh the row of this
     * node (its id read as an i16).  A missing row or a failed update ends
     * the process, reported here as `exit`.
     */
    method HeartbeatTick(registry: Registry, now: Instant) returns (exit: bool)
      requires registry.Valid()
      modifies registry
      ensures registry.Valid()
      ensures exit <==> U64AsI16(nodeId) !in NodeIds(old(registry.rows))
      ensures exit ==> registry.rows == old(registry.rows)
      ensures !exit ==> registry.rows == Claim(old(registry.rows), U64AsI16(nodeId), now)
    {
      exit := HeartbeatOnce(registry, U64AsI16(nodeId), now);
    }
  }

  /**
   * Start a generator for the node id the registry offered: refuse ids that
   * do not fit in ten bits, insert the instance row, then build the
   * generator with a zero state.
   */
  method New(registry: Registry, nextNodeId: I16, now: Instant) returns (r: Result<Generator, StartError>)
    requires registry.Valid()
    modifies registry
    ensures registry.Valid()
    ensures !NodeIdAccepted(nextNodeId) ==>
              r == Err(GeneratorFailed(NodeIdTooLarge)) && registry.rows == old(registry.rows)
    ensures NodeIdAccepted(nextNodeId) && nextNodeId in NodeIds(old(registry.rows)) ==>
              r == Err(ModelFailed(DuplicateKey)) && registry.rows == old(registry.rows)
    ensures NodeIdAccepted(nextNodeId) && nextNodeId !in NodeIds(old(registry.rows)) ==>
              && r.Ok? && fresh(r.value)
              && r.value.nodeId == nextNodeId && r.value.Snapshot() == State(0, 0) && r.value.Valid()
              && registry.rows == old(registry.rows) + [Instance(nextNodeId, now, now, now)]
  {
    if I16AsU64(nextNodeId) > MAX_NODE_ID {
      return Err(GeneratorFailed(NodeIdTooLarge));
    }
    var created := registry.CreateNewInstance(nextNodeId, now);
    if created.Err? {
      return Err(ModelFailed(created.error));
    }
    var generator := new Generator.WithNodeId(created.value.nodeId as U64);
    r := Ok(generator);
  }
}
