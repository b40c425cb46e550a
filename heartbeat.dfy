/** Timing constants shared by the instance registry and the heartbeat job. */
module Heartbeat {

  const INSTANCE_HEARTBEAT_INTERVAL_SECONDS: nat := 10

  /** A record counts as alive for three missed heartbeat intervals. */
  const INSTANCE_HEARTBEAT_TOLERANCE_SECONDS: nat := INSTANCE_HEARTBEAT_INTERVAL_SECONDS * 3

  function ToleranceSeconds(): (t: nat)
    ensures t == 3 * INSTANCE_HEARTBEAT_INTERVAL_SECONDS && t == 30
  {
    INSTANCE_HEARTBEAT_TOLERANCE_SECONDS
  }
}
