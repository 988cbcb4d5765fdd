/** Timestamps throughout are integer microseconds since the epoch, already normalised to UTC. */
module Time {
  const SECOND: int := 1_000_000
}
