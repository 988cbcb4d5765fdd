/**
 * The earlier revision of the history model (apps/cosmo_monitor/cosmo_monitor.py): no filter
 * hook, a skip bound fixed at the requested upper limit, and limits stored as fields.
 */
module EarlierHistory {
  import opened Wrappers
  import opened Seqs
  import opened History
  import opened Reconstruction

  /** `_History` of the earlier revision: the entity, the intervals and the requested limits. */
  datatype StoredHistory<T> = StoredHistory(entityId: string, states: seq<Interval<T>>, lower: int, upper: int)

  /** `duration`: the stored upper limit minus the stored lower limit, whatever the intervals are. */
  function StoredDuration<T>(h: StoredHistory<T>): int {
    h.upper - h.lower
  }

  /** The replay parameters of the earlier revision; its hook is never consulted. */
  function EarlierQuery<T>(lower: int, upper: int, removeUnavailable: bool, unavailable: T): Query<T> {
    Query(Earlier, lower, upper, removeUnavailable, unavailable, KeepAll)
  }

  /**
   * `_History.from_state_history` of the earlier revision. Each popped sample is annotated with
   * a start and an end (`state["start_time"]`, `state["end_time"]`) before it is copied into the
   * emitted list; `endTime` is never reassigned.
   */
  method FromStateHistory<T(==)>(
    entityId: string, response: seq<seq<Sample<T>>>, lower: int, upper: int,
    removeUnavailable: bool, reverse: bool, unavailable: T)
    returns (r: Result<StoredHistory<T>, HistoryError>)
    ensures |response| != 1 ==> r == Failure(UnexpectedResponse(|response|))
    ensures |response| == 1 ==>
      r == Success(StoredHistory(entityId,
        InOrder(Reconstruct(EarlierQuery(lower, upper, removeUnavailable, unavailable), response[0]), reverse),
        lower, upper))
  {
    if |response| != 1 {
      return Failure(UnexpectedResponse(|response|));
    }
    ghost var q := EarlierQuery(lower, upper, removeUnavailable, unavailable);
    var stateHistory := SortByUpdated(response[0]);  // oldest -> newest
    var merged: seq<Interval<T>> := [];
    var endTime := upper;
    while stateHistory != []
      invariant Replay(q, stateHistory, merged) == Reconstruct(q, response[0])
      invariant endTime == SkipBound(q, merged) == upper
      decreases |stateHistory|
    {
      var state := stateHistory[|stateHistory| - 1];  // most recent state
      stateHistory := stateHistory[..|stateHistory| - 1];
      if state.changed > endTime || (removeUnavailable && state.state == unavailable) {
        continue;
      }
      var lowerLimitBroken := state.changed < lower;
      var stateStart := if lowerLimitBroken then lower else state.changed;
      var stateEnd;
      if merged == [] {
        stateEnd := endTime;
      } else if merged[|merged| - 1].state == state.state {
        merged := merged[|merged| - 1 := merged[|merged| - 1].(start := stateStart)];
        continue;
      } else {
        stateEnd := merged[|merged| - 1].start;
      }
      merged := merged + [Interval(state.state, stateStart, stateEnd)];
      if lowerLimitBroken {
        break;
      }
    }
    return Success(StoredHistory(entityId, if reverse then merged else Reverse(merged), lower, upper));
  }

  /**
   * The stored limits frame the intervals: oldest first, the last interval ends at the stored upper
   * limit and the first starts at or after the stored lower limit, so `duration` is never shorter
   * than the span the intervals cover; with no intervals it is still `upper - lower`.
   */
  lemma StoredLimitsFrameIntervals<T>(entityId: string, samples: seq<Sample<T>>, lower: int, upper: int, removeUnavailable: bool, unavailable: T)
    ensures var h := StoredHistory(entityId, InOrder(Reconstruct(EarlierQuery(lower, upper, removeUnavailable, unavailable), samples), false), lower, upper);
      && StoredDuration(h) == upper - lower
      && (h.states != [] ==> h.states[|h.states| - 1].end == h.upper && h.lower <= h.states[0].start)
      && (h.states != [] ==> Duration(History(h.states)).value <= StoredDuration(h))
  {
    var q := EarlierQuery(lower, upper, removeUnavailable, unavailable);
    ReplayWellFormed(q, SortByUpdated(samples), []);
    ReverseIsChained(Reconstruct(q, samples), upper);
  }
}
