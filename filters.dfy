/**
 * The per-entity `filter_current_state_out` hooks of the current revision
 * (apps/cosmo/cosmo_monitor.py): the counter-reset artefact of the cleaned-area sensor and the
 * doorway debounce of the current-room sensor.
 */
module Filters {
  import opened Wrappers
  import opened History
  import opened Reconstruction
  import opened CosmoStates
  import opened Time

  /** The debounce threshold of the room hook (its docstring says 10 seconds; the code uses 20). */
  const DEBOUNCE: int := 20 * SECOND

  /** `float(state)`: fails (a ValueError) on the unavailable sentinel and on any other text. */
  function AsFloat(a: AreaReading): (r: Option<real>)
    ensures r.None? <==> !a.Area?
    ensures r.Some? ==> a.Area? && r.value == a.squareMetres
  {
    match a
    case Area(_, v) => Some(v)
    case _ => None
  }

  /** Every interval of `h` carries a number. */
  predicate AllNumeric(h: seq<Interval<AreaReading>>) {
    forall i | 0 <= i < |h| :: h[i].state.Area?
  }

  /** No sample of `samples` carries text other than the unavailable sentinel. */
  predicate NoText(samples: seq<Sample<AreaReading>>) {
    forall k | 0 <= k < |samples| :: !samples[k].state.AreaText?
  }

  /**
   * `AreaCleanedHistory.filter_current_state_out`, including the ValueError that `float()` raises
   * when it reaches a reading that is not a number (the `and` chain is evaluated left to right).
   */
  function AreaResetCheck(prev: Option<Sample<AreaReading>>, curr: Sample<AreaReading>, next: Option<Interval<AreaReading>>): (r: Result<bool, AreaReading>)
    ensures r == Success(true) <==>
      prev.None? && next.Some? && curr.state.Area? && curr.state.squareMetres > 0.0
      && next.value.state.Area? && next.value.state.squareMetres == 0.0
    ensures r.Failure? <==>
      prev.None? && next.Some? && (!curr.state.Area? || (curr.state.squareMetres > 0.0 && !next.value.state.Area?))
  {
    if prev.Some? || next.None? then Success(false)
    else
      match AsFloat(curr.state)
      case None => Failure(curr.state)
      case Some(c) =>
        if !(c > 0.0) then Success(false)
        else
          match AsFloat(next.value.state)
          case None => Failure(next.value.state)
          case Some(n) => Success(n == 0.0)
  }

  /**
   * The area hook as a filter. Where the hook raises, the replay keeps the sample, and the
   * reading that is not a number then reaches the validation step (`AreaHookFailureSurfaces`).
   */
  function AreaReset(prev: Option<Sample<AreaReading>>, curr: Sample<AreaReading>, next: Option<Interval<AreaReading>>): bool {
    AreaResetCheck(prev, curr, next) == Success(true)
  }

  /** The area hook drops a sample only when no older sample is pending, so only the oldest one. */
  lemma AreaResetDropsOnlyOldest(q: Query<AreaReading>, rest: seq<Sample<AreaReading>>, s: Sample<AreaReading>, merged: seq<Interval<AreaReading>>)
    requires AreaReset(PreviousSample(rest, q.removeUnavailable, q.unavailable), s, Newest(merged))
    ensures rest == [] && merged != []
    ensures q.revision == Current && q.drop == AreaReset ==> Replay(q, rest + [s], merged) == merged
  {
    if q.revision == Current && q.drop == AreaReset {
      assert Skips(q, rest, s, merged);
      assert (rest + [s])[..|rest|] == rest;
    }
  }

  /**
   * With numeric intervals emitted so far and a numeric current sample, `float()` in the hook
   * never raises.
   */
  lemma AreaResetNeverRaises(q: Query<AreaReading>, rest: seq<Sample<AreaReading>>, s: Sample<AreaReading>, merged: seq<Interval<AreaReading>>)
    requires AllNumeric(merged)
    requires s.state.Area?
    ensures AreaResetCheck(PreviousSample(rest, q.removeUnavailable, q.unavailable), s, Newest(merged)).Success?
  {
  }

  /**
   * The hook can raise only for the oldest pending sample, and when the source would reach it
   * (the sample is not late and not a removed sentinel), the model keeps that sample, so the
   * text that made `float()` fail is in the replay's result.
   */
  lemma AreaHookFailureSurfaces(q: Query<AreaReading>, rest: seq<Sample<AreaReading>>, s: Sample<AreaReading>, merged: seq<Interval<AreaReading>>)
    requires q.drop == AreaReset && q.removeUnavailable && q.unavailable == AreaUnavailable
    requires s.changed <= SkipBound(q, merged) && s.state != AreaUnavailable
    requires AreaResetCheck(PreviousSample(rest, q.removeUnavailable, q.unavailable), s, Newest(merged)).Failure?
    ensures rest == []
    ensures !AllNumeric(Replay(q, rest + [s], merged))
  {
    assert merged != [] && rest == [];
    assert !Skips(q, rest, s, merged);
    var newest, r := merged[|merged| - 1], Replay(q, rest + [s], merged);
    if newest.state == s.state {
      SameStateSampleMerges(q, rest, s, merged);
      assert r == SetNewestStart(merged, Max(q.lower, s.changed));
      assert !r[|merged| - 1].state.Area?;
    } else {
      var end := newest.start;
      if s.changed < q.lower {
        SampleBeforeLowerLimitEndsReplay(q, rest, s, merged);
        assert r == merged + [Interval(s.state, q.lower, end)];
      } else {
        NewStateSampleEmitted(q, rest, s, merged);
        assert Replay(q, rest, merged + [Interval(s.state, s.changed, end)]) == merged + [Interval(s.state, s.changed, end)];
      }
      assert r[|merged| - 1] == newest && r[|merged|].state == s.state;
    }
  }

  /** `CurrentRoomHistory.filter_current_state_out`: a short visit bracketed by the same room. */
  function RoomDebounce(prev: Option<Sample<Room>>, curr: Sample<Room>, next: Option<Interval<Room>>): (r: bool)
    ensures r <==> prev.Some? && next.Some? && prev.value.state == next.value.state
                   && next.value.start - curr.updated < 20 * SECOND
  {
    && prev.Some?
    && next.Some?
    && prev.value.state == next.value.state
    && next.value.start - curr.updated < DEBOUNCE
  }

  /**
   * The room hook never drops the newest sample or the oldest pending one, and the sample it
   * drops is bracketed by an older remaining sample in the same room as the newest emitted interval.
   */
  lemma RoomDebounceKeepsEnds(q: Query<Room>, rest: seq<Sample<Room>>, s: Sample<Room>, merged: seq<Interval<Room>>)
    requires RoomDebounce(PreviousSample(rest, q.removeUnavailable, q.unavailable), s, Newest(merged))
    ensures merged != [] && rest != []
    ensures PreviousSample(rest, q.removeUnavailable, q.unavailable).value.state == merged[|merged| - 1].state
  {
  }
}
