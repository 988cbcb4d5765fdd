/**
 * The trigger of the Cosmo monitor: `log_cleaning_time` in the current revision
 * (apps/cosmo/cosmo_monitor.py) and `go` in the earlier one (apps/cosmo_monitor/cosmo_monitor.py),
 * and the whole chain the current revision runs after its guard: cleaning period, room and area
 * histories, attribution, threshold.
 */
module Monitor {
  import opened Wrappers
  import opened Seqs
  import opened History
  import opened Reconstruction
  import opened CosmoStates
  import opened Filters
  import opened CleaningPeriod
  import opened Attribution

  /** The current guard: a change to `Completed` from a cleaning or a paused status. */
  predicate ShouldLogCleaningTime(oldStatus: TaskStatus, newStatus: TaskStatus) {
    newStatus == Completed && (IsRoomCleaning(oldStatus) || IsPaused(oldStatus))
  }

  /** The earlier guard: a change to `Completed` from a cleaning status only. */
  predicate EarlierShouldGo(oldStatus: TaskStatus, newStatus: TaskStatus) {
    newStatus == Completed && IsRoomCleaning(oldStatus)
  }

  /** The current guard accepts everything the earlier one did, and in addition completions straight after a pause. */
  lemma GuardsDiffer(oldStatus: TaskStatus, newStatus: TaskStatus)
    ensures EarlierShouldGo(oldStatus, newStatus) ==> ShouldLogCleaningTime(oldStatus, newStatus)
    ensures ShouldLogCleaningTime(oldStatus, newStatus) && !EarlierShouldGo(oldStatus, newStatus) <==> newStatus == Completed && IsPaused(oldStatus)
    ensures !ShouldLogCleaningTime(oldStatus, newStatus) || newStatus == Completed
  {
  }

  /** The room history request of `log_cleaning_time`: unavailable rooms removed, doorway debounce. */
  function RoomQuery(start: int, end: int): Query<Room> {
    Query(Current, start, end, true, RoomUnavailable, RoomDebounce)
  }

  /** The cleaned-area request: unavailable readings removed, counter-reset artefact dropped. */
  function AreaQuery(start: int, end: int): Query<AreaReading> {
    Query(Current, start, end, true, AreaUnavailable, AreaReset)
  }

  datatype LogOutcome =
    | NotARoomCleaning                                  // the guard returned early
    | Failed(cause: PeriodError)                        // a history request or the scan raised
    | AttributionFailed(lookup: HistoryError)           // `state_at` raised during attribution
    | AreaNotNumeric                                    // an area state is not a number: `float()` raised in the hook or in validation
    | Recorded(calls: seq<(Room, int)>, raised: bool)   // set_datetime calls, and whether a KeyError followed

  /** Reference definition of `log_cleaning_time` after the status change `oldStatus -> newStatus` at `now`. */
  function CleaningLog(
    oldStatus: TaskStatus, newStatus: TaskStatus, now: int,
    taskResponse: seq<seq<Sample<TaskStatus>>>, cosmoResponse: seq<seq<Sample<CosmoState>>>,
    roomResponse: seq<seq<Sample<Room>>>, areaResponse: seq<seq<Sample<AreaReading>>>): LogOutcome
  {
    if !ShouldLogCleaningTime(oldStatus, newStatus) then NotARoomCleaning
    else
      match Period(Current, now, taskResponse, cosmoResponse)
      case Failure(e) => Failed(e)
      case Success((start, end)) =>
        if |roomResponse| != 1 then Failed(HistoryFailed(UnexpectedResponse(|roomResponse|)))
        else if |areaResponse| != 1 then Failed(HistoryFailed(UnexpectedResponse(|areaResponse|)))
        else
          var rooms := History(Reverse(Reconstruct(RoomQuery(start, end), roomResponse[0])));
          var areas := Reverse(Reconstruct(AreaQuery(start, end), areaResponse[0]));
          match ToAreaValues(areas)
          case None => AreaNotNumeric
          case Some(values) =>
            match Fold(rooms, values, None, EMPTY)
            case Failure(e) => AttributionFailed(e)
            case Success(totals) =>
              assert WellKeyed(totals) by { FoldKeepsKeys(rooms, values, None, EMPTY); }
              var (calls, raised) := ThresholdCalls(totals.order, totals.credits, 0, []);
              Recorded(calls, raised)
  }

  /** `log_cleaning_time` of the current revision. */
  method LogCleaningTime(
    oldStatus: TaskStatus, newStatus: TaskStatus, now: int,
    taskResponse: seq<seq<Sample<TaskStatus>>>, cosmoResponse: seq<seq<Sample<CosmoState>>>,
    roomResponse: seq<seq<Sample<Room>>>, areaResponse: seq<seq<Sample<AreaReading>>>)
    returns (r: LogOutcome)
    ensures r == CleaningLog(oldStatus, newStatus, now, taskResponse, cosmoResponse, roomResponse, areaResponse)
  {
    if newStatus != Completed || !(IsRoomCleaning(oldStatus) || IsPaused(oldStatus)) {
      return NotARoomCleaning;
    }
    var period := GetCleaningPeriod(Current, now, taskResponse, cosmoResponse);
    if period.Failure? {
      return Failed(period.error);
    }
    var (start, end) := period.value;
    var roomHistory := FromStateHistory(roomResponse, start, end, true, false, RoomUnavailable, RoomDebounce);
    if roomHistory.Failure? {
      return Failed(HistoryFailed(roomHistory.error));
    }
    var areaHistory := FromStateHistory(areaResponse, start, end, true, false, AreaUnavailable, AreaReset);
    if areaHistory.Failure? {
      return Failed(HistoryFailed(areaHistory.error));
    }
    var values := ToAreaValues(areaHistory.value.states);
    if values.None? {
      return AreaNotNumeric;
    }
    var totals := AreaCleanedByRoom(roomHistory.value, values.value);
    if totals.Failure? {
      return AttributionFailed(totals.error);
    }
    FoldKeepsKeys(roomHistory.value, values.value, None, EMPTY);
    var calls, raised := RecordCleanRooms(totals.value);
    return Recorded(calls, raised);
  }

  /** A history requested with unavailable states removed never contains the sentinel, in either order. */
  lemma ReconstructionAvoidsUnavailable<T>(q: Query<T>, samples: seq<Sample<T>>)
    requires q.removeUnavailable
    ensures Avoids(Reconstruct(q, samples), q.unavailable)
    ensures Avoids(Reverse(Reconstruct(q, samples)), q.unavailable)
  {
    ReplayWellFormed(q, SortByUpdated(samples), []);
  }

  /**
   * With a room history free of the unavailable sentinel and an area history of numbers, the
   * areas validate and the threshold loop never raises: it records exactly the rooms whose area
   * reaches the minimum.
   */
  lemma AttributionNeverMeetsUnavailable(rooms: History<Room>, areas: seq<Interval<AreaReading>>, room: Room, end: int)
    requires Avoids(rooms.states, RoomUnavailable) && AllNumeric(areas)
    ensures ToAreaValues(areas).Some?
    ensures var totals := Fold(rooms, ToAreaValues(areas).value, None, EMPTY);
      totals.Success? ==>
        && WellKeyed(totals.value)
        && !ThresholdCalls(totals.value.order, totals.value.credits, 0, []).1
        && ((room, end) in ThresholdCalls(totals.value.order, totals.value.credits, 0, []).0 <==>
              room in totals.value.credits && room != RoomUnavailable && totals.value.credits[room].area >= MinimumCleanArea(room).value
              && end == totals.value.credits[room].end)
  {
    var values := ToAreaValues(areas).value;
    NoUnavailableKey(rooms, values, None, EMPTY);
    var totals := Fold(rooms, values, None, EMPTY);
    if totals.Success? {
      FoldKeepsKeys(rooms, values, None, EMPTY);
      assert totals.value.order[0..] == totals.value.order;
      ThresholdDecides(totals.value.order, totals.value.credits, 0, [], room, end);
    }
  }

  /** Sorting keeps the records themselves, so records without text stay without text. */
  lemma SortKeepsNoText(samples: seq<Sample<AreaReading>>)
    requires NoText(samples)
    ensures NoText(SortByUpdated(samples))
  {
    var sorted := SortByUpdated(samples);
    forall k | 0 <= k < |sorted| ensures !sorted[k].state.AreaText? {
      assert sorted[k] in multiset(sorted);
      var j :| 0 <= j < |samples| && samples[j] == sorted[k];
    }
  }

  /**
   * A reconstruction with the sentinel removed, from samples that carry no other text, holds
   * only numbers, in either order.
   */
  lemma NoTextReconstructsNumeric(q: Query<AreaReading>, samples: seq<Sample<AreaReading>>)
    requires q.removeUnavailable && q.unavailable == AreaUnavailable && NoText(samples)
    ensures AllNumeric(Reconstruct(q, samples)) && AllNumeric(Reverse(Reconstruct(q, samples)))
  {
    var sorted, m := SortByUpdated(samples), Reconstruct(q, samples);
    ReconstructionAvoidsUnavailable(q, samples);
    SortKeepsNoText(samples);
    ReplayStatesFromSamples(q, sorted, [], sorted);
    forall i | 0 <= i < |m| ensures m[i].state.Area? {
      var k :| 0 <= k < |sorted| && sorted[k].state == m[i].state;
    }
  }

  /**
   * Because both histories are requested with unavailable states removed, every completed run
   * whose area samples carry no text other than the sentinel ends in recorded calls: the areas
   * always validate as numbers and the threshold loop never reaches the sentinel's missing minimum.
   */
  lemma LogNeverMeetsUnavailable(
    oldStatus: TaskStatus, newStatus: TaskStatus, now: int,
    taskResponse: seq<seq<Sample<TaskStatus>>>, cosmoResponse: seq<seq<Sample<CosmoState>>>,
    roomResponse: seq<seq<Sample<Room>>>, areaResponse: seq<seq<Sample<AreaReading>>>)
    requires forall i | 0 <= i < |areaResponse| :: NoText(areaResponse[i])
    ensures var r := CleaningLog(oldStatus, newStatus, now, taskResponse, cosmoResponse, roomResponse, areaResponse);
      r != AreaNotNumeric && (r.Recorded? ==> !r.raised)
  {
    if ShouldLogCleaningTime(oldStatus, newStatus) && Period(Current, now, taskResponse, cosmoResponse).Success?
       && |roomResponse| == 1 && |areaResponse| == 1
    {
      var (start, end) := Period(Current, now, taskResponse, cosmoResponse).value;
      ReconstructionAvoidsUnavailable(RoomQuery(start, end), roomResponse[0]);
      NoTextReconstructsNumeric(AreaQuery(start, end), areaResponse[0]);
      AttributionNeverMeetsUnavailable(
        History(Reverse(Reconstruct(RoomQuery(start, end), roomResponse[0]))),
        Reverse(Reconstruct(AreaQuery(start, end), areaResponse[0])), Bathroom, 0);
    }
  }
}
