/**
 * `CosmoMonitor._get_cleaning_period` in both revisions: a backward, pause-tolerant scan of the
 * newest-first task-status history, then a refinement of the end against the vacuum's own
 * history (current revision: end of the newest `Cleaning` interval; earlier revision: start of
 * the newest `ReturningToDock` interval).
 */
module CleaningPeriod {
  import opened Wrappers
  import opened Seqs
  import opened History
  import opened Reconstruction
  import opened CosmoStates
  import EarlierHistory
  import opened Time

  const DAY: int := 24 * 60 * 60 * SECOND

  /** The earlier revision's hard-coded lower limit, 2023-11-26 12:25 UTC, in microseconds since the epoch. */
  const EARLIER_TASK_LOWER_LIMIT: int := 1_701_001_500_000_000

  datatype PeriodError = HistoryFailed(cause: HistoryError) | NoCleaningTaskStatus

  /** A task-status interval that counts as active cleaning. */
  predicate Active(i: Interval<TaskStatus>) { IsRoomCleaning(i.state) }

  /** A task-status interval that ends a run once one has been found: neither cleaning nor paused. */
  predicate Breaks(i: Interval<TaskStatus>) { !IsRoomCleaning(i.state) && !IsPaused(i.state) }

  // ---------------------------------------------------------------------------------------------
  // The backward scan

  /**
   * Reference definition of the scan over a newest-first history: the run ends at the end of the
   * newest active interval and starts at the start of the oldest active interval before the
   * first breaking interval older than it. With no breaking interval the `for ... else` raises,
   * even though a run was found.
   */
  function CleaningRun(h: seq<Interval<TaskStatus>>): Result<(int, int), PeriodError> {
    match FirstWhere(h, Active, 0)
    case None => Failure(NoCleaningTaskStatus)
    case Some(e) =>
      match FirstWhere(h, Breaks, e + 1)
      case None => Failure(NoCleaningTaskStatus)
      case Some(b) =>
        assert Active(h[e]);
        var s := LastWhere(h, Active, b).value;
        Success((h[s].start, h[e].end))
  }

  /** The scan loop itself (apps/cosmo/cosmo_monitor.py:518-527). */
  method ScanCleaningRun(h: seq<Interval<TaskStatus>>) returns (r: Result<(int, int), PeriodError>)
    ensures r == CleaningRun(h)
  {
    var cleanEnd: Option<int> := None;
    var cleanStart := 0;
    ghost var newest: nat, oldest: nat := 0, 0;
    var i := 0;
    while i < |h|
      invariant 0 <= i <= |h|
      invariant cleanEnd.None? <==> forall j | 0 <= j < i :: !Active(h[j])
      invariant cleanEnd.Some? ==>
        && newest <= oldest < i
        && Active(h[newest]) && Active(h[oldest])
        && (forall j | 0 <= j < newest :: !Active(h[j]))
        && (forall j | oldest < j < i :: !Active(h[j]))
        && (forall j | newest < j < i :: !Breaks(h[j]))
        && cleanEnd.value == h[newest].end && cleanStart == h[oldest].start
    {
      if IsRoomCleaning(h[i].state) {
        if cleanEnd.None? {
          newest := i;
        }
        oldest := i;
        cleanEnd := if cleanEnd.None? then Some(h[i].end) else cleanEnd;
        cleanStart := h[i].start;
      } else if !IsPaused(h[i].state) && cleanEnd.Some? {
        // break: the run is complete
        FirstWhereIs(h, Active, 0, newest);
        FirstWhereIs(h, Breaks, newest + 1, i);
        LastWhereIs(h, Active, i, oldest);
        return Success((cleanStart, cleanEnd.value));
      }
      i := i + 1;
    }
    // for ... else: the loop ran out without a break
    if cleanEnd.Some? {
      FirstWhereIs(h, Active, 0, newest);
    }
    return Failure(NoCleaningTaskStatus);
  }

  /**
   * The shape of a run: `e` the newest active interval, `b` the first breaking interval older
   * than it, `s` the oldest active interval newer than `b`. Paused intervals between them do not
   * break the run.
   */
  predicate RunShape(h: seq<Interval<TaskStatus>>, e: nat, s: nat, b: nat) {
    && e <= s < b < |h|
    && Active(h[e]) && Active(h[s]) && Breaks(h[b])
    && (forall j | 0 <= j < e :: !Active(h[j]))
    && (forall j | e < j < b :: !Breaks(h[j]))
    && (forall j | s < j < b :: !Active(h[j]))
  }

  /** Every run of that shape is the one the scan reports. */
  lemma CleaningRunFound(h: seq<Interval<TaskStatus>>, e: nat, s: nat, b: nat)
    requires RunShape(h, e, s, b)
    ensures CleaningRun(h) == Success((h[s].start, h[e].end))
  {
  }

  /** Conversely every reported run has that shape. */
  lemma CleaningRunShape(h: seq<Interval<TaskStatus>>)
    requires CleaningRun(h).Success?
    ensures exists e: nat, s: nat, b: nat :: RunShape(h, e, s, b) && CleaningRun(h).value == (h[s].start, h[e].end)
  {
    var e := FirstWhere(h, Active, 0).value;
    var b := FirstWhere(h, Breaks, e + 1).value;
    var s := LastWhere(h, Active, b).value;
    assert RunShape(h, e, s, b);
  }

  /** Running out of history after the newest active interval without meeting a breaking one raises. */
  lemma ExhaustedRunRaises(h: seq<Interval<TaskStatus>>, e: nat)
    requires e < |h| && Active(h[e])
    requires forall j | 0 <= j < e :: !Active(h[j])
    requires forall j | e < j < |h| :: !Breaks(h[j])
    ensures CleaningRun(h) == Failure(NoCleaningTaskStatus)
  {
  }

  /** A history with no active interval raises. */
  lemma NoActiveRaises(h: seq<Interval<TaskStatus>>)
    requires forall j | 0 <= j < |h| :: !Active(h[j])
    ensures CleaningRun(h) == Failure(NoCleaningTaskStatus)
  {
  }

  /** Along a contiguous, ordered newest-first list, ends never increase. */
  lemma {:induction false} NewestFirstEndsDecrease<T>(m: seq<Interval<T>>, upper: int, i: nat, j: nat)
    requires Contiguous(m, upper) && Ordered(m)
    requires i <= j < |m|
    ensures m[j].end <= m[i].end
    ensures i < j ==> m[j].end <= m[i].start
  {
    if i < j {
      NewestFirstEndsDecrease(m, upper, i, j - 1);
    }
  }

  /** On a contiguous, ordered newest-first history the run is a sub-window ending by the upper limit. */
  lemma CleaningRunWithinHistory(h: seq<Interval<TaskStatus>>, lower: int, upper: int)
    requires Contiguous(h, upper) && Ordered(h) && StartsFrom(h, lower)
    requires CleaningRun(h).Success?
    ensures lower <= CleaningRun(h).value.0 <= CleaningRun(h).value.1 <= upper
  {
    var e := FirstWhere(h, Active, 0).value;
    var b := FirstWhere(h, Breaks, e + 1).value;
    var s := LastWhere(h, Active, b).value;
    NewestFirstEndsDecrease(h, upper, e, s);
    NewestFirstEndsDecrease(h, upper, 0, e);
  }

  // ---------------------------------------------------------------------------------------------
  // Refinement against the vacuum's history

  predicate IsCleaning(i: Interval<CosmoState>) { i.state == Cleaning }

  predicate IsReturning(i: Interval<CosmoState>) { i.state == ReturningToDock }

  /** Current revision: the end of the newest `Cleaning` interval, else the tentative end. */
  function RefinedEnd(cosmo: seq<Interval<CosmoState>>, end: int): int {
    match FirstWhere(cosmo, IsCleaning, 0)
    case None => end
    case Some(k) => cosmo[k].end
  }

  /** Earlier revision: the start of the newest `ReturningToDock` interval, else the tentative end. */
  function TrimmedEnd(cosmo: seq<Interval<CosmoState>>, end: int): int {
    match FirstWhere(cosmo, IsReturning, 0)
    case None => end
    case Some(k) => cosmo[k].start
  }

  /** The current revision's refinement loop (apps/cosmo/cosmo_monitor.py:538-541). */
  method RefineEnd(cosmo: seq<Interval<CosmoState>>, end: int) returns (r: int)
    ensures r == RefinedEnd(cosmo, end)
  {
    r := end;
    var i := 0;
    while i < |cosmo|
      invariant 0 <= i <= |cosmo|
      invariant r == end
      invariant FirstWhere(cosmo, IsCleaning, 0) == FirstWhere(cosmo, IsCleaning, i)
    {
      if cosmo[i].state == Cleaning {
        r := cosmo[i].end;
        break;
      }
      i := i + 1;
    }
  }

  /** The earlier revision's trimming loop (apps/cosmo_monitor/cosmo_monitor.py:352-358). */
  method TrimReturning(cosmo: seq<Interval<CosmoState>>, end: int) returns (r: int)
    ensures r == TrimmedEnd(cosmo, end)
  {
    r := end;
    var i := 0;
    while i < |cosmo|
      invariant 0 <= i <= |cosmo|
      invariant r == end
      invariant FirstWhere(cosmo, IsReturning, 0) == FirstWhere(cosmo, IsReturning, i)
    {
      if cosmo[i].state == ReturningToDock {
        r := cosmo[i].start;
        break;
      }
      i := i + 1;
    }
  }

  /**
   * With a vacuum history reconstructed newest first for the tentative window `[start, end]`
   * (well-ordered samples), both refinements keep the end inside that window.
   */
  lemma RefinementStaysInWindow(q: Query<CosmoState>, samples: seq<Sample<CosmoState>>)
    requires q.lower <= q.upper && ChangedFollowsUpdated(samples)
    ensures var cosmo := Reconstruct(q, samples);
      && q.lower <= RefinedEnd(cosmo, q.upper) <= q.upper
      && q.lower <= TrimmedEnd(cosmo, q.upper) <= q.upper
  {
    var cosmo := Reconstruct(q, samples);
    ReplayWellFormed(q, SortByUpdated(samples), []);
    SortedFollowsChanged(samples);
    ReplayOrdered(q, SortByUpdated(samples), []);
    match FirstWhere(cosmo, IsCleaning, 0)
    case None =>
    case Some(k) => NewestFirstEndsDecrease(cosmo, q.upper, 0, k);
    match FirstWhere(cosmo, IsReturning, 0)
    case None =>
    case Some(k) => NewestFirstEndsDecrease(cosmo, q.upper, 0, k);
  }

  // ---------------------------------------------------------------------------------------------
  // The whole period

  /** The replay parameters of each history request: unavailable states removed, no hook. */
  function TaskQuery(rev: Revision, lower: int, upper: int): Query<TaskStatus> {
    Query(rev, lower, upper, true, TaskUnavailable, KeepAll)
  }

  function CosmoQuery(rev: Revision, lower: int, upper: int): Query<CosmoState> {
    Query(rev, lower, upper, true, CosmoUnavailable, KeepAll)
  }

  /** The lower limit of the task-status request: 24 hours back, or the earlier revision's fixed instant. */
  function TaskLowerLimit(rev: Revision, now: int): int {
    if rev == Current then now - DAY else EARLIER_TASK_LOWER_LIMIT
  }

  /**
   * Reference definition of `_get_cleaning_period`: the run found in the task history (newest
   * first, up to now), then the end refined against the vacuum's history for that run.
   * `taskResponse` and `cosmoResponse` are what the history API returns for the two requests.
   */
  function Period(rev: Revision, now: int, taskResponse: seq<seq<Sample<TaskStatus>>>, cosmoResponse: seq<seq<Sample<CosmoState>>>): Result<(int, int), PeriodError> {
    if |taskResponse| != 1 then Failure(HistoryFailed(UnexpectedResponse(|taskResponse|)))
    else
      var tasks := Reconstruct(TaskQuery(rev, TaskLowerLimit(rev, now), now), taskResponse[0]);
      match CleaningRun(tasks)
      case Failure(err) => Failure(err)
      case Success((start, end)) =>
        if |cosmoResponse| != 1 then Failure(HistoryFailed(UnexpectedResponse(|cosmoResponse|)))
        else
          var cosmo := Reconstruct(CosmoQuery(rev, start, end), cosmoResponse[0]);
          Success((start, if rev == Current then RefinedEnd(cosmo, end) else TrimmedEnd(cosmo, end)))
  }

  /** `_get_cleaning_period` of either revision, built from the history requests and the two loops. */
  method GetCleaningPeriod(rev: Revision, now: int, taskResponse: seq<seq<Sample<TaskStatus>>>, cosmoResponse: seq<seq<Sample<CosmoState>>>)
    returns (r: Result<(int, int), PeriodError>)
    ensures r == Period(rev, now, taskResponse, cosmoResponse)
  {
    var lower := TaskLowerLimit(rev, now);
    var tasks: seq<Interval<TaskStatus>>;
    if rev == Current {
      var th := FromStateHistory(taskResponse, lower, now, true, true, TaskUnavailable, KeepAll);
      if th.Failure? {
        return Failure(HistoryFailed(th.error));
      }
      tasks := th.value.states;
    } else {
      var th := EarlierHistory.FromStateHistory("sensor.cosmo_task_status", taskResponse, lower, now, true, true, TaskUnavailable);
      if th.Failure? {
        return Failure(HistoryFailed(th.error));
      }
      tasks := th.value.states;
    }
    assert TaskQuery(rev, lower, now) == Query(rev, lower, now, true, TaskUnavailable, KeepAll);
    var run := ScanCleaningRun(tasks);
    if run.Failure? {
      return Failure(run.error);
    }
    var (start, end) := run.value;
    var cosmo: seq<Interval<CosmoState>>;
    var refined: int;
    if rev == Current {
      var ch := FromStateHistory(cosmoResponse, start, end, true, true, CosmoUnavailable, KeepAll);
      if ch.Failure? {
        return Failure(HistoryFailed(ch.error));
      }
      refined := RefineEnd(ch.value.states, end);
    } else {
      var ch := EarlierHistory.FromStateHistory("vacuum.cosmo", cosmoResponse, start, end, true, true, CosmoUnavailable);
      if ch.Failure? {
        return Failure(HistoryFailed(ch.error));
      }
      refined := TrimReturning(ch.value.states, end);
    }
    return Success((start, refined));
  }

  /**
   * For well-ordered samples the period is a window inside the task history's extent: it starts
   * no earlier than the task lower limit, its start is not after its end, and its end is not after now.
   */
  lemma PeriodIsWindow(rev: Revision, now: int, taskResponse: seq<seq<Sample<TaskStatus>>>, cosmoResponse: seq<seq<Sample<CosmoState>>>)
    requires Period(rev, now, taskResponse, cosmoResponse).Success?
    requires TaskLowerLimit(rev, now) <= now
    requires |taskResponse| == 1 && ChangedFollowsUpdated(taskResponse[0])
    requires |cosmoResponse| == 1 && ChangedFollowsUpdated(cosmoResponse[0])
    ensures var (start, end) := Period(rev, now, taskResponse, cosmoResponse).value;
      TaskLowerLimit(rev, now) <= start <= end <= now
  {
    var tq := TaskQuery(rev, TaskLowerLimit(rev, now), now);
    var tasks := Reconstruct(tq, taskResponse[0]);
    ReplayWellFormed(tq, SortByUpdated(taskResponse[0]), []);
    SortedFollowsChanged(taskResponse[0]);
    ReplayOrdered(tq, SortByUpdated(taskResponse[0]), []);
    CleaningRunWithinHistory(tasks, tq.lower, now);
    var (start, end) := CleaningRun(tasks).value;
    RefinementStaysInWindow(CosmoQuery(rev, start, end), cosmoResponse[0]);
  }
}
