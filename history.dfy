/**
 * The History container of the current revision (apps/cosmo/cosmo_monitor.py, class _History):
 * an ordered list of state intervals with Python-style indexing, a half-open point lookup
 * and limits computed from the first and last interval.
 */
module History {
  import opened Wrappers

  /** One raw Home Assistant record: the state, when it last changed and when it was last updated. */
  datatype Sample<T> = Sample(state: T, changed: int, updated: int)

  /** One reconstructed interval (the source's `State` model); `Duration` is `end - start`. */
  datatype Interval<T> = Interval(state: T, start: int, end: int) {
    function Duration(): int { end - start }
    predicate Contains(t: int) { start <= t < end }
  }

  /** The exceptions the container and its construction raise. */
  datatype HistoryError =
    | UnexpectedResponse(resultSets: nat)   // ValueError: not exactly one result set
    | NoStateAt(t: int)                     // ValueError from state_at
    | IndexOutOfRange(index: int)           // IndexError from states[index]

  datatype History<T> = History(states: seq<Interval<T>>)

  /** `len(history)`. */
  function Length<T>(h: History<T>): (n: nat)
    ensures n == |h.states|
  {
    |h.states|
  }

  /** `history[index]`, with Python's negative indices counted from the end. */
  function Get<T>(h: History<T>, index: int): (r: Result<Interval<T>, HistoryError>)
    ensures r.Success? <==> -|h.states| <= index < |h.states|
    ensures 0 <= index < |h.states| ==> r == Success(h.states[index])
    ensures -|h.states| <= index < 0 ==> r == Success(h.states[|h.states| + index])
    ensures r.Failure? ==> r.error == IndexOutOfRange(index)
  {
    if 0 <= index < |h.states| then Success(h.states[index])
    else if -|h.states| <= index < 0 then Success(h.states[|h.states| + index])
    else Failure(IndexOutOfRange(index))
  }

  /** `lower_limit`: the start of `states[0]`; raises on an empty history. */
  function LowerLimit<T>(h: History<T>): (r: Result<int, HistoryError>)
    ensures r.Success? <==> h.states != []
    ensures h.states != [] ==> r.value == h.states[0].start
  {
    match Get(h, 0)
    case Success(first) => Success(first.start)
    case Failure(e) => Failure(e)
  }

  /** `upper_limit`: the end of `states[-1]`; raises on an empty history. */
  function UpperLimit<T>(h: History<T>): (r: Result<int, HistoryError>)
    ensures r.Success? <==> h.states != []
    ensures h.states != [] ==> r.value == h.states[|h.states| - 1].end
  {
    match Get(h, -1)
    case Success(last) => Success(last.end)
    case Failure(e) => Failure(e)
  }

  /** `duration`: `upper_limit - lower_limit`. */
  function Duration<T>(h: History<T>): (r: Result<int, HistoryError>)
    ensures r.Success? <==> h.states != []
    ensures h.states != [] ==> r.value == h.states[|h.states| - 1].end - h.states[0].start
  {
    match (LowerLimit(h), UpperLimit(h))
    case (Success(lo), Success(hi)) => Success(hi - lo)
    case (Failure(e), _) => Failure(e)
    case (_, Failure(e)) => Failure(e)
  }

  /** The index of the first interval whose half-open span contains `t`. */
  function IndexAt<T>(states: seq<Interval<T>>, t: int): (r: Option<nat>)
    ensures r.Some? ==> r.value < |states| && states[r.value].Contains(t)
    ensures r.Some? ==> forall j | 0 <= j < r.value :: !states[j].Contains(t)
    ensures r.None? <==> forall j | 0 <= j < |states| :: !states[j].Contains(t)
  {
    if states == [] then None
    else if states[0].Contains(t) then Some(0)
    else
      match IndexAt(states[1..], t)
      case None => None
      case Some(k) => Some(k + 1)
  }

  /** `state_at`: the first interval with `start <= t < end`, else a ValueError. */
  function StateAt<T>(h: History<T>, t: int): (r: Result<Interval<T>, HistoryError>)
    ensures r.Success? ==> r.value in h.states && r.value.Contains(t)
    ensures r.Success? ==> exists k | 0 <= k < |h.states| ::
      h.states[k] == r.value && forall j | 0 <= j < k :: !h.states[j].Contains(t)
    ensures r.Failure? <==> forall j | 0 <= j < |h.states| :: !h.states[j].Contains(t)
    ensures r.Failure? ==> r.error == NoStateAt(t)
  {
    match IndexAt(h.states, t)
    case Some(k) => Success(h.states[k])
    case None => Failure(NoStateAt(t))
  }

  /** Oldest-first coverage without gaps or overlaps: each interval ends where the next starts. */
  predicate Chained<T>(states: seq<Interval<T>>) {
    forall i | 0 < i < |states| :: states[i - 1].end == states[i].start
  }

  /** Every interval has `start <= end`. */
  predicate Ordered<T>(states: seq<Interval<T>>) {
    forall i | 0 <= i < |states| :: states[i].start <= states[i].end
  }

  /**
   * On a chained, ordered oldest-first history every instant of `[lower_limit, upper_limit)`
   * is covered, so `state_at` never raises inside the window.
   */
  lemma {:induction false} StateAtCoversWindow<T>(states: seq<Interval<T>>, t: int)
    requires Chained(states) && Ordered(states) && states != []
    requires states[0].start <= t < states[|states| - 1].end
    ensures StateAt(History(states), t).Success?
    ensures IndexAt(states, t).Some?
  {
    if !states[0].Contains(t) {
      assert |states| > 1;
      assert states[1].start == states[0].end;
      StateAtCoversWindow(states[1..], t);
    }
  }

  /** On a chained history the instant `t` falls in at most one interval, so `state_at` is unambiguous. */
  lemma {:induction false} ChainedIntervalsDisjoint<T>(states: seq<Interval<T>>, i: nat, j: nat, t: int)
    requires Chained(states) && Ordered(states)
    requires i < j < |states|
    requires states[i].Contains(t)
    ensures !states[j].Contains(t)
  {
    if j == i + 1 {
    } else {
      ChainedIntervalsDisjoint(states, i, j - 1, t);
      assert states[i].end <= states[j - 1].end by { EndsIncrease(states, i, j - 1); }
    }
  }

  /** Along a chained, ordered history interval ends never decrease. */
  lemma {:induction false} EndsIncrease<T>(states: seq<Interval<T>>, i: nat, j: nat)
    requires Chained(states) && Ordered(states)
    requires i <= j < |states|
    ensures states[i].end <= states[j].end
    ensures i < j ==> states[i].end <= states[j].start
  {
    if i < j {
      EndsIncrease(states, i, j - 1);
      assert states[j - 1].end == states[j].start;
    }
  }
}
