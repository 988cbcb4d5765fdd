/**
 * Reconstruction of contiguous, merged state intervals from raw Home Assistant samples
 * (`_History.from_state_history` in both revisions of the Cosmo monitor).
 *
 * `Replay` is the reference definition of the replay loop: it takes the samples still pending
 * (oldest first, the newest is popped next) and the intervals emitted so far (newest first).
 * The two revisions differ only in the bound the "too late" test compares against and in
 * whether a per-entity filter hook is consulted; `Revision` selects between them.
 */
module Reconstruction {
  import opened Wrappers
  import opened Seqs
  import opened History

  /** The per-entity hook `filter_current_state_out(prev_state, curr_state, next_state)`. */
  type Filter<!T> = (Option<Sample<T>>, Sample<T>, Option<Interval<T>>) -> bool

  /** Current revision (apps/cosmo/...) or earlier revision (apps/cosmo_monitor/...). */
  datatype Revision = Current | Earlier

  /** The arguments of one `from_state_history` call, with "now" already substituted for a missing upper limit. */
  datatype Query<!T> = Query(
    revision: Revision,
    lower: int,
    upper: int,
    removeUnavailable: bool,
    unavailable: T,
    drop: Filter<T>)

  function Max(a: int, b: int): int { if a < b then b else a }

  // ---------------------------------------------------------------------------------------------
  // Sorting by last_updated (Python's stable `sorted`)

  predicate SortedByUpdated<T>(s: seq<Sample<T>>) {
    forall i, j | 0 <= i < j < |s| :: s[i].updated <= s[j].updated
  }

  /** Every key is at most `k`. */
  predicate UpdatedAtMost<T>(s: seq<Sample<T>>, k: int) {
    forall i | 0 <= i < |s| :: s[i].updated <= k
  }

  /** Inserts `x` after every element whose key is not greater, which keeps equal keys in input order. */
  function InsertByUpdated<T>(x: Sample<T>, s: seq<Sample<T>>): seq<Sample<T>> {
    if s == [] || s[|s| - 1].updated <= x.updated then s + [x]
    else InsertByUpdated(x, s[..|s| - 1]) + [s[|s| - 1]]
  }

  lemma {:induction false} InsertKeepsElements<T>(x: Sample<T>, s: seq<Sample<T>>)
    ensures multiset(InsertByUpdated(x, s)) == multiset(s) + multiset{x}
  {
    if !(s == [] || s[|s| - 1].updated <= x.updated) {
      InsertKeepsElements(x, s[..|s| - 1]);
      assert s == s[..|s| - 1] + [s[|s| - 1]];
    }
  }

  lemma {:induction false} InsertBounded<T>(x: Sample<T>, s: seq<Sample<T>>, k: int)
    requires UpdatedAtMost(s, k) && x.updated <= k
    ensures UpdatedAtMost(InsertByUpdated(x, s), k)
  {
    if !(s == [] || s[|s| - 1].updated <= x.updated) {
      InsertBounded(x, s[..|s| - 1], k);
    }
  }

  lemma {:induction false} InsertSorted<T>(x: Sample<T>, s: seq<Sample<T>>)
    requires SortedByUpdated(s)
    ensures SortedByUpdated(InsertByUpdated(x, s))
  {
    if !(s == [] || s[|s| - 1].updated <= x.updated) {
      var last := s[|s| - 1];
      InsertSorted(x, s[..|s| - 1]);
      InsertBounded(x, s[..|s| - 1], last.updated);
    }
  }

  /** Python's `sorted(samples, key=last_updated)`: a stable sort, by insertion of the last element. */
  function SortByUpdated<T>(s: seq<Sample<T>>): (r: seq<Sample<T>>)
    ensures SortedByUpdated(r)
    ensures multiset(r) == multiset(s)
  {
    if s == [] then []
    else
      var sorted := SortByUpdated(s[..|s| - 1]);
      InsertSorted(s[|s| - 1], sorted);
      InsertKeepsElements(s[|s| - 1], sorted);
      assert s == s[..|s| - 1] + [s[|s| - 1]];
      InsertByUpdated(s[|s| - 1], sorted)
  }

  /** The records whose `last_updated` is `k`, in their order in `s`. */
  function WithUpdated<T>(s: seq<Sample<T>>, k: int): seq<Sample<T>> {
    if s == [] then []
    else WithUpdated(s[..|s| - 1], k) + (if s[|s| - 1].updated == k then [s[|s| - 1]] else [])
  }

  /** Inserting `x` puts it after every record with the same key, whatever order `s` is in. */
  lemma {:induction false} InsertKeepsKeyOrder<T>(x: Sample<T>, s: seq<Sample<T>>, k: int)
    ensures WithUpdated(InsertByUpdated(x, s), k) == WithUpdated(s, k) + (if x.updated == k then [x] else [])
  {
    if !(s == [] || s[|s| - 1].updated <= x.updated) {
      var init, last := s[..|s| - 1], s[|s| - 1];
      var inserted := InsertByUpdated(x, init);
      InsertKeepsKeyOrder(x, init, k);
      assert (inserted + [last])[..|inserted + [last]| - 1] == inserted;
      if x.updated == k {
        assert last.updated != k;
      }
    } else {
      assert (s + [x])[..|s + [x]| - 1] == s;
    }
  }

  /**
   * The sort is stable: for every key, the records carrying it keep their input order.
   */
  lemma {:induction false} SortIsStable<T>(s: seq<Sample<T>>, k: int)
    ensures WithUpdated(SortByUpdated(s), k) == WithUpdated(s, k)
  {
    if s != [] {
      SortIsStable(s[..|s| - 1], k);
      InsertKeepsKeyOrder(s[|s| - 1], SortByUpdated(s[..|s| - 1]), k);
    }
  }

  /** Dropping the last record keeps a list sorted, and that record is not older than the one before it. */
  lemma SortedPrefix<T>(s: seq<Sample<T>>)
    requires s != [] && SortedByUpdated(s)
    ensures SortedByUpdated(s[..|s| - 1])
    ensures |s| > 1 ==> s[|s| - 2].updated <= s[|s| - 1].updated
  {
  }

  /** Sorting an already sorted list leaves it as it is. */
  lemma {:induction false} SortSortedIsIdentity<T>(s: seq<Sample<T>>)
    requires SortedByUpdated(s)
    ensures SortByUpdated(s) == s
  {
    if s != [] {
      var init, last := s[..|s| - 1], s[|s| - 1];
      SortedPrefix(s);
      SortSortedIsIdentity(init);
      assert InsertByUpdated(last, init) == init + [last];
      assert init + [last] == s;
    }
  }

  // ---------------------------------------------------------------------------------------------
  // `_get_previous_state`

  /** The index of the newest sample whose state is not the unavailable sentinel. */
  function NewestAvailable<T(==)>(h: seq<Sample<T>>, unavailable: T): (k: Option<nat>)
    ensures k.Some? ==> k.value < |h| && h[k.value].state != unavailable
    ensures k.Some? ==> forall j | k.value < j < |h| :: h[j].state == unavailable
    ensures k.None? ==> forall j | 0 <= j < |h| :: h[j].state == unavailable
  {
    if h == [] then None
    else if h[|h| - 1].state != unavailable then Some(|h| - 1)
    else NewestAvailable(h[..|h| - 1], unavailable)
  }

  /**
   * The sample the filter hook sees as `prev_state`: the newest remaining sample that is not
   * unavailable (when those are removed), else the newest remaining sample, else None.
   */
  function PreviousSample<T(==)>(h: seq<Sample<T>>, removeUnavailable: bool, unavailable: T): (r: Option<Sample<T>>)
    ensures r.None? <==> h == []
    ensures r.Some? ==> r.value in h
    ensures !removeUnavailable && h != [] ==> r == Some(h[|h| - 1])
    ensures removeUnavailable && r.Some? && r.value.state == unavailable ==>
              r == Some(h[|h| - 1]) && forall j | 0 <= j < |h| :: h[j].state == unavailable
    ensures removeUnavailable && r.Some? && r.value.state != unavailable ==>
              exists k | 0 <= k < |h| :: h[k] == r.value && forall j | k < j < |h| :: h[j].state == unavailable
  {
    var k := if removeUnavailable then NewestAvailable(h, unavailable) else None;
    if k.Some? then Some(h[k.value])
    else if h == [] then None
    else Some(h[|h| - 1])
  }

  // ---------------------------------------------------------------------------------------------
  // The replay loop

  /** The most recently emitted interval, which the hook sees as `next_state`. */
  function Newest<T>(merged: seq<Interval<T>>): (r: Option<Interval<T>>)
    ensures r.None? <==> merged == []
    ensures r.Some? ==> r.value == merged[|merged| - 1]
  {
    if merged == [] then None else Some(merged[|merged| - 1])
  }

  /**
   * The bound the "changed too late" test uses. In the current revision `end_time` is reassigned
   * on every emission, so it is the end of the newest emitted interval; the earlier revision
   * always compares against the requested upper limit.
   */
  function SkipBound<T>(q: Query<T>, merged: seq<Interval<T>>): int {
    if q.revision == Earlier || merged == [] then q.upper else merged[|merged| - 1].end
  }

  /** Whether the sample `s`, popped with `rest` still pending, is ignored. */
  predicate Skips<T(==)>(q: Query<T>, rest: seq<Sample<T>>, s: Sample<T>, merged: seq<Interval<T>>) {
    || s.changed > SkipBound(q, merged)
    || (q.removeUnavailable && s.state == q.unavailable)
    || (q.revision == Current && q.drop(PreviousSample(rest, q.removeUnavailable, q.unavailable), s, Newest(merged)))
  }

  /** The emitted list with the newest interval's start moved to `start` (the same-state merge). */
  function SetNewestStart<T>(merged: seq<Interval<T>>, start: int): seq<Interval<T>>
    requires merged != []
  {
    merged[|merged| - 1 := merged[|merged| - 1].(start := start)]
  }

  /** Reference definition of the replay loop; the result is newest first. */
  function Replay<T(==)>(q: Query<T>, pending: seq<Sample<T>>, merged: seq<Interval<T>>): seq<Interval<T>>
    decreases |pending|
  {
    if pending == [] then merged
    else
      var s, rest := pending[|pending| - 1], pending[..|pending| - 1];
      if Skips(q, rest, s, merged) then Replay(q, rest, merged)
      else
        var start := Max(q.lower, s.changed);
        if merged != [] && merged[|merged| - 1].state == s.state then
          Replay(q, rest, SetNewestStart(merged, start))
        else
          var end := if merged == [] then q.upper else merged[|merged| - 1].start;
          var emitted := merged + [Interval(s.state, start, end)];
          if s.changed < q.lower then emitted else Replay(q, rest, emitted)
  }

  /** The whole reconstruction: sort, then replay from an empty emitted list. Newest first. */
  function Reconstruct<T(==)>(q: Query<T>, samples: seq<Sample<T>>): seq<Interval<T>> {
    Replay(q, SortByUpdated(samples), [])
  }

  /** `merged_states if reverse else merged_states[::-1]`. */
  function InOrder<T>(merged: seq<Interval<T>>, reverse: bool): seq<Interval<T>> {
    if reverse then merged else Reverse(merged)
  }

  /** The base hook `filter_current_state_out`: never drops a sample. */
  function KeepAll<T>(prev: Option<Sample<T>>, curr: Sample<T>, next: Option<Interval<T>>): bool {
    false
  }

  /** The hook never drops anything. */
  ghost predicate NeverDrops<T(!new)>(f: Filter<T>) {
    forall p, s, n :: !f(p, s, n)
  }

  /** Under the base hook a sample is skipped only when it changed too late or is an unavailable sample being removed. */
  lemma KeepAllSkipsOnlyLateOrUnavailable<T(!new)>(q: Query<T>, rest: seq<Sample<T>>, s: Sample<T>, merged: seq<Interval<T>>)
    requires NeverDrops(q.drop)
    ensures NeverDrops(KeepAll<T>)
    ensures Skips(q, rest, s, merged) <==> s.changed > SkipBound(q, merged) || (q.removeUnavailable && s.state == q.unavailable)
  {
  }

  // ---------------------------------------------------------------------------------------------
  // Properties of the emitted (newest-first) list

  /** The newest interval ends at the upper limit; every later one ends where the one emitted before it starts. */
  predicate Contiguous<T>(m: seq<Interval<T>>, upper: int) {
    && (m != [] ==> m[0].end == upper)
    && forall i | 0 < i < |m| :: m[i].end == m[i - 1].start
  }

  /** No two consecutively emitted intervals share a state. */
  predicate Alternating<T(==)>(m: seq<Interval<T>>) {
    forall i | 0 < i < |m| :: m[i].state != m[i - 1].state
  }

  /** Every start is clamped to the lower limit. */
  predicate StartsFrom<T>(m: seq<Interval<T>>, lower: int) {
    forall i | 0 <= i < |m| :: lower <= m[i].start
  }

  /** No interval carries the given state. */
  predicate Avoids<T(==)>(m: seq<Interval<T>>, state: T) {
    forall i | 0 <= i < |m| :: m[i].state != state
  }

  /** Every interval's state is the state of one of the given samples. */
  predicate StatesFrom<T(==)>(m: seq<Interval<T>>, samples: seq<Sample<T>>) {
    forall i | 0 <= i < |m| :: exists k | 0 <= k < |samples| :: samples[k].state == m[i].state
  }

  /** Replay never rewrites an interval other than the newest one, and never drops one. */
  lemma {:induction false} ReplayOnlyGrows<T>(q: Query<T>, pending: seq<Sample<T>>, merged: seq<Interval<T>>)
    ensures |merged| <= |Replay(q, pending, merged)| <= |merged| + |pending|
    ensures merged != [] ==> Replay(q, pending, merged)[..|merged| - 1] == merged[..|merged| - 1]
    ensures merged != [] ==> Replay(q, pending, merged)[|merged| - 1].state == merged[|merged| - 1].state
    ensures merged != [] ==> Replay(q, pending, merged)[|merged| - 1].end == merged[|merged| - 1].end
    decreases |pending|
  {
    if pending != [] {
      var s, rest := pending[|pending| - 1], pending[..|pending| - 1];
      if Skips(q, rest, s, merged) {
        ReplayOnlyGrows(q, rest, merged);
      } else {
        var start := Max(q.lower, s.changed);
        if merged != [] && merged[|merged| - 1].state == s.state {
          var m' := SetNewestStart(merged, start);
          ReplayOnlyGrows(q, rest, m');
          assert m'[..|merged| - 1] == merged[..|merged| - 1];
        } else {
          var end := if merged == [] then q.upper else merged[|merged| - 1].start;
          var emitted := merged + [Interval(s.state, start, end)];
          if s.changed >= q.lower {
            ReplayOnlyGrows(q, rest, emitted);
            assert emitted[..|merged|] == merged;
            assert merged != [] ==> emitted[..|merged| - 1] == merged[..|merged| - 1];
          }
        }
      }
    }
  }

  /**
   * The replay keeps the emitted list contiguous below the upper limit, free of repeated
   * adjacent states, clamped to the lower limit, and (when unavailable states are removed)
   * free of the unavailable sentinel.
   */
  lemma {:induction false} ReplayWellFormed<T>(q: Query<T>, pending: seq<Sample<T>>, merged: seq<Interval<T>>)
    requires Contiguous(merged, q.upper) && Alternating(merged) && StartsFrom(merged, q.lower)
    requires q.removeUnavailable ==> Avoids(merged, q.unavailable)
    ensures Contiguous(Replay(q, pending, merged), q.upper)
    ensures Alternating(Replay(q, pending, merged))
    ensures StartsFrom(Replay(q, pending, merged), q.lower)
    ensures q.removeUnavailable ==> Avoids(Replay(q, pending, merged), q.unavailable)
    decreases |pending|
  {
    if pending != [] {
      var s, rest := pending[|pending| - 1], pending[..|pending| - 1];
      if Skips(q, rest, s, merged) {
        ReplayWellFormed(q, rest, merged);
      } else {
        var start := Max(q.lower, s.changed);
        if merged != [] && merged[|merged| - 1].state == s.state {
          ReplayWellFormed(q, rest, SetNewestStart(merged, start));
        } else {
          var end := if merged == [] then q.upper else merged[|merged| - 1].start;
          var emitted := merged + [Interval(s.state, start, end)];
          assert Contiguous(emitted, q.upper);
          if s.changed >= q.lower {
            ReplayWellFormed(q, rest, emitted);
          }
        }
      }
    }
  }

  /** Every reconstructed interval takes its state from a sample. */
  lemma {:induction false} ReplayStatesFromSamples<T>(q: Query<T>, pending: seq<Sample<T>>, merged: seq<Interval<T>>, all: seq<Sample<T>>)
    requires StatesFrom(merged, all)
    requires forall k | 0 <= k < |pending| :: pending[k] in all
    ensures StatesFrom(Replay(q, pending, merged), all)
    decreases |pending|
  {
    if pending != [] {
      var s, rest := pending[|pending| - 1], pending[..|pending| - 1];
      assert s in all;
      var k :| 0 <= k < |all| && all[k] == s;
      if Skips(q, rest, s, merged) {
        ReplayStatesFromSamples(q, rest, merged, all);
      } else {
        var start := Max(q.lower, s.changed);
        if merged != [] && merged[|merged| - 1].state == s.state {
          ReplayStatesFromSamples(q, rest, SetNewestStart(merged, start), all);
        } else {
          var end := if merged == [] then q.upper else merged[|merged| - 1].start;
          var emitted := merged + [Interval(s.state, start, end)];
          assert emitted[|merged|].state == all[k].state;
          assert StatesFrom(emitted, all);
          if s.changed >= q.lower {
            ReplayStatesFromSamples(q, rest, emitted, all);
          }
        }
      }
    }
  }

  /** A skipped sample produces no interval and leaves the emitted intervals as they were. */
  lemma SkippedSampleContributesNothing<T>(q: Query<T>, rest: seq<Sample<T>>, s: Sample<T>, merged: seq<Interval<T>>)
    requires Skips(q, rest, s, merged)
    ensures Replay(q, rest + [s], merged) == Replay(q, rest, merged)
  {
    assert (rest + [s])[..|rest|] == rest;
  }

  /**
   * A same-state sample moves the newest interval's start and emits nothing, and it does not
   * end the loop even when it predates the lower limit (the `continue` jumps over the `break`).
   */
  lemma SameStateSampleMerges<T>(q: Query<T>, rest: seq<Sample<T>>, s: Sample<T>, merged: seq<Interval<T>>)
    requires !Skips(q, rest, s, merged)
    requires merged != [] && merged[|merged| - 1].state == s.state
    ensures Replay(q, rest + [s], merged) == Replay(q, rest, SetNewestStart(merged, Max(q.lower, s.changed)))
  {
    assert (rest + [s])[..|rest|] == rest;
  }

  /**
   * A sample with a new state that changed within the window is emitted from its change to the
   * start of the newer interval (or to the upper limit), and the replay goes on.
   */
  lemma NewStateSampleEmitted<T>(q: Query<T>, rest: seq<Sample<T>>, s: Sample<T>, merged: seq<Interval<T>>)
    requires !Skips(q, rest, s, merged)
    requires merged == [] || merged[|merged| - 1].state != s.state
    requires s.changed >= q.lower
    ensures Replay(q, rest + [s], merged) ==
              Replay(q, rest, merged + [Interval(s.state, s.changed, if merged == [] then q.upper else merged[|merged| - 1].start)])
  {
    assert (rest + [s])[..|rest|] == rest;
  }

  /**
   * A sample with a new state that changed before the lower limit is emitted clamped to the
   * lower limit, and nothing older is looked at.
   */
  lemma SampleBeforeLowerLimitEndsReplay<T>(q: Query<T>, rest: seq<Sample<T>>, s: Sample<T>, merged: seq<Interval<T>>)
    requires !Skips(q, rest, s, merged)
    requires merged == [] || merged[|merged| - 1].state != s.state
    requires s.changed < q.lower
    ensures Replay(q, rest + [s], merged) ==
              merged + [Interval(s.state, q.lower, if merged == [] then q.upper else merged[|merged| - 1].start)]
  {
    assert (rest + [s])[..|rest|] == rest;
  }

  // ---------------------------------------------------------------------------------------------
  // Well-ordered input: last_changed never decreases along last_updated

  /** In this order, `last_changed` never decreases. */
  predicate ChangedInOrder<T>(s: seq<Sample<T>>) {
    forall i, j | 0 <= i < j < |s| :: s[i].changed <= s[j].changed
  }

  /** A record updated no earlier than another also changed no earlier (Home Assistant's own ordering). */
  predicate ChangedFollowsUpdated<T>(s: seq<Sample<T>>) {
    forall i, j | 0 <= i < |s| && 0 <= j < |s| && s[i].updated <= s[j].updated :: s[i].changed <= s[j].changed
  }

  /** Sorting by last_updated puts such records in last_changed order too. */
  lemma SortedFollowsChanged<T>(s: seq<Sample<T>>)
    requires ChangedFollowsUpdated(s)
    ensures ChangedInOrder(SortByUpdated(s))
  {
    var r := SortByUpdated(s);
    forall i, j | 0 <= i < j < |r| ensures r[i].changed <= r[j].changed {
      assert r[i] in multiset(s) && r[j] in multiset(s);
      var a :| 0 <= a < |s| && s[a] == r[i];
      var b :| 0 <= b < |s| && s[b] == r[j];
    }
  }

  /** Every end is at most the upper limit. */
  predicate EndsBy<T>(m: seq<Interval<T>>, upper: int) {
    forall i | 0 <= i < |m| :: m[i].end <= upper
  }

  /** Every pending sample's clamped start is at most the newest emitted start. */
  predicate Dominated<T>(q: Query<T>, pending: seq<Sample<T>>, merged: seq<Interval<T>>) {
    merged != [] ==> forall i | 0 <= i < |pending| :: Max(q.lower, pending[i].changed) <= merged[|merged| - 1].start
  }

  /**
   * With well-ordered input every interval has `start <= end` and a same-state merge only pulls
   * the newest start back.
   */
  lemma {:induction false} ReplayOrdered<T>(q: Query<T>, pending: seq<Sample<T>>, merged: seq<Interval<T>>)
    requires q.lower <= q.upper
    requires ChangedInOrder(pending) && Dominated(q, pending, merged)
    requires Ordered(merged) && EndsBy(merged, q.upper)
    ensures Ordered(Replay(q, pending, merged))
    ensures EndsBy(Replay(q, pending, merged), q.upper)
    decreases |pending|
  {
    if pending != [] {
      var s, rest := pending[|pending| - 1], pending[..|pending| - 1];
      assert ChangedInOrder(rest);
      if Skips(q, rest, s, merged) {
        assert Dominated(q, rest, merged);
        ReplayOrdered(q, rest, merged);
      } else {
        var start := Max(q.lower, s.changed);
        assert forall i | 0 <= i < |rest| :: Max(q.lower, rest[i].changed) <= start by {
          assert forall i | 0 <= i < |rest| :: rest[i].changed <= s.changed by {
            assert forall i | 0 <= i < |rest| :: rest[i] == pending[i];
          }
        }
        if merged != [] && merged[|merged| - 1].state == s.state {
          var m' := SetNewestStart(merged, start);
          assert start <= merged[|merged| - 1].start by {
            assert pending[|pending| - 1] == s;
          }
          ReplayOrdered(q, rest, m');
        } else {
          var end := if merged == [] then q.upper else merged[|merged| - 1].start;
          if merged != [] {
            assert pending[|pending| - 1] == s;
          }
          var emitted := merged + [Interval(s.state, start, end)];
          assert Ordered(emitted);
          if s.changed >= q.lower {
            ReplayOrdered(q, rest, emitted);
          }
        }
      }
    }
  }

  /**
   * With well-ordered input and the default hook, the current revision's moving bound never
   * skips a sample the earlier revision's fixed bound keeps: both revisions reconstruct the same
   * intervals.
   */
  lemma {:induction false} RevisionsAgreeOnOrderedInput<T(!new)>(q: Query<T>, pending: seq<Sample<T>>, merged: seq<Interval<T>>)
    requires NeverDrops(q.drop) && q.lower <= q.upper
    requires ChangedInOrder(pending) && Dominated(q, pending, merged)
    requires Ordered(merged) && EndsBy(merged, q.upper)
    ensures Replay(q.(revision := Current), pending, merged) == Replay(q.(revision := Earlier), pending, merged)
    decreases |pending|
  {
    var c, e := q.(revision := Current), q.(revision := Earlier);
    if pending != [] {
      var s, rest := pending[|pending| - 1], pending[..|pending| - 1];
      assert ChangedInOrder(rest);
      assert Skips(c, rest, s, merged) == Skips(e, rest, s, merged) by {
        if merged != [] {
          assert pending[|pending| - 1] == s;
          assert s.changed <= merged[|merged| - 1].start;
        }
      }
      var start := Max(q.lower, s.changed);
      assert forall i | 0 <= i < |rest| :: Max(q.lower, rest[i].changed) <= start by {
        assert forall i | 0 <= i < |rest| :: rest[i] == pending[i];
      }
      if Skips(c, rest, s, merged) {
        assert Dominated(q, rest, merged);
        RevisionsAgreeOnOrderedInput(q, rest, merged);
      } else if merged != [] && merged[|merged| - 1].state == s.state {
        var m' := SetNewestStart(merged, start);
        assert start <= merged[|merged| - 1].start by {
          assert pending[|pending| - 1] == s;
        }
        RevisionsAgreeOnOrderedInput(q, rest, m');
      } else {
        var end := if merged == [] then q.upper else merged[|merged| - 1].start;
        if merged != [] {
          assert pending[|pending| - 1] == s;
        }
        var emitted := merged + [Interval(s.state, start, end)];
        if s.changed >= q.lower {
          RevisionsAgreeOnOrderedInput(q, rest, emitted);
        }
      }
    }
  }

  // ---------------------------------------------------------------------------------------------
  // Oldest-first results

  /** Reversing a contiguous newest-first list gives a chained oldest-first list ending at the upper limit. */
  lemma ReverseIsChained<T>(m: seq<Interval<T>>, upper: int)
    requires Contiguous(m, upper)
    ensures Chained(Reverse(m))
    ensures m != [] ==> Reverse(m)[|m| - 1].end == upper
  {
    var r := Reverse(m);
    forall i | 0 < i < |r| ensures r[i - 1].end == r[i].start {
      assert r[i - 1] == m[|m| - i] && r[i] == m[|m| - 1 - i];
    }
  }

  /**
   * The reconstruction of the current revision, oldest first: contiguous, ending at the upper
   * limit, clamped to the lower limit, free of repeated adjacent states and, for well-ordered
   * input in a non-empty window, with `start <= end` throughout, so that `state_at` succeeds for
   * every instant between `lower_limit` and `upper_limit`.
   */
  lemma ReconstructionCoversWindow<T>(q: Query<T>, samples: seq<Sample<T>>)
    ensures var h := Reverse(Reconstruct(q, samples));
      && Chained(h)
      && (h != [] ==> h[|h| - 1].end == q.upper && q.lower <= h[0].start)
      && (forall i | 0 < i < |h| :: h[i - 1].state != h[i].state)
      && (q.removeUnavailable ==> forall i | 0 <= i < |h| :: h[i].state != q.unavailable)
    ensures q.lower <= q.upper && ChangedFollowsUpdated(samples) ==>
      var h := Reverse(Reconstruct(q, samples));
      Ordered(h) && (h != [] ==> forall t | h[0].start <= t < q.upper :: StateAt(History(h), t).Success?)
  {
    var m := Reconstruct(q, samples);
    ReplayWellFormed(q, SortByUpdated(samples), []);
    ReversedIsWellFormed(q, m);
    if q.lower <= q.upper && ChangedFollowsUpdated(samples) {
      SortedFollowsChanged(samples);
      ReplayOrdered(q, SortByUpdated(samples), []);
      ReversedCoversWindow(m, q.upper);
    }
  }

  /** Reversing a well-formed emitted list gives a chained, alternating oldest-first history. */
  lemma ReversedIsWellFormed<T>(q: Query<T>, m: seq<Interval<T>>)
    requires Contiguous(m, q.upper) && Alternating(m) && StartsFrom(m, q.lower)
    requires q.removeUnavailable ==> Avoids(m, q.unavailable)
    ensures var h := Reverse(m);
      && Chained(h)
      && (h != [] ==> h[|h| - 1].end == q.upper && q.lower <= h[0].start)
      && (forall i | 0 < i < |h| :: h[i - 1].state != h[i].state)
      && (q.removeUnavailable ==> forall i | 0 <= i < |h| :: h[i].state != q.unavailable)
  {
    ReverseIsChained(m, q.upper);
    var h := Reverse(m);
    forall i | 0 < i < |h| ensures h[i - 1].state != h[i].state {
      assert h[i - 1] == m[|m| - i] && h[i] == m[|m| - 1 - i];
    }
  }

  /** Reversing a contiguous, ordered emitted list gives a history `state_at` covers up to the upper limit. */
  lemma ReversedCoversWindow<T>(m: seq<Interval<T>>, upper: int)
    requires Contiguous(m, upper) && Ordered(m)
    ensures var h := Reverse(m);
      Ordered(h) && (h != [] ==> forall t | h[0].start <= t < upper :: StateAt(History(h), t).Success?)
  {
    ReverseIsChained(m, upper);
    var h := Reverse(m);
    assert Ordered(h);
    if h != [] {
      forall t | h[0].start <= t < upper ensures StateAt(History(h), t).Success? {
        StateAtCoversWindow(h, t);
      }
    }
  }

  /** In a contiguous, ordered newest-first list every older interval ends no later than the newest one starts. */
  lemma {:induction false} OlderEndsBeforeNewestStart<T>(m: seq<Interval<T>>, upper: int, i: nat)
    requires Contiguous(m, upper) && Ordered(m)
    requires 0 < i < |m|
    ensures m[i].end <= m[0].start
  {
    if i > 1 {
      OlderEndsBeforeNewestStart(m, upper, i - 1);
    }
  }

  /**
   * The current revision computes `lower_limit`/`upper_limit` from `states[0]`/`states[-1]`: for
   * a newest-first (`reverse=True`) history these are the newest interval's start and the oldest
   * interval's end, so with two or more intervals (and well-ordered input) `duration` is not positive.
   */
  lemma ReversedLimitsWrongEnded<T>(q: Query<T>, samples: seq<Sample<T>>)
    requires q.lower <= q.upper && ChangedFollowsUpdated(samples)
    ensures var h := History(InOrder(Reconstruct(q, samples), true));
      && (h.states != [] ==> LowerLimit(h) == Success(h.states[0].start) && UpperLimit(h) == Success(h.states[|h.states| - 1].end))
      && (|h.states| >= 2 ==> Duration(h).value <= 0)
  {
    var m := Reconstruct(q, samples);
    ReplayWellFormed(q, SortByUpdated(samples), []);
    SortedFollowsChanged(samples);
    ReplayOrdered(q, SortByUpdated(samples), []);
    if |m| >= 2 {
      OlderEndsBeforeNewestStart(m, q.upper, |m| - 1);
    }
  }

  // ---------------------------------------------------------------------------------------------
  // The current revision's `from_state_history`

  /**
   * `_History.from_state_history` of the current revision. `response` is what the history API
   * returned (one result set per entity); `upper` is the upper limit, or "now" when none was given.
   */
  method FromStateHistory<T(==)>(
    response: seq<seq<Sample<T>>>, lower: int, upper: int, removeUnavailable: bool, reverse: bool,
    unavailable: T, drop: Filter<T>)
    returns (r: Result<History<T>, HistoryError>)
    ensures |response| != 1 ==> r == Failure(UnexpectedResponse(|response|))
    ensures |response| == 1 ==>
      r == Success(History(InOrder(Reconstruct(Query(Current, lower, upper, removeUnavailable, unavailable, drop), response[0]), reverse)))
  {
    if |response| != 1 {
      return Failure(UnexpectedResponse(|response|));
    }
    ghost var q := Query(Current, lower, upper, removeUnavailable, unavailable, drop);
    var stateHistory := SortByUpdated(response[0]);  // oldest -> newest
    var merged: seq<Interval<T>> := [];
    var endTime := upper;
    while stateHistory != []
      invariant Replay(q, stateHistory, merged) == Reconstruct(q, response[0])
      invariant endTime == SkipBound(q, merged)
      decreases |stateHistory|
    {
      var state := stateHistory[|stateHistory| - 1];  // most recent state
      stateHistory := stateHistory[..|stateHistory| - 1];
      var nextState := if merged == [] then None else Some(merged[|merged| - 1]);
      if || state.changed > endTime
         || (removeUnavailable && state.state == unavailable)
         || drop(PreviousSample(stateHistory, removeUnavailable, unavailable), state, nextState)
      {
        continue;
      }
      var startTime := Max(lower, state.changed);
      if nextState.Some? {
        if nextState.value.state == state.state {
          merged := merged[|merged| - 1 := nextState.value.(start := startTime)];
          continue;
        }
        endTime := nextState.value.start;
      }
      merged := merged + [Interval(state.state, startTime, endTime)];
      if state.changed < lower {
        break;
      }
    }
    return Success(History(if reverse then merged else Reverse(merged)));
  }
}
