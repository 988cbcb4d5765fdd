/** Sequence helpers shared by the history modules: reversal and first/last searches. */
module Seqs {
  import opened Wrappers

  /** Python's `xs[::-1]`. */
  function Reverse<T>(xs: seq<T>): (r: seq<T>)
    ensures |r| == |xs|
    ensures forall i | 0 <= i < |xs| :: r[i] == xs[|xs| - 1 - i]
  {
    if xs == [] then [] else [xs[|xs| - 1]] + Reverse(xs[..|xs| - 1])
  }

  /** The first index at or after `from` whose element satisfies `p`. */
  function FirstWhere<T>(xs: seq<T>, p: T -> bool, from: nat): (r: Option<nat>)
    ensures r.Some? ==> from <= r.value < |xs| && p(xs[r.value])
    ensures r.Some? ==> forall j | from <= j < r.value :: !p(xs[j])
    ensures r.None? ==> forall j | from <= j < |xs| :: !p(xs[j])
    decreases |xs| - from
  {
    if from >= |xs| then None
    else if p(xs[from]) then Some(from)
    else FirstWhere(xs, p, from + 1)
  }

  /** An index that satisfies `p` with none before it from `from` on is the one `FirstWhere` finds. */
  lemma FirstWhereIs<T>(xs: seq<T>, p: T -> bool, from: nat, k: nat)
    requires from <= k < |xs| && p(xs[k])
    requires forall j | from <= j < k :: !p(xs[j])
    ensures FirstWhere(xs, p, from) == Some(k)
  {
  }

  /** The last index strictly below `until` whose element satisfies `p`. */
  function LastWhere<T>(xs: seq<T>, p: T -> bool, until: nat): (r: Option<nat>)
    requires until <= |xs|
    ensures r.Some? ==> r.value < until && p(xs[r.value])
    ensures r.Some? ==> forall j | r.value < j < until :: !p(xs[j])
    ensures r.None? ==> forall j | 0 <= j < until :: !p(xs[j])
  {
    if until == 0 then None
    else if p(xs[until - 1]) then Some(until - 1)
    else LastWhere(xs, p, until - 1)
  }

  /** An index below `until` that satisfies `p` with none after it is the one `LastWhere` finds. */
  lemma LastWhereIs<T>(xs: seq<T>, p: T -> bool, until: nat, k: nat)
    requires k < until <= |xs| && p(xs[k])
    requires forall j | k < j < until :: !p(xs[j])
    ensures LastWhere(xs, p, until) == Some(k)
  {
  }
}
