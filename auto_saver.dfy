/**
 * The Monzo auto-saver (apps/monzo/auto_saver.py): it keeps the Amex and Monzo transactions
 * made since the last auto-save, works out how much to save from them (round-ups, a percentage
 * of incoming payments, a percentage of "naughty" spending, 79p per liked song and a fixed
 * minimum) and publishes that amount; flipping a switch deposits it and moves the last-save time.
 *
 * Amounts are integer pence and timestamps integer microseconds. Both banks' records share one
 * shape: a Monzo amount is negative for money leaving the account, an Amex amount is positive
 * for spending.
 */
module AutoSaving {
  import opened Wrappers
  import opened Text
  import opened Time

  const SPOTIFY_PENCE_PER_TRACK: int := 79
  const NO_PATTERN_NOTE: string := "No pattern set!"
  const POT_PREFIX: string := "pot_"
  const UNKNOWN_STATES: set<string> := {"unavailable", "unknown"}

  datatype Transaction = Transaction(amount: int, description: string, at: int)

  /** The entity values `calculate` reads, already converted (`minimum` in pence, percentages as fractions). */
  datatype Settings = Settings(
    minimum: int,
    debitPercentage: real,
    naughtyPattern: string,
    naughtySearch: string -> bool,   // re.search with the compiled pattern, case-insensitive
    naughtyPercentage: real)

  // ---------------------------------------------------------------------------------------------
  // Windowing and the fetch cursor

  /** The records made at or after `t`, in their original order. */
  function Since(txs: seq<Transaction>, t: int): (r: seq<Transaction>)
    ensures forall x :: x in r <==> x in txs && x.at >= t
    ensures |r| <= |txs|
  {
    if txs == [] then []
    else (if txs[0].at >= t then [txs[0]] else []) + Since(txs[1..], t)
  }

  /** Windowing distributes over appending, so it commutes with extending the list. */
  lemma {:induction false} SinceAppend(a: seq<Transaction>, b: seq<Transaction>, t: int)
    ensures Since(a + b, t) == Since(a, t) + Since(b, t)
  {
    if a == [] {
      assert a + b == b;
    } else {
      assert (a + b)[0] == a[0];
      assert (a + b)[1..] == a[1..] + b;
      SinceAppend(a[1..], b, t);
    }
  }

  /** Windowing twice is windowing once: re-reading the property changes nothing. */
  lemma {:induction false} SinceIdempotent(txs: seq<Transaction>, t: int)
    ensures Since(Since(txs, t), t) == Since(txs, t)
  {
    if txs != [] {
      SinceIdempotent(txs[1..], t);
      var head := if txs[0].at >= t then [txs[0]] else [];
      SinceAppend(head, Since(txs[1..], t), t);
      assert Since(head, t) == head by {
        if head != [] { assert head[1..] == []; }
      }
    }
  }

  /** The newest timestamp in a non-empty list (`max(transactions, key=...)`). */
  function NewestStamp(txs: seq<Transaction>): (m: int)
    requires txs != []
    ensures forall i | 0 <= i < |txs| :: txs[i].at <= m
    ensures exists i | 0 <= i < |txs| :: txs[i].at == m
  {
    if |txs| == 1 then txs[0].at
    else
      var rest := NewestStamp(txs[1..]);
      assert forall i | 1 <= i < |txs| :: txs[i] == txs[1..][i - 1];
      if txs[0].at >= rest then txs[0].at else rest
  }

  /** Where fetching resumes: the last auto-save for an empty list, else one second after the newest record. */
  function FetchCursor(txs: seq<Transaction>, lastAutoSave: int): (c: int)
    ensures txs == [] ==> c == lastAutoSave
    ensures forall i | 0 <= i < |txs| :: txs[i].at + SECOND <= c
    ensures txs != [] ==> exists i | 0 <= i < |txs| :: txs[i].at + SECOND == c
  {
    if txs == [] then lastAutoSave else NewestStamp(txs) + SECOND
  }

  // ---------------------------------------------------------------------------------------------
  // Round-ups

  /** A Monzo round-up: the pence to the next whole pound of a spend, with floor modulo. */
  function MonzoRoundUp(amount: int): (r: int)
    ensures 1 <= r <= 100
    ensures r == 100 <==> amount % 100 == 0
  {
    100 - ((-amount) % 100)
  }

  /** An Amex round-up, on an amount already in pence. */
  function AmexRoundUp(amount: int): (r: int)
    ensures 1 <= r <= 100
    ensures r == 100 <==> amount % 100 == 0
  {
    100 - (amount % 100)
  }

  function MonzoRoundUps(txs: seq<Transaction>): (r: int)
    ensures |txs| <= r <= 100 * |txs|
  {
    if txs == [] then 0 else MonzoRoundUp(txs[0].amount) + MonzoRoundUps(txs[1..])
  }

  function AmexRoundUps(txs: seq<Transaction>): (r: int)
    ensures |txs| <= r <= 100 * |txs|
  {
    if txs == [] then 0 else AmexRoundUp(txs[0].amount) + AmexRoundUps(txs[1..])
  }

  /** `_get_round_up_pence`: every transaction rounds up by between 1p and £1. */
  function RoundUpPence(monzo: seq<Transaction>, amex: seq<Transaction>): (r: int)
    ensures |monzo| + |amex| <= r <= 100 * (|monzo| + |amex|)
  {
    MonzoRoundUps(monzo) + AmexRoundUps(amex)
  }

  /** Whole-pound spending rounds up by a full pound each. */
  lemma {:induction false} WholePoundsRoundUpFully(monzo: seq<Transaction>)
    requires forall i | 0 <= i < |monzo| :: monzo[i].amount % 100 == 0
    ensures MonzoRoundUps(monzo) == 100 * |monzo|
  {
    if monzo != [] {
      WholePoundsRoundUpFully(monzo[1..]);
    }
  }

  // ---------------------------------------------------------------------------------------------
  // Percentage of incoming payments

  /** A percentage of an amount of pence, truncated toward zero as `int()` does. */
  function Share(base: int, percentage: real): int {
    Truncate(percentage * base as real)
  }

  /** A non-negative share of a non-negative sum is a non-negative amount, and never more than the share. */
  lemma NonNegativeShare(base: int, percentage: real)
    requires base >= 0 && percentage >= 0.0
    ensures 0 <= Share(base, percentage)
    ensures Share(base, percentage) as real <= percentage * base as real
  {
    assert percentage * base as real >= 0.0;
  }

  /** Counted: money coming in that is not a withdrawal from a pot. */
  predicate DebitCounted(tx: Transaction) {
    tx.amount > 0 && !StartsWith(tx.description, POT_PREFIX)
  }

  /**
   * One line of a breakdown: a counted transaction's amount in pence and its description
   * (rendered by the app as `£<pounds> @ <description>`), or a fixed note.
   */
  datatype Line = Entry(pence: nat, description: string) | Note(text: string)

  /** The sum the percentage is taken of, accumulated oldest to newest. */
  function DebitBase(txs: seq<Transaction>): int {
    if txs == [] then 0
    else
      var last := txs[|txs| - 1];
      DebitBase(txs[..|txs| - 1]) + (if DebitCounted(last) then last.amount else 0)
  }

  function DebitBreakdown(txs: seq<Transaction>): seq<Line> {
    if txs == [] then []
    else
      var last := txs[|txs| - 1];
      DebitBreakdown(txs[..|txs| - 1]) + (if DebitCounted(last) then [Entry(last.amount, last.description)] else [])
  }

  /** The counted transactions, in order. */
  function Counted(txs: seq<Transaction>): (r: seq<Transaction>)
    ensures forall x :: x in r <==> x in txs && DebitCounted(x)
  {
    if txs == [] then []
    else
      var last := txs[|txs| - 1];
      assert forall x :: x in txs <==> x in txs[..|txs| - 1] || x == last by {
        assert txs == txs[..|txs| - 1] + [last];
      }
      Counted(txs[..|txs| - 1]) + (if DebitCounted(last) then [last] else [])
  }

  function SumAmounts(txs: seq<Transaction>): int {
    if txs == [] then 0 else SumAmounts(txs[..|txs| - 1]) + txs[|txs| - 1].amount
  }

  /** The base is the sum over the counted transactions and the breakdown has one line for each. */
  lemma {:induction false} DebitBaseIsCountedSum(txs: seq<Transaction>)
    ensures DebitBase(txs) == SumAmounts(Counted(txs))
    ensures |DebitBreakdown(txs)| == |Counted(txs)|
    ensures DebitBase(txs) >= 0
    ensures DebitBase(txs) > 0 <==> Counted(txs) != []
  {
    if txs != [] {
      DebitBaseIsCountedSum(txs[..|txs| - 1]);
      var c := Counted(txs[..|txs| - 1]);
      var last := txs[|txs| - 1];
      if DebitCounted(last) {
        assert (c + [last])[..|c + [last]| - 1] == c;
      } else {
        assert c + [] == c;
      }
    }
  }

  /** `_get_percentage_of_debit_transactions_value`. */
  method DebitTransactionsValue(txs: seq<Transaction>, percentage: real) returns (saving: int, breakdown: seq<Line>)
    ensures saving == Share(DebitBase(txs), percentage)
    ensures breakdown == DebitBreakdown(txs)
  {
    var amount := 0;
    breakdown := [];
    var i := 0;
    while i < |txs|
      invariant 0 <= i <= |txs|
      invariant amount == DebitBase(txs[..i])
      invariant breakdown == DebitBreakdown(txs[..i])
    {
      var tx := txs[i];
      assert txs[..i + 1][..i] == txs[..i];
      if tx.amount <= 0 || StartsWith(tx.description, POT_PREFIX) {
        i := i + 1;
        continue;
      }
      amount := amount + tx.amount;
      breakdown := breakdown + [Entry(tx.amount, tx.description)];
      i := i + 1;
    }
    assert txs[..|txs|] == txs;
    assert amount == DebitBase(txs);
    saving := Share(amount, percentage);
  }

  // ---------------------------------------------------------------------------------------------
  // Percentage of naughty spending

  predicate AmexNaughty(search: string -> bool, tx: Transaction) { search(tx.description) && tx.amount > 0 }
  predicate MonzoNaughty(search: string -> bool, tx: Transaction) { search(tx.description) && tx.amount < 0 }

  /** Matching Amex spending, in pence (never negative). */
  function NaughtyAmex(search: string -> bool, txs: seq<Transaction>): (r: int)
    ensures r >= 0
  {
    if txs == [] then 0
    else
      var last := txs[|txs| - 1];
      NaughtyAmex(search, txs[..|txs| - 1]) + (if AmexNaughty(search, last) then last.amount else 0)
  }

  /** Matching Monzo spending, in (negative) pence. */
  function NaughtyMonzo(search: string -> bool, txs: seq<Transaction>): (r: int)
    ensures r <= 0
  {
    if txs == [] then 0
    else
      var last := txs[|txs| - 1];
      NaughtyMonzo(search, txs[..|txs| - 1]) + (if MonzoNaughty(search, last) then last.amount else 0)
  }

  function NaughtyAmexBreakdown(search: string -> bool, txs: seq<Transaction>): seq<Line> {
    if txs == [] then []
    else
      var last := txs[|txs| - 1];
      NaughtyAmexBreakdown(search, txs[..|txs| - 1]) +
        (if AmexNaughty(search, last) then [Entry(last.amount, last.description)] else [])
  }

  function NaughtyMonzoBreakdown(search: string -> bool, txs: seq<Transaction>): seq<Line> {
    if txs == [] then []
    else
      var last := txs[|txs| - 1];
      NaughtyMonzoBreakdown(search, txs[..|txs| - 1]) +
        (if MonzoNaughty(search, last) then [Entry(-last.amount, last.description)] else [])
  }

  /** All matching spending on both cards, in pence (Monzo spending is negative, hence the subtraction). */
  function NaughtySubtotal(search: string -> bool, amex: seq<Transaction>, monzo: seq<Transaction>): int {
    NaughtyAmex(search, amex) - NaughtyMonzo(search, monzo)
  }

  /** The naughty saving: nothing without a pattern, else a share of all matching spending. */
  function NaughtyValue(s: Settings, amex: seq<Transaction>, monzo: seq<Transaction>): (int, seq<Line>) {
    if s.naughtyPattern == "" then (0, [Note(NO_PATTERN_NOTE)])
    else
      (Share(NaughtySubtotal(s.naughtySearch, amex, monzo), s.naughtyPercentage),
       NaughtyAmexBreakdown(s.naughtySearch, amex) + NaughtyMonzoBreakdown(s.naughtySearch, monzo))
  }

  /** `_get_percentage_of_naughty_transactions_value`. */
  method NaughtyTransactionsValue(s: Settings, amex: seq<Transaction>, monzo: seq<Transaction>)
    returns (saving: int, breakdown: seq<Line>)
    ensures (saving, breakdown) == NaughtyValue(s, amex, monzo)
    ensures s.naughtyPattern == "" ==> saving == 0 && breakdown == [Note(NO_PATTERN_NOTE)]
    ensures s.naughtyPercentage >= 0.0 ==> saving >= 0
  {
    if s.naughtyPattern == "" {
      return 0, [Note(NO_PATTERN_NOTE)];
    }
    var amexSubtotal := 0;
    var monzoSubtotal := 0;
    breakdown := [];
    var i := 0;
    while i < |amex|
      invariant 0 <= i <= |amex|
      invariant amexSubtotal == NaughtyAmex(s.naughtySearch, amex[..i])
      invariant breakdown == NaughtyAmexBreakdown(s.naughtySearch, amex[..i])
    {
      var tx := amex[i];
      assert amex[..i + 1] == amex[..i] + [tx];
      if s.naughtySearch(tx.description) && tx.amount > 0 {
        amexSubtotal := amexSubtotal + tx.amount;
        breakdown := breakdown + [Entry(tx.amount, tx.description)];
      }
      i := i + 1;
    }
    assert amex[..|amex|] == amex;
    ghost var amexLines := breakdown;
    var j := 0;
    while j < |monzo|
      invariant 0 <= j <= |monzo|
      invariant monzoSubtotal == NaughtyMonzo(s.naughtySearch, monzo[..j])
      invariant breakdown == amexLines + NaughtyMonzoBreakdown(s.naughtySearch, monzo[..j])
    {
      var tx := monzo[j];
      assert monzo[..j + 1] == monzo[..j] + [tx];
      if s.naughtySearch(tx.description) && tx.amount < 0 {
        monzoSubtotal := monzoSubtotal + tx.amount;
        breakdown := breakdown + [Entry(-tx.amount, tx.description)];
      }
      j := j + 1;
    }
    assert monzo[..|monzo|] == monzo;
    ghost var subtotal := NaughtySubtotal(s.naughtySearch, amex, monzo);
    assert amexSubtotal - monzoSubtotal == subtotal;
    assert breakdown == NaughtyAmexBreakdown(s.naughtySearch, amex) + NaughtyMonzoBreakdown(s.naughtySearch, monzo);
    saving := Share(amexSubtotal - monzoSubtotal, s.naughtyPercentage);
    if s.naughtyPercentage >= 0.0 {
      NonNegativeShare(subtotal, s.naughtyPercentage);
    }
  }

  // ---------------------------------------------------------------------------------------------
  // The auto-save amount


  /** The debit saving on a list of Monzo transactions. */
  function DebitSaving(s: Settings, monzo: seq<Transaction>): int {
    Share(DebitBase(monzo), s.debitPercentage)
  }

  /** The published amount: round-ups, the two percentages, the songs and the minimum. */
  function AutoSaveAmount(s: Settings, amex: seq<Transaction>, monzo: seq<Transaction>, likedTracks: nat): int {
    RoundUpPence(monzo, amex) + DebitSaving(s, monzo) + NaughtyValue(s, amex, monzo).0
      + SPOTIFY_PENCE_PER_TRACK * likedTracks + s.minimum
  }

  /**
   * With non-negative percentages the amount is at least the minimum plus a penny per
   * transaction and 79p per song, and at most £1 per transaction more than the minimum, the
   * songs and the two percentage shares.
   */
  lemma AutoSaveBounds(s: Settings, amex: seq<Transaction>, monzo: seq<Transaction>, likedTracks: nat)
    requires s.debitPercentage >= 0.0 && s.naughtyPercentage >= 0.0
    ensures AutoSaveAmount(s, amex, monzo, likedTracks) >= s.minimum + |amex| + |monzo| + SPOTIFY_PENCE_PER_TRACK * likedTracks
    ensures AutoSaveAmount(s, amex, monzo, likedTracks) <= s.minimum + 100 * (|amex| + |monzo|)
      + SPOTIFY_PENCE_PER_TRACK * likedTracks + DebitSaving(s, monzo) + NaughtyValue(s, amex, monzo).0
  {
    DebitBaseIsCountedSum(monzo);
    NonNegativeShare(DebitBase(monzo), s.debitPercentage);
    NonNegativeShare(NaughtySubtotal(s.naughtySearch, amex, monzo), s.naughtyPercentage);
  }

  /** `save_money` deposits only on a real change between two known switch states. */
  function ShouldDeposit(oldState: string, newState: string): (r: bool)
    ensures r <==> (oldState != newState
      && oldState != "unavailable" && oldState != "unknown"
      && newState != "unavailable" && newState != "unknown")
  {
    var unknown := {oldState, newState} * UNKNOWN_STATES;
    assert unknown != {} <==> oldState in UNKNOWN_STATES || newState in UNKNOWN_STATES by {
      if oldState in UNKNOWN_STATES { assert oldState in unknown; }
      if newState in UNKNOWN_STATES { assert newState in unknown; }
    }
    !(oldState == newState || unknown != {})
  }

  /** What `save_money` does. */
  datatype SaveOutcome =
    | NoDeposit
    | AmountNotNumeric       // the published variable holds no number: float() raises
    | Deposited(pence: int)

  /** `input_datetime` keeps whole seconds. */
  function WholeSeconds(t: int): (r: int)
    ensures r <= t < r + SECOND && r % SECOND == 0
  {
    t - t % SECOND
  }

  /** The parts `calculate` adds up make the published amount. */
  lemma PublishedAmount(s: Settings, amex: seq<Transaction>, monzo: seq<Transaction>, likedTracks: nat,
                        roundUps: int, debit: int, naughty: int)
    requires roundUps == RoundUpPence(monzo, amex)
    requires debit == DebitSaving(s, monzo)
    requires naughty == NaughtyValue(s, amex, monzo).0
    ensures roundUps + debit + naughty + SPOTIFY_PENCE_PER_TRACK * likedTracks + s.minimum
            == AutoSaveAmount(s, amex, monzo, likedTracks)
  {
  }

  class AutoSaver {
    /** `_amex_transactions` and `_monzo_transactions`. */
    var amexRecords: seq<Transaction>
    var monzoRecords: seq<Transaction>
    /** The state of `input_datetime.last_auto_save`. */
    var lastAutoSave: int
    /** The value last set on `var.auto_save_amount`, in pence. */
    var published: Option<int>

    constructor(lastAutoSave: int)
      ensures amexRecords == [] && monzoRecords == []
      ensures this.lastAutoSave == lastAutoSave && published == None
    {
      amexRecords := [];
      monzoRecords := [];
      this.lastAutoSave := lastAutoSave;
      published := None;
    }

    /** The `amex_transactions` property: drops records older than the last auto-save and returns the rest. */
    method AmexTransactions() returns (r: seq<Transaction>)
      modifies this
      ensures amexRecords == Since(old(amexRecords), lastAutoSave) && r == amexRecords
      ensures monzoRecords == old(monzoRecords) && lastAutoSave == old(lastAutoSave) && published == old(published)
    {
      amexRecords := Since(amexRecords, lastAutoSave);
      r := amexRecords;
    }

    /** The `monzo_transactions` property. */
    method MonzoTransactions() returns (r: seq<Transaction>)
      modifies this
      ensures monzoRecords == Since(old(monzoRecords), lastAutoSave) && r == monzoRecords
      ensures amexRecords == old(amexRecords) && lastAutoSave == old(lastAutoSave) && published == old(published)
    {
      monzoRecords := Since(monzoRecords, lastAutoSave);
      r := monzoRecords;
    }

    /**
     * `update_transaction_records`: each list is extended with what its bank returns from the
     * cursor on, Amex first. The banks' APIs are the parameters.
     */
    method UpdateTransactionRecords(fetchAmex: int -> seq<Transaction>, fetchMonzo: int -> seq<Transaction>)
      modifies this
      ensures amexRecords == old(amexRecords) + fetchAmex(FetchCursor(old(amexRecords), lastAutoSave))
      ensures monzoRecords == old(monzoRecords) + fetchMonzo(FetchCursor(old(monzoRecords), lastAutoSave))
      ensures lastAutoSave == old(lastAutoSave) && published == old(published)
    {
      amexRecords := amexRecords + fetchAmex(FetchCursor(amexRecords, lastAutoSave));
      monzoRecords := monzoRecords + fetchMonzo(FetchCursor(monzoRecords, lastAutoSave));
    }

    /** `_get_round_up_pence`: the round-ups of the Monzo and then the Amex window. */
    method GetRoundUpPence() returns (pence: int)
      modifies this
      ensures amexRecords == Since(old(amexRecords), lastAutoSave) && monzoRecords == Since(old(monzoRecords), lastAutoSave)
      ensures lastAutoSave == old(lastAutoSave) && published == old(published)
      ensures pence == RoundUpPence(monzoRecords, amexRecords)
    {
      var monzo := MonzoTransactions();
      var amex := AmexTransactions();
      pence := RoundUpPence(monzo, amex);
    }

    /** `_get_percentage_of_debit_transactions_value` over the Monzo window. */
    method GetDebitPercentage(s: Settings) returns (saving: int, breakdown: seq<Line>)
      modifies this
      ensures monzoRecords == Since(old(monzoRecords), lastAutoSave)
      ensures amexRecords == old(amexRecords) && lastAutoSave == old(lastAutoSave) && published == old(published)
      ensures saving == DebitSaving(s, monzoRecords) && breakdown == DebitBreakdown(monzoRecords)
    {
      var monzo := MonzoTransactions();
      saving, breakdown := DebitTransactionsValue(monzo, s.debitPercentage);
    }

    /** `_get_percentage_of_naughty_transactions_value`: without a pattern neither property is read. */
    method GetNaughtyPercentage(s: Settings) returns (saving: int, breakdown: seq<Line>)
      modifies this
      ensures s.naughtyPattern == "" ==> unchanged(this)
      ensures s.naughtyPattern != "" ==>
        amexRecords == Since(old(amexRecords), lastAutoSave) && monzoRecords == Since(old(monzoRecords), lastAutoSave)
      ensures lastAutoSave == old(lastAutoSave) && published == old(published)
      ensures (saving, breakdown) == NaughtyValue(s, amexRecords, monzoRecords)
    {
      if s.naughtyPattern == "" {
        return 0, [Note(NO_PATTERN_NOTE)];
      }
      var amex := AmexTransactions();
      var monzo := MonzoTransactions();
      saving, breakdown := NaughtyTransactionsValue(s, amex, monzo);
    }

    /**
     * `calculate`: on a state change with a non-empty value, fetch, window and publish the
     * auto-save amount; any other callback leaves everything as it was.
     */
    method Calculate(attribute: string, newValue: string, s: Settings,
                     fetchAmex: int -> seq<Transaction>, fetchMonzo: int -> seq<Transaction>, likedTracks: nat)
      modifies this
      ensures !(attribute == "state" && newValue != "") ==> unchanged(this)
      ensures attribute == "state" && newValue != "" ==>
        && lastAutoSave == old(lastAutoSave)
        && amexRecords == Since(old(amexRecords) + fetchAmex(FetchCursor(old(amexRecords), old(lastAutoSave))), old(lastAutoSave))
        && monzoRecords == Since(old(monzoRecords) + fetchMonzo(FetchCursor(old(monzoRecords), old(lastAutoSave))), old(lastAutoSave))
        && published == Some(AutoSaveAmount(s, amexRecords, monzoRecords, likedTracks))
    {
      if attribute != "state" || newValue == "" {
        return;
      }
      UpdateTransactionRecords(fetchAmex, fetchMonzo);
      ghost var amexWindow := Since(amexRecords, lastAutoSave);
      ghost var monzoWindow := Since(monzoRecords, lastAutoSave);
      SinceIdempotent(amexRecords, lastAutoSave);
      SinceIdempotent(monzoRecords, lastAutoSave);

      var roundUps := GetRoundUpPence();
      assert amexRecords == amexWindow && monzoRecords == monzoWindow;
      var debit, _ := GetDebitPercentage(s);
      assert amexRecords == amexWindow && monzoRecords == monzoWindow;
      var naughty, _ := GetNaughtyPercentage(s);
      assert amexRecords == amexWindow && monzoRecords == monzoWindow;
      var spotify := SPOTIFY_PENCE_PER_TRACK * likedTracks;
      var total := roundUps + debit + naughty + spotify + s.minimum;
      assert total == AutoSaveAmount(s, amexWindow, monzoWindow, likedTracks) by {
        PublishedAmount(s, amexWindow, monzoWindow, likedTracks, roundUps, debit, naughty);
      }
      published := Some(total);
    }

    /**
     * `save_money`: on a real switch flip, deposit what was published and move the last-save
     * time to `now` (in whole seconds).
     */
    method SaveMoney(oldState: string, newState: string, now: int) returns (r: SaveOutcome)
      modifies this
      ensures !ShouldDeposit(oldState, newState) ==> r == NoDeposit && unchanged(this)
      ensures ShouldDeposit(oldState, newState) && old(published).None? ==> r == AmountNotNumeric && unchanged(this)
      ensures ShouldDeposit(oldState, newState) && old(published).Some? ==>
        && r == Deposited(old(published).value)
        && lastAutoSave == WholeSeconds(now)
        && amexRecords == old(amexRecords) && monzoRecords == old(monzoRecords) && published == old(published)
    {
      if !ShouldDeposit(oldState, newState) {
        return NoDeposit;
      }
      match published
      case None =>
        r := AmountNotNumeric;
      case Some(p) =>
        r := Deposited(p);
        lastAutoSave := WholeSeconds(now);
    }
  }

  /**
   * When the bank honours `from_datetime`, everything fetched onto a non-empty list is strictly
   * newer than every record already held, so no record is fetched twice.
   */
  lemma FetchedAreNewer(existing: seq<Transaction>, lastAutoSave: int, fetched: seq<Transaction>)
    requires forall k | 0 <= k < |fetched| :: fetched[k].at >= FetchCursor(existing, lastAutoSave)
    ensures forall i, k | 0 <= i < |existing| && 0 <= k < |fetched| :: existing[i].at < fetched[k].at
    ensures existing != [] ==> exists i | 0 <= i < |existing| :: forall k | 0 <= k < |fetched| :: existing[i].at + SECOND <= fetched[k].at
  {
    if existing != [] {
      var i :| 0 <= i < |existing| && existing[i].at + SECOND == FetchCursor(existing, lastAutoSave);
      assert forall k | 0 <= k < |fetched| :: existing[i].at + SECOND <= fetched[k].at;
    }
  }
}
