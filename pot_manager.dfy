/**
 * The credit-card pot manager (apps/monzo/credit_card_pot_manager.py): each evening it compares
 * the credit-card balances with the Monzo credit-card pot, and either tops the pot up on its
 * own, asks for confirmation through a notification action, or skips. The notification action
 * carries the amount as text, and the handler parses and range-checks it before depositing.
 * All amounts are integer pence.
 */
module PotManager {
  import opened Wrappers
  import opened Text

  const ACTION_PHRASE: string := "TOP_UP_CREDIT_CARD_POT"

  /** The default action text used when the event carries none. */
  const DEFAULT_ACTION: string := "0:0"

  /** Deposits must be strictly between nothing and £10,000. */
  const MAX_DEPOSIT_PENCE: int := 10000 * 100

  /** A non-positive deficit smaller than £50 still gets a "no top up needed" notice. */
  const SKIP_NOTICE_PENCE: int := 50 * 100

  /** What `top_up_credit_card_pot` does with one notification action. */
  datatype TopUpOutcome =
    | UnpackError(parts: nat)    // ValueError: the text did not split into exactly two parts
    | NotOurAction               // another phrase: ignored
    | AmountUnparsable           // ValueError from float()
    | InvalidAmount(pence: int)  // logged as an error, no deposit
    | Deposit(pence: int)

  /** What the nightly process decides. */
  datatype DailyDecision =
    | Skipped(notify: bool)
    | AutoTopUp(topUp: int, action: string, outcome: TopUpOutcome, remaining: int)
    | AskToTopUp(topUp: int, action: string, remaining: int)

  function Max(a: int, b: int): int { if a >= b then a else b }
  function Min(a: int, b: int): int { if a <= b then a else b }

  /** The action text carried by the notification: the phrase, a colon and the amount in pounds. */
  function BuildAction(topUp: nat): (s: string)
    ensures StartsWith(s, ACTION_PHRASE + ":")
  {
    var s := ACTION_PHRASE + ":" + FormatPence(topUp);
    assert s[..|ACTION_PHRASE + ":"|] == ACTION_PHRASE + ":";
    s
  }

  /** The handler for a notification action; `action` is None when the event data has no "action". */
  function TopUpCreditCardPot(action: Option<string>): (r: TopUpOutcome)
    ensures r.Deposit? ==> 0 < r.pence < MAX_DEPOSIT_PENCE
    ensures r.InvalidAmount? ==> !(0 < r.pence < MAX_DEPOSIT_PENCE)
    ensures r.UnpackError? ==> r.parts != 2
  {
    var parts := Split(action.GetOr(DEFAULT_ACTION), ':');
    if |parts| != 2 then UnpackError(|parts|)
    else if parts[0] != ACTION_PHRASE then NotOurAction
    else
      match ParseFloat(parts[1])
      case None => AmountUnparsable
      case Some(pounds) =>
        var pence := RoundHalfEven(pounds * 100.0);
        if 0 < pence < MAX_DEPOSIT_PENCE then Deposit(pence) else InvalidAmount(pence)
  }

  /**
   * `run_daily_process` on the balances it reads: the credit-card debt `amex`, the Monzo
   * credit-card pot `cardPot`, the current account, the minimum to leave in it and the largest
   * amount to move without asking.
   */
  function DailyProcess(amex: int, cardPot: int, current: int, minRemainder: int, maxAuto: int): (r: DailyDecision)
    ensures r.Skipped? <==> amex - cardPot <= 0
    ensures r.Skipped? ==> (r.notify <==> cardPot - amex < SKIP_NOTICE_PENCE)
    ensures !r.Skipped? ==> 0 <= r.topUp <= amex - cardPot && r.topUp <= Max(current - minRemainder, 0)
    ensures !r.Skipped? ==> r.topUp == amex - cardPot || r.topUp == Max(current - minRemainder, 0)
    ensures !r.Skipped? ==> r.remaining == current - r.topUp
    ensures r.AutoTopUp? <==> !r.Skipped? && r.topUp < maxAuto
    ensures r.AutoTopUp? ==> r.outcome == TopUpCreditCardPot(Some(r.action))
  {
    var deficit := amex - cardPot;
    if deficit <= 0 then Skipped(-deficit < SKIP_NOTICE_PENCE)
    else
      var available := Max(current - minRemainder, 0);
      var topUp := Min(available, deficit);
      var action := BuildAction(topUp);
      if topUp < maxAuto then AutoTopUp(topUp, action, TopUpCreditCardPot(Some(action)), current - topUp)
      else AskToTopUp(topUp, action, current - topUp)
  }

  /** The action the nightly process builds is read back by the handler as the same amount. */
  lemma ActionRoundTrip(topUp: nat)
    ensures TopUpCreditCardPot(Some(BuildAction(topUp))) ==
      (if 0 < topUp < MAX_DEPOSIT_PENCE then Deposit(topUp) else InvalidAmount(topUp))
  {
    var amount := FormatPence(topUp);
    assert ':' !in ACTION_PHRASE;
    SplitPair(ACTION_PHRASE, amount, ':');
    assert BuildAction(topUp) == ACTION_PHRASE + [':'] + amount;
    FormatPenceFloatRoundTrip(topUp);
    assert (topUp as real / 100.0) * 100.0 == topUp as real;
    RoundWhole(topUp);
  }

  /** The action splits back into the action phrase and the amount text. */
  lemma ActionSplitsIntoPhrase(topUp: nat)
    ensures Split(BuildAction(topUp), ':') == [ACTION_PHRASE, FormatPence(topUp)]
  {
    assert ':' !in ACTION_PHRASE;
    SplitPair(ACTION_PHRASE, FormatPence(topUp), ':');
    assert BuildAction(topUp) == ACTION_PHRASE + [':'] + FormatPence(topUp);
  }

  /** An event without an action falls back to "0:0", whose phrase is not ours: it is ignored. */
  lemma DefaultActionIgnored()
    ensures TopUpCreditCardPot(None) == NotOurAction
  {
    SplitPair("0", "0", ':');
    assert DEFAULT_ACTION == "0" + [':'] + "0";
  }

  /** Any other (colon-free) phrase is ignored, whatever amount it carries. */
  lemma OtherPhraseIgnored(phrase: string, amount: string)
    requires ':' !in phrase && ':' !in amount
    requires phrase != ACTION_PHRASE
    ensures TopUpCreditCardPot(Some(phrase + [':'] + amount)) == NotOurAction
  {
    SplitPair(phrase, amount, ':');
  }

  /** An action text without exactly one colon fails to unpack. */
  lemma UnpackNeedsOneColon(text: string)
    ensures TopUpCreditCardPot(Some(text)).UnpackError? <==> Count(text, ':') != 1
    ensures Count(text, ':') != 1 ==> TopUpCreditCardPot(Some(text)) == UnpackError(Count(text, ':') + 1)
  {
    SplitCount(text, ':');
  }

  /** On the automatic path the deposit is made exactly when the amount is in range. */
  lemma AutomaticTopUpDeposits(amex: int, cardPot: int, current: int, minRemainder: int, maxAuto: int)
    requires DailyProcess(amex, cardPot, current, minRemainder, maxAuto).AutoTopUp?
    ensures var d := DailyProcess(amex, cardPot, current, minRemainder, maxAuto);
      d.outcome == (if 0 < d.topUp < MAX_DEPOSIT_PENCE then Deposit(d.topUp) else InvalidAmount(d.topUp))
  {
    var d := DailyProcess(amex, cardPot, current, minRemainder, maxAuto);
    ActionRoundTrip(d.topUp);
  }

  /**
   * With nothing to spare above the minimum remainder, the automatic path tries to move £0: the
   * handler rejects it as an invalid amount, while the "automatically topped up" notice is still sent.
   */
  lemma ZeroTopUpRejected(amex: int, cardPot: int, current: int, minRemainder: int, maxAuto: int)
    requires amex > cardPot && current <= minRemainder && maxAuto > 0
    ensures DailyProcess(amex, cardPot, current, minRemainder, maxAuto) == AutoTopUp(0, BuildAction(0), InvalidAmount(0), current)
  {
    ActionRoundTrip(0);
  }
}
