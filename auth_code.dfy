/**
 * The input guard both Monzo apps put in front of the OAuth code exchange: the value typed into
 * the auth-code text entity is ignored when empty, a single character asks for a fresh
 * authorisation link, and anything longer is exchanged for credentials.
 */
module AuthCode {

  datatype AuthCodeAction =
    | IgnoreCode              // the entity was cleared
    | ResendAuthLink          // a one-character "ping": send the authorisation link again
    | ExchangeCode(code: string)

  /** What to do with a new value of the auth-code entity. */
  function ConsumeAuthCode(newValue: string): (r: AuthCodeAction)
    ensures r == IgnoreCode <==> newValue == ""
    ensures r == ResendAuthLink <==> |newValue| == 1
    ensures r.ExchangeCode? ==> r.code == newValue && |r.code| >= 2
  {
    if newValue == "" then IgnoreCode
    else if |newValue| == 1 then ResendAuthLink
    else ExchangeCode(newValue)
  }
}
