/**
 * The string operations the Monzo and image apps rely on: Python's `str.split` and `str.join`
 * with a one-character separator, `str.startswith`, and decimal numbers written and read back
 * (`float()` on a plain decimal literal, `round()` with ties to even, `int()` truncation).
 */
module Text {
  import opened Wrappers

  // ---------------------------------------------------------------------------------------------
  // split and join

  /** `s.split(sep)`: the pieces between separators, keeping empty pieces; never an empty list. */
  function Split(s: string, sep: char): (r: seq<string>)
    ensures |r| >= 1
  {
    if s == [] then [""]
    else
      var rest := Split(s[1..], sep);
      if s[0] == sep then [""] + rest else [[s[0]] + rest[0]] + rest[1..]
  }

  /** No piece of a split contains the separator. */
  lemma {:induction false} SplitPiecesFree(s: string, sep: char)
    ensures forall i | 0 <= i < |Split(s, sep)| :: sep !in Split(s, sep)[i]
  {
    if s != [] {
      SplitPiecesFree(s[1..], sep);
    }
  }

  /** `sep.join(parts)`. */
  function Join(parts: seq<string>, sep: char): string {
    if parts == [] then ""
    else if |parts| == 1 then parts[0]
    else parts[0] + [sep] + Join(parts[1..], sep)
  }

  /** How often `c` occurs in `s`. */
  function Count(s: string, c: char): nat {
    if s == [] then 0 else (if s[0] == c then 1 else 0) + Count(s[1..], c)
  }

  /** Splitting gives one more piece than there are separators. */
  lemma {:induction false} SplitCount(s: string, sep: char)
    ensures |Split(s, sep)| == Count(s, sep) + 1
  {
    if s != [] {
      SplitCount(s[1..], sep);
    }
  }

  /** Joining the pieces with the separator gives back the string. */
  lemma {:induction false} JoinSplit(s: string, sep: char)
    ensures Join(Split(s, sep), sep) == s
  {
    if s != [] {
      JoinSplit(s[1..], sep);
      var rest := Split(s[1..], sep);
      if s[0] != sep {
        var r := Split(s, sep);
        assert r[1..] == rest[1..];
        if |rest| == 1 {
          assert Join(r, sep) == [s[0]] + rest[0];
        } else {
          assert Join(r, sep) == [s[0]] + rest[0] + [sep] + Join(rest[1..], sep);
        }
      }
    }
  }

  /** Splitting a join of separator-free pieces gives back those pieces. */
  lemma {:induction false} SplitJoin(parts: seq<string>, sep: char)
    requires parts != []
    requires forall i | 0 <= i < |parts| :: sep !in parts[i]
    ensures Split(Join(parts, sep), sep) == parts
    decreases |parts|, |parts[0]|
  {
    if |parts| == 1 {
      SplitFree(parts[0], sep);
    } else if parts[0] == [] {
      var rest := Join(parts[1..], sep);
      assert Join(parts, sep) == [sep] + rest;
      SplitCons(sep, rest, sep);
      SplitJoin(parts[1..], sep);
      assert parts == [""] + parts[1..];
    } else {
      var c := parts[0][0];
      var shorter := [parts[0][1..]] + parts[1..];
      assert forall i | 0 <= i < |shorter| :: sep !in shorter[i] by {
        assert forall i | 1 <= i < |shorter| :: shorter[i] == parts[i];
      }
      var rest := Join(shorter, sep);
      assert rest == parts[0][1..] + [sep] + Join(parts[1..], sep);
      assert Join(parts, sep) == [c] + rest;
      SplitJoin(shorter, sep);
      assert c != sep by { assert c in parts[0]; }
      SplitCons(c, rest, sep);
      assert shorter[1..] == parts[1..];
      assert [[c] + shorter[0]] + shorter[1..] == parts by { assert [c] + parts[0][1..] == parts[0]; }
    }
  }

  /** A string without the separator splits into itself. */
  lemma {:induction false} SplitFree(s: string, sep: char)
    requires sep !in s
    ensures Split(s, sep) == [s]
  {
    if s != [] {
      assert sep !in s[1..] by { assert forall i | 0 <= i < |s| - 1 :: s[1..][i] == s[i + 1]; }
      SplitFree(s[1..], sep);
      assert [s[0]] + s[1..] == s;
    }
  }

  /** Two separator-free strings joined by the separator split back into the two. */
  lemma SplitPair(a: string, b: string, sep: char)
    requires sep !in a && sep !in b
    ensures Split(a + [sep] + b, sep) == [a, b]
  {
    assert Join([a, b], sep) == a + [sep] + b;
    SplitJoin([a, b], sep);
  }

  /** Splitting at a separator splits each side independently. */
  lemma {:induction false} SplitConcat(a: string, b: string, sep: char)
    ensures Split(a + [sep] + b, sep) == Split(a, sep) + Split(b, sep)
  {
    if a == [] {
      assert a + [sep] + b == [sep] + b;
      SplitCons(sep, b, sep);
    } else {
      assert a == [a[0]] + a[1..];
      SplitConcat(a[1..], b, sep);
      SplitConcatStep(a[0], a[1..], b, sep);
    }
  }

  /** The inductive step of `SplitConcat`: one more leading character on the left side. */
  lemma SplitConcatStep(c: char, tail: string, b: string, sep: char)
    requires Split(tail + [sep] + b, sep) == Split(tail, sep) + Split(b, sep)
    ensures Split([c] + tail + [sep] + b, sep) == Split([c] + tail, sep) + Split(b, sep)
  {
    var left, right := Split(tail, sep), Split(b, sep);
    var rest := tail + [sep] + b;
    assert [c] + tail + [sep] + b == [c] + rest;
    SplitCons(c, rest, sep);
    SplitCons(c, tail, sep);
    if c == sep {
      Associative([""], left, right);
    } else {
      var head := [c] + left[0];
      assert left == [left[0]] + left[1..];
      Associative([left[0]], left[1..], right);
      Associative([head], left[1..], right);
    }
  }

  /** Concatenation regrouped, stated once so the step above stays cheap to check. */
  lemma Associative<T>(x: seq<T>, y: seq<T>, z: seq<T>)
    ensures x + (y + z) == (x + y) + z
  {
  }

  /** One step of `Split`: the first character either starts a new piece or extends the first one. */
  lemma SplitCons(c: char, rest: string, sep: char)
    ensures c == sep ==> Split([c] + rest, sep) == [""] + Split(rest, sep)
    ensures c != sep ==> Split([c] + rest, sep) == [[c] + Split(rest, sep)[0]] + Split(rest, sep)[1..]
  {
    assert ([c] + rest)[0] == c && ([c] + rest)[1..] == rest;
  }

  /** Joining one more piece appends the separator and the piece. */
  lemma {:induction false} JoinAppend(parts: seq<string>, last: string, sep: char)
    ensures parts != [] ==> Join(parts + [last], sep) == Join(parts, sep) + [sep] + last
    ensures parts == [] ==> Join(parts + [last], sep) == last
  {
    if |parts| == 1 {
      assert parts + [last] == [parts[0], last];
    } else if |parts| > 1 {
      assert (parts + [last])[1..] == parts[1..] + [last];
      JoinAppend(parts[1..], last, sep);
    } else {
      assert parts + [last] == [last];
    }
  }

  /** `s.endswith(suffix)`. */
  predicate EndsWith(s: string, suffix: string) {
    |suffix| <= |s| && s[|s| - |suffix|..] == suffix
  }

  /** A suffix of a suffix is a suffix. */
  lemma EndsWithTransitive(s: string, middle: string, suffix: string)
    requires EndsWith(s, middle) && EndsWith(middle, suffix)
    ensures EndsWith(s, suffix)
  {
    assert s[|s| - |suffix|..] == middle[|middle| - |suffix|..];
  }

  /** `s.startswith(prefix)`. */
  predicate StartsWith(s: string, prefix: string) {
    |prefix| <= |s| && s[..|prefix|] == prefix
  }

  // ---------------------------------------------------------------------------------------------
  // Decimal digits

  predicate IsDigit(c: char) { '0' <= c <= '9' }

  predicate AllDigits(s: string) { forall i | 0 <= i < |s| :: IsDigit(s[i]) }

  function DigitChar(d: nat): (c: char)
    requires d < 10
    ensures IsDigit(c)
  {
    ('0' as int + d) as char
  }

  function DigitValue(c: char): (d: nat)
    requires IsDigit(c)
    ensures d < 10
  {
    c as int - '0' as int
  }

  /** The decimal digits of `n`, without leading zeros (`str(n)`). */
  function NatToString(n: nat): (s: string)
    ensures |s| >= 1 && AllDigits(s)
  {
    if n < 10 then [DigitChar(n)] else NatToString(n / 10) + [DigitChar(n % 10)]
  }

  /** The number a string of decimal digits denotes. */
  function DigitsValue(s: string): nat
    requires AllDigits(s)
  {
    if s == [] then 0 else DigitsValue(s[..|s| - 1]) * 10 + DigitValue(s[|s| - 1])
  }

  /** Reading back the digits of `n` gives `n`. */
  lemma {:induction false} NatToStringRoundTrip(n: nat)
    ensures DigitsValue(NatToString(n)) == n
  {
    if n >= 10 {
      NatToStringRoundTrip(n / 10);
      var s := NatToString(n);
      assert s[..|s| - 1] == NatToString(n / 10);
    }
  }

  function Pow10(k: nat): (p: nat)
    ensures p >= 1
  {
    if k == 0 then 1 else 10 * Pow10(k - 1)
  }

  // ---------------------------------------------------------------------------------------------
  // Amounts in pence written as pounds

  /** An amount of pence written as pounds with exactly two decimals (`f"{pence / 100:.2f}"`). */
  function FormatPence(pence: nat): (s: string)
    ensures '.' in s && ':' !in s
  {
    var f := pence % 100;
    var s := NatToString(pence / 100) + "." + [DigitChar(f / 10), DigitChar(f % 10)];
    assert s[|s| - 3] == '.';
    assert ':' !in s by { assert forall i | 0 <= i < |s| :: IsDigit(s[i]) || s[i] == '.'; }
    s
  }

  /** The ASCII whitespace `float()` strips from both ends of its argument. */
  predicate IsSpace(c: char) {
    c == ' ' || c == '\t' || c == '\n' || c == '\r' || c == '\U{000B}' || c == '\U{000C}'
  }

  /** Every character of `s` is whitespace. */
  predicate AllSpace(s: string) { forall k | 0 <= k < |s| :: IsSpace(s[k]) }

  /** `s` with its leading whitespace removed. */
  function DropLeadingSpace(s: string): (r: string)
    ensures |r| <= |s| && r == s[|s| - |r|..] && AllSpace(s[..|s| - |r|])
    ensures r == [] || !IsSpace(r[0])
  {
    if s != [] && IsSpace(s[0]) then
      var r := DropLeadingSpace(s[1..]);
      assert s[..|s| - |r|] == [s[0]] + s[1..][..|s| - 1 - |r|];
      r
    else s
  }

  /** `s` with its trailing whitespace removed. */
  function DropTrailingSpace(s: string): (r: string)
    ensures |r| <= |s| && r == s[..|r|] && AllSpace(s[|r|..])
    ensures r == [] || !IsSpace(r[|r| - 1])
  {
    if s != [] && IsSpace(s[|s| - 1]) then
      var r := DropTrailingSpace(s[..|s| - 1]);
      assert s[|r|..] == s[..|s| - 1][|r|..] + [s[|s| - 1]];
      r
    else s
  }

  /** `s.strip()` for ASCII whitespace. */
  function Strip(s: string): string {
    DropTrailingSpace(DropLeadingSpace(s))
  }

  /** A string that neither starts nor ends with whitespace is its own stripped form. */
  lemma StripUnspaced(s: string)
    requires s == [] || (!IsSpace(s[0]) && !IsSpace(s[|s| - 1]))
    ensures Strip(s) == s
  {
  }

  /** Stripping removes exactly the whitespace around a string that has none at its own ends. */
  lemma {:induction false} StripSurrounded(before: string, s: string, after: string)
    requires AllSpace(before) && AllSpace(after)
    requires s == [] || (!IsSpace(s[0]) && !IsSpace(s[|s| - 1]))
    ensures Strip(before + s + after) == s
  {
    if s == [] {
      assert before + s + after == before + after + [];
      SpacesJoin(before, after);
      DropLeadingSurrounded(before + after, []);
    } else {
      assert before + s + after == before + (s + after);
      DropLeadingSurrounded(before, s + after);
      DropTrailingSurrounded(s, after);
    }
  }

  /** Leading whitespace is dropped up to the first character that is not whitespace. */
  lemma {:induction false} DropLeadingSurrounded(before: string, rest: string)
    requires AllSpace(before)
    requires rest == [] || !IsSpace(rest[0])
    ensures DropLeadingSpace(before + rest) == rest
  {
    if before != [] {
      assert (before + rest)[1..] == before[1..] + rest;
      assert (before + rest)[0] == before[0];
      DropLeadingSurrounded(before[1..], rest);
    }
  }

  /** Trailing whitespace is dropped back to the last character that is not whitespace. */
  lemma {:induction false} DropTrailingSurrounded(s: string, after: string)
    requires AllSpace(after)
    requires s != [] && !IsSpace(s[|s| - 1])
    ensures DropTrailingSpace(s + after) == s
  {
    if after != [] {
      assert (s + after)[..|s + after| - 1] == s + after[..|after| - 1];
      assert (s + after)[|s + after| - 1] == after[|after| - 1];
      DropTrailingSurrounded(s, after[..|after| - 1]);
    } else {
      assert s + after == s;
    }
  }

  /**
   * `float(s)`: a decimal literal with optional whitespace around it. Anything else is a
   * ValueError (None).
   */
  function ParseFloat(s: string): Option<real> {
    ParseDecimal(Strip(s))
  }

  /**
   * A plain decimal literal: an optional sign, digits, an optional point and more digits, with
   * at least one digit in all. Anything else is None.
   */
  function ParseDecimal(s: string): Option<real> {
    var negative := |s| > 0 && s[0] == '-';
    var body := if |s| > 0 && (s[0] == '-' || s[0] == '+') then s[1..] else s;
    var parts := Split(body, '.');
    if |parts| > 2 then None
    else
      var whole := parts[0];
      var fraction := if |parts| == 2 then parts[1] else "";
      if !AllDigits(whole) || !AllDigits(fraction) || |whole| + |fraction| == 0 then None
      else
        var magnitude := DecimalValue(whole, fraction);
        Some(if negative then -magnitude else magnitude)
  }

  /** Whitespace around a literal does not change what `float()` reads it as. */
  lemma ParseFloatIgnoresSpace(before: string, s: string, after: string)
    requires AllSpace(before) && AllSpace(after)
    requires s == [] || (!IsSpace(s[0]) && !IsSpace(s[|s| - 1]))
    ensures ParseFloat(before + s + after) == ParseDecimal(s)
  {
    StripSurrounded(before, s, after);
  }

  /** Two runs of whitespace make one. */
  lemma SpacesJoin(x: string, y: string)
    requires AllSpace(x) && AllSpace(y)
    ensures AllSpace(x + y)
  {
    assert forall k | |x| <= k < |x + y| :: (x + y)[k] == y[k - |x|];
  }

  /** The value of the digits `whole` and `fraction` either side of a decimal point. */
  function DecimalValue(whole: string, fraction: string): real
    requires AllDigits(whole) && AllDigits(fraction)
  {
    DigitsValue(whole) as real + (DigitsValue(fraction) as real) / (Pow10(|fraction|) as real)
  }

  /** A pence amount written as pounds reads back as that many hundredths. */
  lemma FormatPenceRoundTrip(pence: nat)
    ensures ParseDecimal(FormatPence(pence)) == Some(pence as real / 100.0)
  {
    FormatPenceParses(pence);
    PenceDecimalValue(pence);
  }

  /** With no whitespace around it, the written amount reads back the same through `float()`. */
  lemma FormatPenceFloatRoundTrip(pence: nat)
    ensures ParseFloat(FormatPence(pence)) == Some(pence as real / 100.0)
  {
    FormatPenceUnspaced(pence);
    FormatPenceRoundTrip(pence);
  }

  /** The written amount starts and ends with a digit, so there is no whitespace to strip. */
  lemma FormatPenceUnspaced(pence: nat)
    ensures Strip(FormatPence(pence)) == FormatPence(pence)
  {
    var s := FormatPence(pence);
    var f := pence % 100;
    assert s == NatToString(pence / 100) + "." + [DigitChar(f / 10), DigitChar(f % 10)];
    assert IsDigit(s[0]) && IsDigit(s[|s| - 1]);
    StripUnspaced(s);
  }

  /** The written amount reads back as its pound digits and its two pence digits. */
  lemma FormatPenceParses(pence: nat)
    ensures ParseDecimal(FormatPence(pence))
            == Some(DecimalValue(NatToString(pence / 100), [DigitChar(pence % 100 / 10), DigitChar(pence % 100 % 10)]))
  {
    var f := pence % 100;
    ParseUnsignedDecimal(FormatPence(pence), NatToString(pence / 100), [DigitChar(f / 10), DigitChar(f % 10)]);
  }

  /** The digits of the pounds and of the two-digit pence denote the amount in hundredths. */
  lemma PenceDecimalValue(pence: nat)
    ensures DecimalValue(NatToString(pence / 100), [DigitChar(pence % 100 / 10), DigitChar(pence % 100 % 10)])
            == pence as real / 100.0
  {
    var f := pence % 100;
    NatToStringRoundTrip(pence / 100);
    TwoDigitsValue(f);
    assert pence as real / 100.0 == (pence / 100) as real + (f as real) / 100.0;
  }

  /** Digits, a point and more digits read back as the whole part plus the scaled fraction. */
  lemma ParseUnsignedDecimal(s: string, whole: string, fraction: string)
    requires s == whole + "." + fraction
    requires |whole| >= 1 && AllDigits(whole) && AllDigits(fraction)
    ensures ParseDecimal(s) == Some(DecimalValue(whole, fraction))
  {
    assert '.' !in whole by { assert forall i | 0 <= i < |whole| :: IsDigit(whole[i]); }
    assert '.' !in fraction by { assert forall i | 0 <= i < |fraction| :: IsDigit(fraction[i]); }
    assert s == whole + ['.'] + fraction;
    SplitPair(whole, fraction, '.');
    assert Split(s, '.') == [whole, fraction];
    assert s[0] != '-' && s[0] != '+' by { assert s[0] == whole[0]; }
    assert |whole| + |fraction| != 0;
  }

  /** Two digits read back as the number they were written from. */
  lemma TwoDigitsValue(f: nat)
    requires f < 100
    ensures DigitsValue([DigitChar(f / 10), DigitChar(f % 10)]) == f
    ensures Pow10(|[DigitChar(f / 10), DigitChar(f % 10)]|) == 100
  {
    var fraction := [DigitChar(f / 10), DigitChar(f % 10)];
    assert fraction[..1] == [DigitChar(f / 10)];
    assert [DigitChar(f / 10)][..0] == [];
    assert DigitsValue([DigitChar(f / 10)]) == f / 10;
    assert Pow10(2) == 100;
  }

  /** Python's `round(x)`: the nearest integer, ties to the even neighbour. */
  function RoundHalfEven(x: real): (n: int)
    ensures x - 0.5 <= n as real <= x + 0.5
    ensures x - x.Floor as real != 0.5 ==> x - 0.5 < n as real < x + 0.5
    ensures x - x.Floor as real == 0.5 ==> n % 2 == 0
  {
    var f := x.Floor;
    var d := x - f as real;
    if d < 0.5 then f
    else if d > 0.5 then f + 1
    else if f % 2 == 0 then f else f + 1
  }

  /** Rounding a whole number gives that number. */
  lemma RoundWhole(n: int)
    ensures RoundHalfEven(n as real) == n
  {
  }

  /** Python's `int(x)`: truncation toward zero. */
  function Truncate(x: real): (n: int)
    ensures 0.0 <= x ==> 0 <= n && n as real <= x < n as real + 1.0
    ensures x < 0.0 ==> n <= 0 && n as real - 1.0 < x <= n as real
  {
    if x >= 0.0 then x.Floor else -((-x).Floor)
  }
}
