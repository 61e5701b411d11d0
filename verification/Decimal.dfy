/** Decimal text of integers: fmt.Sprintf("%d") and strconv.FormatInt on one side, fmt.Sscanf("%d") on the other. */
module Decimal {
  import opened Prelude
  import opened Strings

  function DigitChar(d: nat): char
    requires d < 10
  {
    '0' + d as char
  }

  predicate IsDigit(c: char) {
    '0' <= c <= '9'
  }

  function DigitValue(c: char): nat
    requires IsDigit(c)
  {
    (c - '0') as nat
  }

  /** The digits of a natural number, most significant first. */
  function Digits(n: nat): string {
    if n < 10 then [DigitChar(n)] else Digits(n / 10) + [DigitChar(n % 10)]
  }

  /** fmt.Sprintf("%d", n). */
  function Format(n: int): string {
    if n < 0 then "-" + Digits(-n) else Digits(n)
  }

  function DigitsValue(s: string): nat
    requires forall i :: 0 <= i < |s| ==> IsDigit(s[i])
  {
    if s == [] then 0 else 10 * DigitsValue(s[..|s| - 1]) + DigitValue(s[|s| - 1])
  }

  /** How many leading characters of s are digits. */
  function DigitRun(s: string): (k: nat)
    ensures k <= |s|
    ensures forall i :: 0 <= i < k ==> IsDigit(s[i])
    ensures k < |s| ==> !IsDigit(s[k])
  {
    if s == [] || !IsDigit(s[0]) then 0 else 1 + DigitRun(s[1..])
  }

  /** Leading blanks are skipped; a newline among them is an error, as Sscanf does not treat newlines as blanks. */
  function SkipBlanks(s: string): Option<string> {
    if s == [] then Some(s)
    else if s[0] == '\n' then None
    else if IsSpace(s[0]) then SkipBlanks(s[1..])
    else Some(s)
  }

  /** fmt.Sscanf(s, "%d", &v): blanks, an optional sign, then the longest run of digits; text after it is ignored. */
  function Scan(s: string): Option<int> {
    match SkipBlanks(s)
    case None => None
    case Some(t) => ScanSigned(t)
  }

  function ScanSigned(t: string): Option<int> {
    if t != [] && t[0] == '-' then ScanNumber(t[1..], -1)
    else if t != [] && t[0] == '+' then ScanNumber(t[1..], 1)
    else ScanNumber(t, 1)
  }

  function ScanNumber(body: string, sign: int): Option<int> {
    var k := DigitRun(body);
    if k == 0 then None
    else
      var v := sign * DigitsValue(body[..k]);
      if InInt64(v) then Some(v) else None
  }

  lemma {:induction false} DigitsAreDigits(n: nat)
    ensures |Digits(n)| > 0
    ensures forall i :: 0 <= i < |Digits(n)| ==> IsDigit(Digits(n)[i])
    ensures DigitsValue(Digits(n)) == n
  {
    if n >= 10 {
      DigitsAreDigits(n / 10);
      assert Digits(n)[..|Digits(n)| - 1] == Digits(n / 10);
    }
  }

  lemma {:induction false} DigitRunAll(s: string)
    requires forall i :: 0 <= i < |s| ==> IsDigit(s[i])
    ensures DigitRun(s) == |s|
  {
    if s == [] {
    } else {
      DigitRunAll(s[1..]);
    }
  }

  lemma NothingToSkip(s: string)
    requires s != [] && (IsDigit(s[0]) || s[0] == '-')
    ensures SkipBlanks(s) == Some(s)
  {}

  lemma ScanAllDigits(d: string, sign: int)
    requires |d| > 0 && forall i :: 0 <= i < |d| ==> IsDigit(d[i])
    requires InInt64(sign * DigitsValue(d))
    ensures ScanNumber(d, sign) == Some(sign * DigitsValue(d))
  {
    DigitRunAll(d);
    assert d[..|d|] == d;
  }

  /** Scanning a printed integer gives that integer back, for every value of Go's int. */
  lemma ScanFormat(n: int)
    requires InInt64(n)
    ensures Scan(Format(n)) == Some(n)
  {
    var m := if n < 0 then -n else n;
    var d := Digits(m);
    DigitsAreDigits(m);
    assert IsDigit(d[0]);
    if n < 0 {
      NothingToSkip("-" + d);
      ScanAllDigits(d, -1);
      assert ("-" + d)[1..] == d;
    } else {
      NothingToSkip(d);
      ScanAllDigits(d, 1);
    }
  }

  /** Distinct naturals print differently. */
  lemma DigitsInjective(m: nat, n: nat)
    requires Digits(m) == Digits(n)
    ensures m == n
  {
    DigitsAreDigits(m);
    DigitsAreDigits(n);
  }

  // ---------- what a scan reads ----------

  lemma {:induction false} SkipsBlanks(blanks: string, text: string)
    requires forall c :: c in blanks ==> IsSpace(c) && c != '\n'
    ensures SkipBlanks(blanks + text) == SkipBlanks(text)
  {
    if blanks == "" {
      assert blanks + text == text;
    } else {
      assert blanks[0] in blanks && (blanks + text)[0] == blanks[0] && (blanks + text)[1..] == blanks[1..] + text;
      SkipsBlanks(blanks[1..], text);
    }
  }

  lemma {:induction false} RunsToTheEnd(d: string, rest: string)
    requires forall i :: 0 <= i < |d| ==> IsDigit(d[i])
    requires rest == "" || !IsDigit(rest[0])
    ensures DigitRun(d + rest) == |d|
  {
    if d == "" {
      assert d + rest == rest;
    } else {
      assert (d + rest)[1..] == d[1..] + rest;
      RunsToTheEnd(d[1..], rest);
    }
  }

  /** What the sign in front makes of a number, if that fits an int. */
  function Signed(sign: string, n: nat): Option<int> {
    var v: int := if sign == "-" then 0 - n else n;
    if InInt64(v) then Some(v) else None
  }

  lemma NumberReads(body: string, d: string, sign: string)
    requires d != "" && d <= body && DigitRun(body) == |d| && forall i :: 0 <= i < |d| ==> IsDigit(d[i])
    ensures ScanNumber(body, if sign == "-" then -1 else 1) == Signed(sign, DigitsValue(d))
  {
    assert body[..|d|] == d;
  }

  lemma SignedReads(text: string, sign: string, body: string)
    requires sign == "" || sign == "+" || sign == "-"
    requires text == sign + body && body != "" && IsDigit(body[0])
    ensures ScanSigned(text) == ScanNumber(body, if sign == "-" then -1 else 1)
    ensures SkipBlanks(text) == Some(text)
  {
    if sign == "" { assert text == body; } else { assert text[0] == sign[0] && text[1..] == body; }
  }

  /** Blanks, a sign and digits scan as the number if it fits an int, whatever text follows the digits. */
  lemma ScanReads(blanks: string, sign: string, d: string, rest: string)
    requires forall c :: c in blanks ==> IsSpace(c) && c != '\n'
    requires sign == "" || sign == "+" || sign == "-"
    requires d != "" && (forall i :: 0 <= i < |d| ==> IsDigit(d[i])) && (rest == "" || !IsDigit(rest[0]))
    ensures Scan(blanks + (sign + (d + rest)))
      == Signed(sign, DigitsValue(d))
  {
    var body := d + rest;
    SkipsBlanks(blanks, sign + body);
    SignedReads(sign + body, sign, body);
    RunsToTheEnd(d, rest);
    NumberReads(body, d, sign);
  }

  /** A newline among the blanks, or no digit behind the sign, does not scan. */
  lemma ScanRefuses(blanks: string, sign: string, rest: string)
    requires forall c :: c in blanks ==> IsSpace(c) && c != '\n'
    ensures Scan(blanks + ("\n" + rest)) == None
    ensures (sign == "+" || sign == "-") && (rest == "" || !IsDigit(rest[0])) ==> Scan(blanks + (sign + rest)) == None
  {
    SkipsBlanks(blanks, "\n" + rest);
    SkipsBlanks(blanks, sign + rest);
    if sign == "+" || sign == "-" { assert (sign + rest)[1..] == rest; }
  }
}
