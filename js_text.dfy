/**
 * The few pieces of JavaScript's string and number built-ins that the bot relies on:
 * `String.prototype.trim`, decimal digits, and the conversion of an integer to its
 * decimal text (what `'00' + n` does to a number `n`).
 */
module JsText {

  /** JavaScript's WhiteSpace (tab, vertical tab, form feed, no-break space, byte order mark
      and the Unicode space separators) and LineTerminator characters: what `trim` strips. */
  predicate IsJsWhitespace(c: char) {
    var k := c as int;
    k == 0x09 || k == 0x0B || k == 0x0C || k == 0x20 || k == 0xA0 || k == 0xFEFF ||
    k == 0x1680 || (0x2000 <= k <= 0x200A) || k == 0x202F || k == 0x205F || k == 0x3000 ||
    IsLineTerminator(c)
  }

  /** JavaScript's LineTerminator characters; a regular expression's `.` matches none of them. */
  predicate IsLineTerminator(c: char) {
    var k := c as int;
    k == 0x0A || k == 0x0D || k == 0x2028 || k == 0x2029
  }

  /** Removes leading white space. */
  function TrimStart(s: string): (r: string)
    ensures |r| <= |s| && r == s[|s| - |r|..]
    ensures forall k :: 0 <= k < |s| - |r| ==> IsJsWhitespace(s[k])
    ensures r == [] || !IsJsWhitespace(r[0])
  {
    if s != [] && IsJsWhitespace(s[0]) then TrimStart(s[1..]) else s
  }

  /** Removes trailing white space. */
  function TrimEnd(s: string): (r: string)
    ensures |r| <= |s| && r == s[..|r|]
    ensures forall k :: |r| <= k < |s| ==> IsJsWhitespace(s[k])
    ensures r == [] || !IsJsWhitespace(r[|r| - 1])
  {
    if s != [] && IsJsWhitespace(s[|s| - 1]) then TrimEnd(s[..|s| - 1]) else s
  }

  /** `s.trim()`: the longest slice of `s` that neither starts nor ends with white space,
      obtained by removing only white space. */
  function Trim(s: string): (r: string)
    ensures exists i, j :: (0 <= i <= j <= |s| && r == s[i..j] &&
                             (forall k :: 0 <= k < i ==> IsJsWhitespace(s[k])) &&
                             (forall k :: j <= k < |s| ==> IsJsWhitespace(s[k])))
    ensures r == [] || (!IsJsWhitespace(r[0]) && !IsJsWhitespace(r[|r| - 1]))
  {
    var front := TrimStart(s);
    var r := TrimEnd(front);
    TrimWitness(s, front, r);
    r
  }

  /** The slice and the white space that `Trim` removes, at the positions where they lie in `s`. */
  lemma TrimWitness(s: string, front: string, r: string)
    requires |front| <= |s| && front == s[|s| - |front|..]
    requires forall k :: 0 <= k < |s| - |front| ==> IsJsWhitespace(s[k])
    requires |r| <= |front| && r == front[..|r|]
    requires forall k :: |r| <= k < |front| ==> IsJsWhitespace(front[k])
    ensures exists i, j :: (0 <= i <= j <= |s| && r == s[i..j] &&
                             (forall k :: 0 <= k < i ==> IsJsWhitespace(s[k])) &&
                             (forall k :: j <= k < |s| ==> IsJsWhitespace(s[k])))
  {
    var i := |s| - |front|;
    var j := i + |r|;
    assert r == s[i..j];
    forall k | j <= k < |s|
      ensures IsJsWhitespace(s[k])
    {
      assert s[k] == front[k - i];
    }
  }

  /** Text that neither starts nor ends with white space is left as it is. */
  lemma TrimUnpadded(s: string)
    requires s == [] || (!IsJsWhitespace(s[0]) && !IsJsWhitespace(s[|s| - 1]))
    ensures Trim(s) == s
  {
    assert TrimStart(s) == s;
    assert TrimEnd(s) == s;
  }

  predicate IsDigit(c: char) {
    '0' <= c <= '9'
  }

  function DigitChar(d: nat): (c: char)
    requires d < 10
    ensures IsDigit(c)
  {
    ('0' as int + d) as char
  }

  /** The numeric value of a character read as a decimal digit. */
  function DigitValue(c: char): int {
    c as int - '0' as int
  }

  /** Decimal text of a natural number, without leading zeros. */
  function NatToString(n: nat): (r: string)
    ensures 1 <= |r|
    ensures forall k :: 0 <= k < |r| ==> IsDigit(r[k])
    ensures r[|r| - 1] == DigitChar(n % 10)
    ensures n >= 10 ==> |r| >= 2 && r[|r| - 2] == DigitChar(n / 10 % 10)
    ensures n < 10 ==> |r| == 1
    decreases n
  {
    if n < 10 then [DigitChar(n)] else NatToString(n / 10) + [DigitChar(n % 10)]
  }

  /** The value of a string of decimal digits; the reading of `NatToString`. */
  function DecimalValue(s: string): int {
    if s == [] then 0 else DecimalValue(s[..|s| - 1]) * 10 + DigitValue(s[|s| - 1])
  }

  lemma {:induction false} DecimalRoundTrip(n: nat)
    ensures DecimalValue(NatToString(n)) == n
    decreases n
  {
    if n >= 10 {
      DecimalRoundTrip(n / 10);
      var r := NatToString(n);
      assert r[..|r| - 1] == NatToString(n / 10);
    }
  }

  /** JavaScript's decimal text of an integer: a minus sign before the digits of a negative one.
      (Numbers are exact integers here; see README.) */
  function IntToString(n: int): string {
    if n < 0 then "-" + NatToString(-n) else NatToString(n)
  }

  /** The text of an integer reads back as the integer: its digits, after a minus sign when it
      is negative. */
  lemma IntToStringValue(n: int)
    ensures n >= 0 ==> (forall k :: 0 <= k < |IntToString(n)| ==> IsDigit(IntToString(n)[k])) &&
                       DecimalValue(IntToString(n)) == n
    ensures n < 0 ==> var r := IntToString(n);
      |r| >= 2 && r[0] == '-' && (forall k :: 1 <= k < |r| ==> IsDigit(r[k])) && DecimalValue(r[1..]) == -n
  {
    if n < 0 {
      DecimalRoundTrip(-n);
      assert IntToString(n)[1..] == NatToString(-n);
    } else {
      DecimalRoundTrip(n);
    }
  }
}
