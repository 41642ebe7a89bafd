/**
 * `convertToSeconds`: the duration text of a start command is scanned, left to right and
 * without overlaps, for the pattern
 *   (2[0-4]|1[0-9]|[1-9])(?=h) | ([1-5][0-9]|[1-9])(?=m) | ([1-5][0-9]|[1-9])(?=s)
 * and the matched hours, minutes and seconds are summed into seconds. The unit letter is a
 * lookahead: it must follow the digits but is not part of the match.
 */
module Duration {
  import opened Wrappers
  import opened JsText

  datatype Unit = Hours | Minutes | Seconds

  /** One match of the pattern: its unit, its value and the number of digits it consumed. */
  datatype Quantity = Quantity(unit: Unit, value: nat, width: nat)

  function UnitLetter(u: Unit): char {
    match u
    case Hours => 'h'
    case Minutes => 'm'
    case Seconds => 's'
  }

  predicate IsUnitLetter(c: char) {
    c == 'h' || c == 'm' || c == 's'
  }

  function UnitSeconds(u: Unit): nat {
    match u
    case Hours => 60 * 60
    case Minutes => 60
    case Seconds => 1
  }

  /** The largest count a match of this unit can carry. */
  function UnitCap(u: Unit): nat {
    if u == Hours then 24 else 59
  }

  /** `(2[0-4]|1[0-9]|[1-9])(?=h)` at position `i`, alternatives tried in order. */
  function HoursAt(s: string, i: nat): Option<Quantity> {
    if i + 2 < |s| && s[i] == '2' && '0' <= s[i + 1] <= '4' && s[i + 2] == 'h' then
      Some(Quantity(Hours, 20 + DigitValue(s[i + 1]), 2))
    else if i + 2 < |s| && s[i] == '1' && IsDigit(s[i + 1]) && s[i + 2] == 'h' then
      Some(Quantity(Hours, 10 + DigitValue(s[i + 1]), 2))
    else if i + 1 < |s| && '1' <= s[i] <= '9' && s[i + 1] == 'h' then
      Some(Quantity(Hours, DigitValue(s[i]), 1))
    else
      None
  }

  /** `([1-5][0-9]|[1-9])(?=m)` (or `(?=s)`) at position `i`, alternatives tried in order. */
  function SixtiethsAt(s: string, i: nat, u: Unit): Option<Quantity>
    requires u != Hours
  {
    if i + 2 < |s| && '1' <= s[i] <= '5' && IsDigit(s[i + 1]) && s[i + 2] == UnitLetter(u) then
      Some(Quantity(u, 10 * DigitValue(s[i]) + DigitValue(s[i + 1]), 2))
    else if i + 1 < |s| && '1' <= s[i] <= '9' && s[i + 1] == UnitLetter(u) then
      Some(Quantity(u, DigitValue(s[i]), 1))
    else
      None
  }

  /** The match of the whole pattern that starts at position `i`, if any. A match is one or two
      digits whose value is within the unit's range, directly followed by the unit letter. */
  function MatchAt(s: string, i: nat): (r: Option<Quantity>)
    ensures r.Some? ==> 1 <= r.value.width <= 2 && i + r.value.width < |s|
    ensures r.Some? ==> forall k :: i <= k < i + r.value.width ==> IsDigit(s[k])
    ensures r.Some? ==> s[i + r.value.width] == UnitLetter(r.value.unit)
    ensures r.Some? ==> r.value.value == DecimalValue(s[i..i + r.value.width])
    ensures r.Some? ==> 1 <= r.value.value <= UnitCap(r.value.unit)
    ensures r.Some? ==> '1' <= s[i] <= '9'
    ensures i + 1 < |s| && '1' <= s[i] <= '9' && IsUnitLetter(s[i + 1]) ==> r.Some?
    ensures forall u :: i + 2 < |s| && '1' <= s[i] <= '9' && IsDigit(s[i + 1]) && s[i + 2] == UnitLetter(u) &&
                        10 * DigitValue(s[i]) + DigitValue(s[i + 1]) <= UnitCap(u) ==>
                        r == Some(Quantity(u, 10 * DigitValue(s[i]) + DigitValue(s[i + 1]), 2))
  {
    var r := match HoursAt(s, i)
      case Some(q) => Some(q)
      case None =>
        match SixtiethsAt(s, i, Minutes)
        case Some(q) => Some(q)
        case None => SixtiethsAt(s, i, Seconds);
    if r.Some? then
      assert DecimalValue(s[i..i + 1]) == DigitValue(s[i]) by {
        assert s[i..i + 1][..0] == [];
      }
      assert r.value.width == 2 ==> DecimalValue(s[i..i + 2]) == 10 * DigitValue(s[i]) + DigitValue(s[i + 1]) by {
        if r.value.width == 2 {
          assert s[i..i + 2][..1] == s[i..i + 1];
          assert s[i..i + 1][..0] == [];
        }
      }
      r
    else
      r
  }

  /** The seconds contributed by the matches found when the scan resumes at position `i`. */
  function ScanFrom(s: string, i: nat): nat
    requires i <= |s|
    decreases |s| - i
  {
    if i == |s| then 0
    else match MatchAt(s, i)
      case Some(q) => q.value * UnitSeconds(q.unit) + ScanFrom(s, i + q.width)
      case None => ScanFrom(s, i + 1)
  }

  /** What `convertToSeconds(time)` returns. */
  function TotalSeconds(time: string): nat {
    ScanFrom(time, 0)
  }

  /** `convertToSeconds`: the loop over the pattern's matches, accumulating seconds. */
  method ConvertToSeconds(time: string) returns (timeInSeconds: nat)
    ensures timeInSeconds == TotalSeconds(time)
  {
    timeInSeconds := 0;
    var i := 0;
    while i < |time|
      invariant 0 <= i <= |time|
      invariant timeInSeconds + ScanFrom(time, i) == TotalSeconds(time)
      decreases |time| - i
    {
      var m := MatchAt(time, i);
      match m
      case Some(q) =>
        if q.unit == Hours {
          timeInSeconds := timeInSeconds + q.value * 60 * 60;
        }
        if q.unit == Minutes {
          timeInSeconds := timeInSeconds + q.value * 60;
        }
        if q.unit == Seconds {
          timeInSeconds := timeInSeconds + q.value * 1;
        }
        i := i + q.width;
      case None =>
        i := i + 1;
    }
  }

  /** The scan from `i` is worth something exactly when the pattern matches at some position
      from `i` on. */
  lemma {:induction false} ScanPositiveIffMatch(s: string, i: nat)
    requires i <= |s|
    ensures ScanFrom(s, i) > 0 <==> exists k :: i <= k < |s| && MatchAt(s, k).Some?
    decreases |s| - i
  {
    if i < |s| && MatchAt(s, i).None? {
      ScanPositiveIffMatch(s, i + 1);
    }
  }

  /** A duration text is worth something exactly when the pattern matches somewhere in it. */
  lemma PositiveIffMatch(time: string)
    ensures TotalSeconds(time) > 0 <==> exists k :: 0 <= k < |time| && MatchAt(time, k).Some?
  {
    ScanPositiveIffMatch(time, 0);
  }

  /** A digit directly followed by a unit letter somewhere in `s`. */
  predicate HasDigitBeforeUnit(s: string) {
    exists k :: 0 <= k < |s| - 1 && IsDigit(s[k]) && IsUnitLetter(s[k + 1])
  }

  lemma MatchMeansDigitBeforeUnit(s: string, i: nat)
    ensures MatchAt(s, i).Some? ==> HasDigitBeforeUnit(s)
  {
    match MatchAt(s, i)
    case Some(q) =>
      var k := i + q.width - 1;
      assert IsDigit(s[k]) && IsUnitLetter(s[k + 1]);
    case None =>
  }

  lemma {:induction false} ScanWithoutUnitsIsZero(s: string, i: nat)
    requires i <= |s|
    requires !HasDigitBeforeUnit(s)
    ensures ScanFrom(s, i) == 0
    decreases |s| - i
  {
    if i < |s| {
      MatchMeansDigitBeforeUnit(s, i);
      ScanWithoutUnitsIsZero(s, i + 1);
    }
  }

  /** Text in which no digit directly precedes `h`, `m` or `s` is worth no seconds. */
  lemma NoUnitMeansZero(time: string)
    requires !HasDigitBeforeUnit(time)
    ensures TotalSeconds(time) == 0
  {
    ScanWithoutUnitsIsZero(time, 0);
  }

  lemma {:induction false} ScanReachesNonzeroDigit(s: string, i: nat, k: nat)
    requires i <= k && k + 1 < |s|
    requires '1' <= s[k] <= '9' && IsUnitLetter(s[k + 1])
    ensures ScanFrom(s, i) > 0
    decreases |s| - i
  {
    match MatchAt(s, i)
    case Some(q) =>
    case None =>
      ScanReachesNonzeroDigit(s, i + 1, k);
  }

  /** A non-zero digit directly before `h`, `m` or `s` always yields a positive duration,
      whatever surrounds it. */
  lemma NonzeroDigitBeforeUnitIsPositive(time: string, k: nat)
    requires k + 1 < |time|
    requires '1' <= time[k] <= '9' && IsUnitLetter(time[k + 1])
    ensures TotalSeconds(time) > 0
  {
    ScanReachesNonzeroDigit(time, 0, k);
  }

  /** A character that can neither extend nor terminate a match. */
  predicate IsSeparator(c: char) {
    !IsDigit(c) && !IsUnitLetter(c)
  }

  lemma MatchAtPrefix(a: string, c: char, b: string, i: nat)
    requires IsSeparator(c) && i < |a|
    ensures MatchAt(a + [c] + b, i) == MatchAt(a, i)
  {
    var s := a + [c] + b;
    assert forall k :: 0 <= k < |a| ==> s[k] == a[k];
    assert s[|a|] == c;
  }

  lemma MatchAtSuffix(p: string, b: string, j: nat)
    requires j <= |b|
    ensures MatchAt(p + b, |p| + j) == MatchAt(b, j)
  {
    var s := p + b;
    assert forall k :: 0 <= k < |b| ==> s[|p| + k] == b[k];
  }

  lemma {:induction false} ScanSuffix(p: string, b: string, j: nat)
    requires j <= |b|
    ensures ScanFrom(p + b, |p| + j) == ScanFrom(b, j)
    decreases |b| - j
  {
    if j < |b| {
      MatchAtSuffix(p, b, j);
      match MatchAt(b, j)
      case Some(q) => ScanSuffix(p, b, j + q.width);
      case None => ScanSuffix(p, b, j + 1);
    }
  }

  lemma {:induction false} ScanPrefix(a: string, c: char, b: string, i: nat)
    requires IsSeparator(c) && i <= |a|
    ensures ScanFrom(a + [c] + b, i) == ScanFrom(a, i) + TotalSeconds(b)
    decreases |a| - i
  {
    var s := a + [c] + b;
    if i == |a| {
      assert MatchAt(s, i) == None by {
        assert s[i] == c;
      }
      assert s == (a + [c]) + b;
      ScanSuffix(a + [c], b, 0);
    } else {
      MatchAtPrefix(a, c, b, i);
      match MatchAt(a, i)
      case Some(q) => ScanPrefix(a, c, b, i + q.width);
      case None => ScanPrefix(a, c, b, i + 1);
    }
  }

  /** Pieces of a duration joined by a separator (a space, say) add up: this is how
      `"1h 1m 1s"` accumulates, and why a unit given twice counts twice. */
  lemma SeparatedPartsAdd(a: string, c: char, b: string)
    requires IsSeparator(c)
    ensures TotalSeconds(a + [c] + b) == TotalSeconds(a) + TotalSeconds(b)
  {
    ScanPrefix(a, c, b, 0);
  }

  lemma HourAndMinuteExample()
    ensures TotalSeconds("1h 1m") == 3660
  {
    assert ScanFrom("1h", 0) == 3600;
    assert ScanFrom("1m", 0) == 60;
    SeparatedPartsAdd("1h", ' ', "1m");
    assert "1h" + [' '] + "1m" == "1h 1m";
  }

  /** The format the usage message advertises. */
  lemma UsageExample()
    ensures TotalSeconds("1h 1m 1s") == 3661
  {
    HourAndMinuteExample();
    assert ScanFrom("1s", 0) == 1;
    SeparatedPartsAdd("1h 1m", ' ', "1s");
    assert "1h 1m" + [' '] + "1s" == "1h 1m 1s";
  }

  /** Repeated units accumulate. */
  lemma RepeatedUnitExample()
    ensures TotalSeconds("1m 1m") == 120
  {
    assert ScanFrom("1m", 0) == 60;
    SeparatedPartsAdd("1m", ' ', "1m");
    assert "1m" + [' '] + "1m" == "1m 1m";
  }

  /** In-range counts of two digits are taken whole. */
  lemma TwoDigitExamples()
    ensures TotalSeconds("30m") == 30 * 60
    ensures TotalSeconds("12h") == 12 * 60 * 60
    ensures TotalSeconds("45s") == 45
  {
  }

  /** Out-of-range counts: the pattern has no left anchor, so a two-digit count that is too
      large either matches nothing or matches only its last digit. */
  lemma OutOfRangeExamples()
    ensures TotalSeconds("60m") == 0
    ensures TotalSeconds("90m") == 0
    ensures TotalSeconds("25h") == 5 * 60 * 60
    ensures TotalSeconds("75m") == 5 * 60
  {
    assert MatchAt("60m", 0) == None;
    assert MatchAt("60m", 1) == None;
    assert ScanFrom("60m", 0) == 0;
    assert MatchAt("90m", 0) == None;
    assert MatchAt("90m", 1) == None;
    assert ScanFrom("90m", 0) == 0;
    assert MatchAt("25h", 0) == None;
    assert ScanFrom("25h", 1) == 5 * 60 * 60;
    assert MatchAt("75m", 0) == None;
    assert ScanFrom("75m", 1) == 5 * 60;
  }
}
