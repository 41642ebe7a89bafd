/**
 * `sanitizeTime` and its inner `pad`: a number of milliseconds shown as `HH:MM:SS`, and
 * `getTimeLeft`, which shows what remains of a timer. The arithmetic is JavaScript's, whose `%`
 * truncates toward zero, so a negative remainder keeps its sign.
 */
module Clock {
  import opened JsText

  /** JavaScript's `a % b` for a positive divisor: the remainder has the sign of the dividend. */
  function JsRem(a: int, b: int): (r: int)
    requires b > 0
    ensures -b < r < b
    ensures a >= 0 ==> r >= 0
    ensures a < 0 ==> r <= 0
    ensures exists k :: a - r == k * b
  {
    if a >= 0 then
      assert a - a % b == (a / b) * b;
      a % b
    else
      assert a + (-a) % b == -((-a) / b) * b;
      -((-a) % b)
  }

  /** `pad(n)`: the last two characters of `'00' + n`. */
  function Pad(n: int): (r: string)
    ensures |r| == 2
  {
    var z := "00" + IntToString(n);
    z[|z| - 2..]
  }

  /** Hours, minutes and seconds. */
  datatype Hms = Hms(hrs: int, mins: int, secs: int)

  /** The arithmetic of `sanitizeTime`: milliseconds dropped, the rest split into hours,
      minutes and seconds by repeated truncating division. */
  function Split(timestamp: int): Hms {
    var millies := JsRem(timestamp, 1000);
    var wholeSeconds := (timestamp - millies) / 1000;
    var secs := JsRem(wholeSeconds, 60);
    var wholeMinutes := (wholeSeconds - secs) / 60;
    var mins := JsRem(wholeMinutes, 60);
    Hms((wholeMinutes - mins) / 60, mins, secs)
  }

  /** Three two-character fields separated by colons. */
  function JoinFields(hh: string, mm: string, ss: string): (r: string)
    requires |hh| == 2 && |mm| == 2 && |ss| == 2
    ensures |r| == 8 && r[2] == ':' && r[5] == ':'
  {
    hh + ":" + mm + ":" + ss
  }

  /** `sanitizeTime(timestamp)`: each field of the split padded to two characters. */
  function SanitizeTime(timestamp: int): (r: string)
    ensures |r| == 8 && r[2] == ':' && r[5] == ':'
  {
    var f := Split(timestamp);
    JoinFields(Pad(f.hrs), Pad(f.mins), Pad(f.secs))
  }

  /** `getTimeLeft`, with the clock reading passed in as `now`: until the end, a well-formed
      clock of the whole seconds left, hours modulo 100. */
  function GetTimeLeft(startDate: int, durationMs: int, now: int): (r: string)
    ensures |r| == 8 && r[2] == ':' && r[5] == ':'
    ensures now <= startDate + durationMs ==>
      IsClockText(r) && ReadClock(r) == (startDate + durationMs - now) / 1000 % 360000
  {
    var exceeded := startDate + durationMs - now;
    if exceeded >= 0 then
      ClockReadBack(exceeded);
      SanitizeTime(exceeded)
    else
      SanitizeTime(exceeded)
  }

  /** How a reader takes an `HH:MM:SS` display back to a number of seconds. */
  function ReadClock(r: string): int
    requires |r| == 8
  {
    (DigitValue(r[0]) * 10 + DigitValue(r[1])) * 3600 +
    (DigitValue(r[3]) * 10 + DigitValue(r[4])) * 60 +
    (DigitValue(r[6]) * 10 + DigitValue(r[7]))
  }

  /** A display whose six digit positions hold digits, with minutes and seconds below 60. */
  predicate IsClockText(r: string)
    requires |r| == 8
  {
    (forall k :: 0 <= k < 8 && k != 2 && k != 5 ==> IsDigit(r[k])) && r[3] <= '5' && r[6] <= '5'
  }

  /** A non-negative number pads to its last two decimal digits. */
  lemma {:induction false} PadNat(n: nat)
    ensures Pad(n) == [DigitChar(n / 10 % 10), DigitChar(n % 10)]
  {
    var t := NatToString(n);
    var z := "00" + t;
    assert z[|z| - 1] == t[|t| - 1];
    if n < 10 {
      assert z[|z| - 2] == '0';
    } else {
      assert z[|z| - 2] == t[|t| - 2];
    }
    assert z[|z| - 2..] == [z[|z| - 2], z[|z| - 1]];
  }

  lemma DigitCharValue(d: nat)
    requires d < 10
    ensures DigitValue(DigitChar(d)) == d
  {
  }

  lemma TwoDigitsValue(n: nat)
    ensures DigitValue(DigitChar(n / 10 % 10)) * 10 + DigitValue(DigitChar(n % 10)) == n % 100
  {
    DigitCharValue(n / 10 % 10);
    DigitCharValue(n % 10);
  }

  lemma HoursOfSeconds(w: nat)
    ensures w / 60 / 60 == w / 3600
  {
    var a := w / 60;
    var r := 60 * (a % 60) + w % 60;
    assert w == 3600 * (a / 60) + r;
    assert 0 <= r < 3600;
  }

  lemma ClockOfSeconds(w: nat)
    ensures (w / 3600 % 100) * 3600 + (w / 60 % 60) * 60 + w % 60 == w % 360000
  {
    var h := w / 3600;
    HoursOfSeconds(w);
    assert w == 3600 * h + 60 * (w / 60 % 60) + w % 60;
    var r := (h % 100) * 3600 + (w / 60 % 60) * 60 + w % 60;
    assert w == 360000 * (h / 100) + r;
    assert 0 <= r < 360000;
  }

  /** The split loses only the milliseconds: the fields, weighted by 3600, 60 and 1, are the
      whole seconds, which with the remainder `JsRem(t, 1000)` give `t` back. Minutes and seconds
      are below 60 in size, and every field has the sign of `t`. */
  lemma SplitRecombines(t: int)
    ensures var f := Split(t);
      (f.hrs * 3600 + f.mins * 60 + f.secs) * 1000 + JsRem(t, 1000) == t &&
      -60 < f.mins < 60 && -60 < f.secs < 60 &&
      (t >= 0 ==> f.hrs >= 0 && f.mins >= 0 && f.secs >= 0) &&
      (t <= 0 ==> f.hrs <= 0 && f.mins <= 0 && f.secs <= 0)
  {
    var millies := JsRem(t, 1000);
    var k1 :| t - millies == k1 * 1000;
    assert (k1 * 1000) / 1000 == k1;
    var w := (t - millies) / 1000;
    assert w == k1;
    var secs := JsRem(w, 60);
    var k2 :| w - secs == k2 * 60;
    assert (k2 * 60) / 60 == k2;
    var m := (w - secs) / 60;
    assert m == k2;
    var mins := JsRem(m, 60);
    var k3 :| m - mins == k3 * 60;
    assert (k3 * 60) / 60 == k3;
    var h := (m - mins) / 60;
    assert h == k3;
    assert Split(t) == Hms(h, mins, secs);
    assert w == h * 3600 + mins * 60 + secs;
  }

  /** On a non-negative input the truncating split is the ordinary one. */
  lemma SplitNat(t: int)
    requires t >= 0
    ensures Split(t) == Hms(t / 1000 / 3600, t / 1000 / 60 % 60, t / 1000 % 60)
  {
    var w := t / 1000;
    assert JsRem(t, 1000) == t % 1000;
    assert (t - t % 1000) / 1000 == w;
    assert JsRem(w, 60) == w % 60;
    assert (w - w % 60) / 60 == w / 60;
    assert JsRem(w / 60, 60) == w / 60 % 60;
    assert (w / 60 - w / 60 % 60) / 60 == w / 60 / 60;
    HoursOfSeconds(w);
  }

  /** Hours, minutes and seconds shown by their last two decimal digits each. */
  function Display(h: nat, m: nat, s: nat): string {
    [DigitChar(h / 10 % 10), DigitChar(h % 10), ':',
     DigitChar(m / 10 % 10), DigitChar(m % 10), ':',
     DigitChar(s / 10 % 10), DigitChar(s % 10)]
  }

  /** On a non-negative input each field shows its last two decimal digits. */
  lemma SanitizeNat(t: int)
    requires t >= 0
    ensures SanitizeTime(t) == Display(t / 1000 / 3600, t / 1000 / 60 % 60, t / 1000 % 60)
  {
    var h, m, s := t / 1000 / 3600, t / 1000 / 60 % 60, t / 1000 % 60;
    SplitNat(t);
    assert SanitizeTime(t) == Pad(h) + ":" + Pad(m) + ":" + Pad(s);
    PadNat(h);
    PadNat(m);
    PadNat(s);
  }

  /** A display of minutes and seconds below 60 is a well-formed clock, read back as the seconds
      it shows. */
  lemma ReadDisplay(h: nat, m: nat, s: nat)
    requires m < 60 && s < 60
    ensures IsClockText(Display(h, m, s))
    ensures ReadClock(Display(h, m, s)) == (h % 100) * 3600 + m * 60 + s
  {
    var d := Display(h, m, s);
    TwoDigitsValue(h);
    TwoDigitsValue(m);
    TwoDigitsValue(s);
    TensBelowSix(m);
    TensBelowSix(s);
    assert DigitValue(d[0]) * 10 + DigitValue(d[1]) == h % 100;
    assert DigitValue(d[3]) * 10 + DigitValue(d[4]) == m;
    assert DigitValue(d[6]) * 10 + DigitValue(d[7]) == s;
  }

  lemma TensBelowSix(m: nat)
    requires m < 60
    ensures m / 10 % 10 <= 5 && DigitChar(m / 10 % 10) <= '5'
  {
  }

  /** For a non-negative number of milliseconds, the display is a well-formed clock whose
      reading is the whole seconds, with hours past 99 losing their leading digits: `pad`
      keeps only the last two characters. */
  lemma ClockReadBack(t: int)
    requires t >= 0
    ensures IsClockText(SanitizeTime(t))
    ensures ReadClock(SanitizeTime(t)) == t / 1000 % 360000
  {
    var w := t / 1000;
    SanitizeNat(t);
    ReadDisplay(w / 3600, w / 60 % 60, w % 60);
    ClockOfSeconds(w);
  }

  lemma WholeSecondsBelowHundredHours(t: int)
    requires 0 <= t < 100 * 3600 * 1000
    ensures t / 1000 % 360000 == t / 1000
  {
    assert t / 1000 < 360000;
  }

  /** Below 100 hours the display shows exactly the whole seconds; the sub-second part is
      dropped. */
  lemma ClockExactBelowHundredHours(t: int)
    requires 0 <= t < 100 * 3600 * 1000
    ensures IsClockText(SanitizeTime(t))
    ensures ReadClock(SanitizeTime(t)) == t / 1000
  {
    ClockReadBack(t);
    WholeSecondsBelowHundredHours(t);
  }

  /** Repeated queries of one timer never show more time than an earlier query did, while the
      end has not been passed and less than 100 hours remain. */
  lemma CountdownNonIncreasing(startDate: int, durationMs: int, earlier: int, later: int)
    requires earlier <= later <= startDate + durationMs
    requires startDate + durationMs - earlier < 100 * 3600 * 1000
    ensures ReadClock(GetTimeLeft(startDate, durationMs, later)) <=
            ReadClock(GetTimeLeft(startDate, durationMs, earlier))
  {
    var a, b := startDate + durationMs - later, startDate + durationMs - earlier;
    assert a / 1000 <= b / 1000;
    ClockExactBelowHundredHours(a);
    ClockExactBelowHundredHours(b);
  }

  /** One hour, one minute and one second. */
  lemma HourMinuteSecondExample()
    ensures SanitizeTime(3661000) == "01:01:01"
  {
    assert Split(3661000) == Hms(1, 1, 1) by {
      SplitNat(3661000);
    }
    assert Pad(1) == "01" by {
      PadNat(1);
    }
    assert SanitizeTime(3661000) == Pad(1) + ":" + Pad(1) + ":" + Pad(1);
  }

  /** The sub-second part is dropped, not rounded. */
  lemma SubSecondDroppedExample()
    ensures SanitizeTime(3661999) == "01:01:01"
  {
    assert Split(3661999) == Hms(1, 1, 1) by {
      SplitNat(3661999);
    }
    assert Pad(1) == "01" by {
      PadNat(1);
    }
    assert SanitizeTime(3661999) == Pad(1) + ":" + Pad(1) + ":" + Pad(1);
  }

  lemma ZeroExample()
    ensures SanitizeTime(0) == "00:00:00"
  {
    assert Split(0) == Hms(0, 0, 0);
    assert Pad(0) == "00" by {
      PadNat(0);
    }
    assert SanitizeTime(0) == Pad(0) + ":" + Pad(0) + ":" + Pad(0);
  }

  /** Past the end, the remainder is negative and the display is garbled. */
  lemma OverdueExample()
    ensures SanitizeTime(-5000) == "00:00:-5"
  {
    assert Split(-5000) == Hms(0, 0, -5);
    assert Pad(0) == "00" by {
      PadNat(0);
    }
    assert Pad(-5) == "-5" by {
      assert IntToString(-5) == "-5";
    }
    assert SanitizeTime(-5000) == Pad(0) + ":" + Pad(0) + ":" + Pad(-5);
  }

  /** 100 hours and more: only the last two digits of the hours are shown. */
  lemma HundredHoursExample()
    ensures SanitizeTime(442800000) == "23:00:00"
  {
    assert Split(442800000) == Hms(123, 0, 0) by {
      SplitNat(442800000);
    }
    assert Pad(123) == "23" by {
      PadNat(123);
    }
    assert Pad(0) == "00" by {
      PadNat(0);
    }
    assert SanitizeTime(442800000) == Pad(123) + ":" + Pad(0) + ":" + Pad(0);
  }
}
