/**
 * The `MM:SS` time formatter of the player (`formatarTempo`,
 * src/app/page.tsx:115-120), together with the pieces of JavaScript it
 * relies on: `Math.floor`, the truncating remainder `%`,
 * `Number.prototype.toString` on a non-negative integer and
 * `String.prototype.padStart`. The parser `ParseClock` reads a formatted
 * time back into its two fields.
 */
module TimeFormat {
  import opened Wrappers

  /** A JavaScript number as the player sees it: NaN or a finite value. */
  datatype Num = NaN | Num(value: real)

  /** Rounding toward zero, as JavaScript's `%` uses for its quotient. */
  function Trunc(x: real): (k: int)
    ensures 0.0 <= x ==> 0 <= k && k as real <= x < k as real + 1.0
    ensures x <= 0.0 ==> k <= 0 && k as real - 1.0 < x <= k as real
  {
    if x < 0.0 then -((-x).Floor) else x.Floor
  }

  /**
   * JavaScript's `x % y` on numbers: `x` minus the truncated quotient times
   * `y`. For a positive divisor the result has the sign of `x` and lies
   * strictly within `y` of zero.
   */
  function JsRem(x: real, y: real): (r: real)
    requires y != 0.0
    ensures 0.0 < y && 0.0 <= x ==> 0.0 <= r < y
    ensures 0.0 < y && x <= 0.0 ==> -y < r <= 0.0
  {
    if 0.0 < y then
      RemainderBounds(x, y);
      x - y * Trunc(x / y) as real
    else
      x - y * Trunc(x / y) as real
  }

  /** The remainder of a positive divisor lies between the dividend and zero, less than `y` away from zero. */
  lemma RemainderBounds(x: real, y: real)
    requires 0.0 < y
    ensures 0.0 <= x ==> 0.0 <= x - y * Trunc(x / y) as real < y
    ensures x <= 0.0 ==> -y < x - y * Trunc(x / y) as real <= 0.0
  {
    var q := x / y;
    var k := Trunc(q) as real;
    QuotientSign(x, y);
    if 0.0 <= x {
      ScaleBelow(y, q, k);
      calc {
        x;
        == y * q;
        < y * k + y;
      }
      calc {
        y * k;
        <= y * q;
        == x;
      }
    }
    if x <= 0.0 {
      ScaleAbove(y, q, k);
      calc {
        y * k - y;
        < y * q;
        == x;
      }
      calc {
        x;
        == y * q;
        <= y * k;
      }
    }
  }

  lemma Distribute(y: real, k: real)
    ensures y * (k + 1.0) == y * k + y
    ensures y * (k - 1.0) == y * k - y
  {
  }

  lemma MulMonotone(y: real, a: real, b: real)
    requires 0.0 < y && a <= b
    ensures y * a <= y * b
  {
    assert y * b - y * a == y * (b - a);
  }

  lemma MulStrict(y: real, a: real, b: real)
    requires 0.0 < y && a < b
    ensures y * a < y * b
  {
    assert y * b - y * a == y * (b - a);
  }

  /** Scaling by a positive `y` keeps `k <= q < k + 1` as a bracket of width `y`. */
  lemma ScaleBelow(y: real, q: real, k: real)
    requires 0.0 < y && k <= q < k + 1.0
    ensures y * k <= y * q < y * k + y
  {
    MulMonotone(y, k, q);
    MulStrict(y, q, k + 1.0);
    Distribute(y, k);
  }

  /** Scaling by a positive `y` keeps `k - 1 < q <= k` as a bracket of width `y`. */
  lemma ScaleAbove(y: real, q: real, k: real)
    requires 0.0 < y && k - 1.0 < q <= k
    ensures y * k - y < y * q <= y * k
  {
    MulMonotone(y, q, k);
    MulStrict(y, k - 1.0, q);
    Distribute(y, k);
  }

  /** Dividing by a positive number keeps the sign. */
  lemma QuotientSign(x: real, y: real)
    requires 0.0 < y
    ensures 0.0 <= x ==> 0.0 <= x / y
    ensures x <= 0.0 ==> x / y <= 0.0
  {
    var q := x / y;
    assert y * q == x;
    if q < 0.0 { MulStrict(y, q, 0.0); }
    if 0.0 < q { MulStrict(y, 0.0, q); }
  }

  /**
   * The remainder the formatter takes, `x % 60`: it has the sign of `x`, is
   * below 60 in magnitude, and for `x >= 0` it is what is left after the
   * whole minutes.
   */
  lemma MinuteRemainder(x: real)
    ensures 0.0 <= x ==> 0.0 <= JsRem(x, 60.0) < 60.0
    ensures 0.0 <= x ==> JsRem(x, 60.0) == x - 60.0 * (x / 60.0).Floor as real
    ensures x <= 0.0 ==> -60.0 < JsRem(x, 60.0) <= 0.0
  {
  }

  predicate IsDigit(c: char) {
    '0' <= c <= '9'
  }

  predicate AllDigits(s: string) {
    forall i :: 0 <= i < |s| ==> IsDigit(s[i])
  }

  function DigitChar(d: nat): (c: char)
    requires d < 10
    ensures IsDigit(c)
    ensures c as int - '0' as int == d
  {
    ('0' as int + d) as char
  }

  /** The number a string of decimal digits denotes (leading zeros allowed). */
  function DecimalValue(s: string): nat
    requires AllDigits(s)
  {
    if s == [] then 0
    else DecimalValue(s[..|s| - 1]) * 10 + (s[|s| - 1] as int - '0' as int)
  }

  /**
   * `n.toString()` for a non-negative integer: its shortest decimal
   * representation, which reads back as `n`.
   */
  function ToDecimal(n: nat): (s: string)
    ensures AllDigits(s) && 1 <= |s|
    ensures DecimalValue(s) == n
    ensures 1 < |s| ==> s[0] != '0'
    ensures n < 10 <==> |s| == 1
    ensures n < 100 ==> |s| <= 2
  {
    if n < 10 then [DigitChar(n)]
    else
      var s := ToDecimal(n / 10) + [DigitChar(n % 10)];
      assert s[..|s| - 1] == ToDecimal(n / 10);
      s
  }

  /** `s.padStart(width, fill)`: `fill` added in front until `s` is `width` long. */
  function PadStart(s: string, width: nat, fill: char): (r: string)
    ensures |r| == if |s| < width then width else |s|
    ensures r[|r| - |s|..] == s
    ensures forall i :: 0 <= i < |r| - |s| ==> r[i] == fill
  {
    if |s| < width then seq(width - |s|, _ => fill) + s else s
  }

  /** Zeros in front of a string of digits do not change the number it denotes. */
  lemma {:induction false} LeadingZeros(z: string, s: string)
    requires forall i :: 0 <= i < |z| ==> z[i] == '0'
    requires AllDigits(s)
    ensures AllDigits(z + s)
    ensures DecimalValue(z + s) == DecimalValue(s)
    decreases |z| + |s|
  {
    var t := z + s;
    if s == [] {
      assert t == z;
      if z != [] {
        assert t[..|t| - 1] == z[..|z| - 1];
        LeadingZeros(z[..|z| - 1], []);
        assert z[..|z| - 1] + [] == z[..|z| - 1];
      }
    } else {
      assert t[..|t| - 1] == z + s[..|s| - 1];
      LeadingZeros(z, s[..|s| - 1]);
    }
  }

  /** A field padded to two digits with `'0'`, as the formatter writes it. */
  function Field(n: nat): (f: string)
    ensures AllDigits(f) && 2 <= |f|
    ensures DecimalValue(f) == n
    ensures n < 100 ==> |f| == 2
    ensures n < 10 ==> f == ['0', DigitChar(n)]
    ensures 10 <= n ==> f == ToDecimal(n)
  {
    var d := ToDecimal(n);
    var f := PadStart(d, 2, '0');
    assert f == f[..|f| - |d|] + d;
    LeadingZeros(f[..|f| - |d|], d);
    f
  }

  /**
   * `formatarTempo`: NaN and negative inputs become `"00:00"`; otherwise the
   * whole minutes and the remaining whole seconds, each padded to two digits.
   */
  function FormatTime(x: Num): (r: string)
    ensures x.NaN? || x.value < 0.0 ==> r == "00:00"
  {
    if x.NaN? || x.value < 0.0 then "00:00"
    else Clock(WholeMinutes(x.value), WholeSeconds(x.value))
  }

  /** `Math.floor(s / 60)` for a non-negative `s`. */
  function WholeMinutes(v: real): (m: nat)
    requires 0.0 <= v
    ensures 60 * m <= v.Floor < 60 * m + 60
  {
    (v / 60.0).Floor
  }

  /** `Math.floor(s % 60)` for a non-negative `s`: the seconds past the whole minutes. */
  function WholeSeconds(v: real): (s: nat)
    requires 0.0 <= v
    ensures s < 60
    ensures WholeMinutes(v) * 60 + s == v.Floor
  {
    MinuteRemainder(v);
    FloorShift(v, WholeMinutes(v) * 60);
    JsRem(v, 60.0).Floor
  }

  /**
   * Minutes and seconds written as two padded fields joined by a colon:
   * the colon is third from the end when the seconds are below 100, and
   * both fields below 100 give five characters.
   */
  function Clock(minutes: nat, seconds: nat): (r: string)
    ensures |r| == |Field(minutes)| + 1 + |Field(seconds)|
    ensures r[..|Field(minutes)|] == Field(minutes) && r[|Field(minutes)|] == ':'
    ensures r[|Field(minutes)| + 1..] == Field(seconds)
    ensures seconds < 100 ==> r[|r| - 3] == ':'
    ensures minutes < 100 && seconds < 100 ==> |r| == 5
  {
    Field(minutes) + ":" + Field(seconds)
  }

  /**
   * Reads `MM:SS` back: a minutes field of at least two digits, a colon and
   * a seconds field of exactly two digits.
   */
  function ParseClock(r: string): (p: Option<ClockFields>)
    ensures p.Some? ==> 5 <= |r| && r[|r| - 3] == ':'
  {
    if 5 <= |r| && r[|r| - 3] == ':' && AllDigits(r[..|r| - 3]) && AllDigits(r[|r| - 2..])
    then Some(ClockFields(DecimalValue(r[..|r| - 3]), DecimalValue(r[|r| - 2..])))
    else None
  }

  /** The two fields of a formatted time. */
  datatype ClockFields = ClockFields(minutes: nat, seconds: nat)

  /**
   * The shape of the formatted time: every output parses back as minutes
   * and seconds; for a non-negative input the seconds are below 60 and
   * together they count the whole seconds of the input.
   */
  lemma FormatTimeParses(x: Num)
    ensures ParseClock(FormatTime(x)).Some?
    ensures x.NaN? || x.value < 0.0 ==> ParseClock(FormatTime(x)) == Some(ClockFields(0, 0))
    ensures x.Num? && 0.0 <= x.value ==>
      var p := ParseClock(FormatTime(x));
      p.value.seconds < 60 && p.value.minutes * 60 + p.value.seconds == x.value.Floor
  {
    if x.NaN? || x.value < 0.0 {
      SentinelParses();
    } else {
      FieldsParse(x.value);
    }
  }

  lemma SentinelParses()
    ensures ParseClock("00:00") == Some(ClockFields(0, 0))
  {
    assert DecimalValue("00") == 0 by {
      assert "00"[..1] == "0";
    }
    ParseJoined("00", "00");
    assert "00" + ":" + "00" == "00:00";
  }

  lemma FieldsParse(v: real)
    requires 0.0 <= v
    ensures
      var p := ParseClock(FormatTime(Num(v)));
      p.Some? && p.value.seconds < 60 && p.value.minutes * 60 + p.value.seconds == v.Floor
  {
    ClockRoundTrip(WholeMinutes(v), WholeSeconds(v));
  }

  /** Writing minutes and seconds (below 100) and parsing them back gives them again. */
  lemma ClockRoundTrip(minutes: nat, seconds: nat)
    requires seconds < 100
    ensures ParseClock(Clock(minutes, seconds)) == Some(ClockFields(minutes, seconds))
  {
    ParseJoined(Field(minutes), Field(seconds));
  }

  /** For a whole number of seconds the two fields are its quotient and remainder by 60. */
  lemma FormatWholeSeconds(t: nat)
    ensures ParseClock(FormatTime(Num(t as real))) == Some(ClockFields(t / 60, t % 60))
  {
    FormatAsClock(t as real, t / 60, t % 60);
    ClockRoundTrip(t / 60, t % 60);
  }

  /** Two digit fields joined by a colon parse back as those two fields. */
  lemma ParseJoined(mm: string, ss: string)
    requires AllDigits(mm) && 2 <= |mm|
    requires AllDigits(ss) && |ss| == 2
    ensures ParseClock(mm + ":" + ss) == Some(ClockFields(DecimalValue(mm), DecimalValue(ss)))
  {
    var r := mm + ":" + ss;
    assert |r| == |mm| + 3 && r[|r| - 3] == ':';
    assert r[..|r| - 3] == mm;
    assert r[|r| - 2..] == ss;
    assert ParseClock(r) == Some(ClockFields(DecimalValue(r[..|r| - 3]), DecimalValue(r[|r| - 2..])));
  }

  /** Removing a whole number of seconds shifts the floor by that number. */
  lemma FloorShift(v: real, k: int)
    ensures (v - k as real).Floor == v.Floor - k
  {
  }

  /** A two-digit field is the tens digit and the units digit. */
  lemma TwoDigitField(n: nat, tens: nat, units: nat)
    requires 1 <= tens < 10 && units < 10 && n == 10 * tens + units
    ensures Field(n) == [DigitChar(tens), DigitChar(units)]
  {
    DecimalDigits(n, tens, units);
    var d := ToDecimal(n);
    assert d == ToDecimal(n / 10) + [DigitChar(n % 10)];
    assert ToDecimal(tens) == [DigitChar(tens)];
    assert Field(n) == d;
  }

  /** `10 * tens + units`, with `units` a digit, splits back into `tens` and `units`. */
  lemma DecimalDigits(n: nat, tens: nat, units: nat)
    requires units < 10 && n == 10 * tens + units
    ensures n / 10 == tens && n % 10 == units
  {
    var q, r := n / 10, n % 10;
    assert 10 * (tens - q) == r - units;
  }

  /** A non-negative input with `m` whole minutes and `s` seconds past them is written as `Clock(m, s)`. */
  lemma FormatAsClock(v: real, m: nat, s: nat)
    requires 0.0 <= v && 60 * m + s == v.Floor && s < 60
    ensures FormatTime(Num(v)) == Clock(m, s)
  {
    var m', s' := WholeMinutes(v), WholeSeconds(v);
    assert m' == m;
    assert s' == s;
  }

  /** The worked examples of the formatter: NaN and negative inputs. */
  lemma FormatTimeSentinelExamples()
    ensures FormatTime(NaN) == "00:00"
    ensures FormatTime(Num(-5.0)) == "00:00"
  {
  }

  /** A minute and five seconds. */
  lemma FormatTimeExample65()
    ensures FormatTime(Num(65.0)) == "01:05"
  {
    assert FormatTime(Num(65.0)) == Clock(1, 5) by {
      FormatAsClock(65.0, 1, 5);
    }
    assert Clock(1, 5) == "01:05" by {
      assert Field(1) == ['0', DigitChar(1)] && Field(5) == ['0', DigitChar(5)];
    }
  }

  /** An hour, a minute and a second: minutes are not reduced to hours. */
  lemma FormatTimeExample3661()
    ensures FormatTime(Num(3661.0)) == "61:01"
  {
    FormatAsClock(3661.0, 61, 1);
    ClockOf61And1();
  }

  lemma ClockOf61And1()
    ensures Clock(61, 1) == "61:01"
  {
    ClockOfTwoDigitsAndOne(61, 1);
    DecimalOf61();
    assert DigitChar(1) == '1';
    assert "61" + [':', '0', '1'] == "61:01";
  }

  lemma DecimalOf61()
    ensures ToDecimal(61) == "61"
  {
    assert ToDecimal(61) == ToDecimal(6) + [DigitChar(1)];
  }

  /** Minutes from 10 to 99 and seconds below 10: the minutes as written, a colon, a zero and the digit. */
  lemma ClockOfTwoDigitsAndOne(m: nat, s: nat)
    requires 10 <= m < 100 && s < 10
    ensures Clock(m, s) == ToDecimal(m) + [':', '0', DigitChar(s)]
  {
    JoinedWithPaddedDigit(Field(m), ToDecimal(m), Field(s), DigitChar(s));
  }

  lemma JoinedWithPaddedDigit(f: string, d: string, g: string, c: char)
    requires f == d && g == ['0', c]
    ensures f + ":" + g == d + [':', '0', c]
  {
  }
}
