/**
 * Times of day, dates and the wall clock as the scheduling handlers use them.
 * A time of day is a number of minutes since midnight; it travels on the wire
 * as a zero-padded "HH:MM" string.
 */
module Clock {
  import opened Optional

  /** A time of day at minute resolution (a `datetime.time` with zero seconds). */
  type Minute = m: int | 0 <= m < 1440

  /** A calendar date, as a day number counted from an arbitrary origin. */
  type Date = int

  /** The microseconds elapsed within the current minute. */
  type SubMinute = u: int | 0 <= u < 60_000_000

  /** A reading of the wall clock (`datetime.now()`), passed in explicitly. */
  datatype Now = Now(date: Date, minute: Minute, micros: SubMinute)

  /** A date field of a request, before and after `strptime(_, '%Y-%m-%d')`. */
  datatype DateInput = Absent | Unparseable | Parsed(date: Date)

  predicate IsDigit(c: char) { '0' <= c <= '9' }

  function DigitValue(c: char): (d: int)
    requires IsDigit(c)
    ensures 0 <= d <= 9
  {
    c as int - '0' as int
  }

  function DigitChar(d: int): (c: char)
    requires 0 <= d <= 9
    ensures IsDigit(c) && DigitValue(c) == d
  {
    ('0' as int + d) as char
  }

  /** `strftime('%H:%M')`: two-digit hour, a colon, two-digit minute. */
  function Format(m: Minute): (s: string)
    ensures |s| == 5 && s[2] == ':'
    ensures IsDigit(s[0]) && IsDigit(s[1]) && IsDigit(s[3]) && IsDigit(s[4])
  {
    var h, mm := m / 60, m % 60;
    [DigitChar(h / 10), DigitChar(h % 10), ':', DigitChar(mm / 10), DigitChar(mm % 10)]
  }

  /** One or two ASCII digits read as a number; anything else is not a field. */
  function Field(s: string): (r: Option<nat>)
    ensures r.Some? ==> 1 <= |s| <= 2 && r.value < 100
    ensures r.Some? && |s| == 1 ==> r.value < 10
  {
    if |s| == 1 && IsDigit(s[0]) then Some(DigitValue(s[0]))
    else if |s| == 2 && IsDigit(s[0]) && IsDigit(s[1]) then Some(10 * DigitValue(s[0]) + DigitValue(s[1]))
    else None
  }

  /**
   * `strptime(s, '%H:%M')`: an hour of one or two digits up to 23, a colon,
   * a minute of one or two digits up to 59, and nothing else. The hour and
   * the minute need not be zero-padded ("9:5" is 09:05).
   */
  function ParseTime(s: string): (r: Option<Minute>)
    ensures r.Some? ==> 3 <= |s| <= 5 && (s[1] == ':' || s[2] == ':')
  {
    var k := if 2 <= |s| && s[1] == ':' then 1 else 2;
    if |s| <= k || s[k] != ':' then None
    else
      match (Field(s[..k]), Field(s[k + 1..]))
      case (Some(h), Some(m)) => if h <= 23 && m <= 59 then Some(h * 60 + m) else None
      case _ => None
  }

  /** Python's `<` on strings: lexicographic by code point. */
  predicate StrLess(a: string, b: string)
    decreases |a|
  {
    if a == [] then b != []
    else if b == [] then false
    else if a[0] != b[0] then a[0] < b[0]
    else StrLess(a[1..], b[1..])
  }

  /** String `<` is a strict total order: never both ways, and one way for any two different strings. */
  lemma {:induction false} StrLessTotal(a: string, b: string)
    ensures StrLess(a, b) ==> !StrLess(b, a)
    ensures a != b && !StrLess(a, b) ==> StrLess(b, a)
    decreases |a|
  {
    if a != [] && b != [] && a[0] == b[0] {
      StrLessTotal(a[1..], b[1..]);
      assert a == [a[0]] + a[1..] && b == [b[0]] + b[1..];
    }
  }

  /** The slot that starts at `m` ends an hour later, wrapping past midnight. */
  function AddHour(m: Minute): (r: Minute)
    ensures r == m + 60 || r == m + 60 - 1440
  {
    (m + 60) % 1440
  }

  /** A point in time in microseconds: day `d`, minute `m`, `u` microseconds into the minute. */
  function Instant(d: Date, m: Minute, u: SubMinute): int
  {
    (d * 1440 + m) * 60_000_000 + u
  }

  /**
   * `datetime.combine(date, time) < now`: the instant at the start of minute
   * `m` of day `d` lies strictly before the clock reading.
   */
  predicate Before(d: Date, m: Minute, now: Now)
    ensures Before(d, m, now) <==> Instant(d, m, 0) < Instant(now.date, now.minute, now.micros)
  {
    d < now.date || (d == now.date && (m < now.minute || (m == now.minute && 0 < now.micros)))
  }

  /** Every time of day survives formatting and parsing back. */
  lemma ParseFormat(m: Minute)
    ensures ParseTime(Format(m)) == Some(m)
  {
    var s := Format(m);
    var h, mm := m / 60, m % 60;
    assert s[..2] == [DigitChar(h / 10), DigitChar(h % 10)];
    assert s[3..] == [DigitChar(mm / 10), DigitChar(mm % 10)];
    assert Field(s[..2]) == Some(h);
    assert Field(s[3..]) == Some(mm);
  }

  /** A five-character string that parses is the canonical spelling of its time. */
  lemma FormatCanonical(s: string)
    requires |s| == 5 && ParseTime(s).Some?
    ensures Format(ParseTime(s).value) == s
  {
    var m := ParseTime(s).value;
    assert s[2] == ':';
    var h, mm := Field(s[..2]).value, Field(s[3..]).value;
    assert h == 10 * DigitValue(s[0]) + DigitValue(s[1]);
    assert mm == 10 * DigitValue(s[3]) + DigitValue(s[4]);
    assert m == h * 60 + mm;
    assert m / 60 == h && m % 60 == mm;
    var f := Format(m);
    assert f[0] == s[0] && f[1] == s[1] && f[3] == s[3] && f[4] == s[4];
  }

  /**
   * The spellings of `v` that `%H` and `%M` accept: two digits, and a single
   * digit as well when `v` is below ten.
   */
  function Spellings(v: nat): set<string>
  {
    if v >= 100 then {}
    else {[DigitChar(v / 10), DigitChar(v % 10)]} + (if v < 10 then {[DigitChar(v)]} else {})
  }

  /** A field reads as `v` exactly when it is one of the spellings of `v`. */
  lemma FieldSpellings(x: string, v: nat)
    ensures Field(x) == Some(v) <==> x in Spellings(v)
  {
    if Field(x) == Some(v) {
      if |x| == 1 {
        assert x == [DigitChar(v)];
      } else {
        assert x == [DigitChar(v / 10), DigitChar(v % 10)];
      }
    }
  }

  /**
   * A string parses to minute `m` exactly when it is a spelling of the hour,
   * a colon and a spelling of the minute: "9:05", "09:5" and "9:5" all read
   * as 09:05, and no other string does.
   */
  lemma ParseTimeSpellings(s: string, m: Minute)
    ensures ParseTime(s) == Some(m) <==>
      exists i :: 0 <= i < |s| && s[i] == ':' && s[..i] in Spellings(m / 60) && s[i + 1..] in Spellings(m % 60)
  {
    if ParseTime(s) == Some(m) {
      var k := if 2 <= |s| && s[1] == ':' then 1 else 2;
      var h, mm := Field(s[..k]).value, Field(s[k + 1..]).value;
      assert m / 60 == h && m % 60 == mm;
      FieldSpellings(s[..k], h);
      FieldSpellings(s[k + 1..], mm);
    }
    if i :| 0 <= i < |s| && s[i] == ':' && s[..i] in Spellings(m / 60) && s[i + 1..] in Spellings(m % 60) {
      FieldSpellings(s[..i], m / 60);
      FieldSpellings(s[i + 1..], m % 60);
      if i == 2 {
        assert s[1] == s[..i][1];
      }
      assert (if 2 <= |s| && s[1] == ':' then 1 else 2) == i;
    }
  }

  /** Digit characters compare as their values. */
  lemma DigitCharOrder(x: int, y: int)
    requires 0 <= x <= 9 && 0 <= y <= 9
    ensures DigitChar(x) < DigitChar(y) <==> x < y
    ensures DigitChar(x) == DigitChar(y) <==> x == y
  {
  }

  /** On two five-character strings with the same middle character, `<` is decided by the other four. */
  lemma StrLessFive(x: string, y: string)
    requires |x| == 5 && |y| == 5 && x[2] == y[2]
    ensures StrLess(x, y) <==>
      x[0] < y[0] || (x[0] == y[0] && (x[1] < y[1] || (x[1] == y[1] &&
        (x[3] < y[3] || (x[3] == y[3] && x[4] < y[4])))))
  {
    var x1, y1 := x[1..], y[1..];
    var x2, y2 := x1[1..], y1[1..];
    var x3, y3 := x2[1..], y2[1..];
    var x4, y4 := x3[1..], y3[1..];
    assert x1[0] == x[1] && y1[0] == y[1] && x2[0] == x[2] && y2[0] == y[2];
    assert x3[0] == x[3] && y3[0] == y[3] && x4[0] == x[4] && y4[0] == y[4];
    assert x4[1..] == [] && y4[1..] == [];
    assert StrLess(x4, y4) <==> x[4] < y[4];
    assert StrLess(x3, y3) <==> x[3] < y[3] || (x[3] == y[3] && StrLess(x4, y4));
    assert StrLess(x2, y2) <==> StrLess(x3, y3);
    assert StrLess(x1, y1) <==> x[1] < y[1] || (x[1] == y[1] && StrLess(x2, y2));
  }

  /**
   * Comparing zero-padded "HH:MM" strings compares the times they spell:
   * sorting by the string and filtering by `>` on strings are chronological.
   */
  lemma {:induction false} FormatOrder(a: Minute, b: Minute)
    ensures StrLess(Format(a), Format(b)) <==> a < b
  {
    var fa, fb := Format(a), Format(b);
    var a1, a2, a3, a4 := a / 60 / 10, a / 60 % 10, a % 60 / 10, a % 60 % 10;
    var b1, b2, b3, b4 := b / 60 / 10, b / 60 % 10, b % 60 / 10, b % 60 % 10;
    assert a == 600 * a1 + 60 * a2 + 10 * a3 + a4;
    assert b == 600 * b1 + 60 * b2 + 10 * b3 + b4;
    DigitCharOrder(a1, b1);
    DigitCharOrder(a2, b2);
    DigitCharOrder(a3, b3);
    DigitCharOrder(a4, b4);
    StrLessFive(fa, fb);
    assert fa[0] == DigitChar(a1) && fa[1] == DigitChar(a2) && fa[3] == DigitChar(a3) && fa[4] == DigitChar(a4);
    assert fb[0] == DigitChar(b1) && fb[1] == DigitChar(b2) && fb[3] == DigitChar(b3) && fb[4] == DigitChar(b4);
  }
}
