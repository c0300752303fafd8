/**
 * The ISO 8601 timestamps of the task table: printing, parsing, and why text order is time order.
 * Instants are ticks of the system clock (nanoseconds) since 1970-01-01T00:00:00Z.
 */
module TimeCodec {
  import opened Wrappers

  const TICKS_PER_MS: int := 1_000_000

  // The proleptic Gregorian calendar

  predicate Leap(y: int)
  {
    y % 4 == 0 && (y % 100 != 0 || y % 400 == 0)
  }

  function DaysInMonth(y: int, m: int): int
  {
    if m == 2 then (if Leap(y) then 29 else 28)
    else if m == 4 || m == 6 || m == 9 || m == 11 then 30
    else 31
  }

  /** Days from 0000-01-01 to the first day of year `y`. */
  function DaysBeforeYear(y: int): int
  {
    365 * y + (y + 3) / 4 - (y + 99) / 100 + (y + 399) / 400
  }

  /** Days from the first day of year `y` to the first day of its month `m`; month 13 is the end of the year. */
  function DaysBeforeMonth(y: int, m: nat): int
  {
    if m <= 1 then 0 else DaysBeforeMonth(y, m - 1) + DaysInMonth(y, m - 1)
  }

  /** 1970-01-01, counted from 0000-01-01. */
  const EPOCH: int := 719528

  /** Days since the epoch of a calendar date (std::chrono::sys_days). */
  function DayNumber(y: int, m: nat, d: int): int
  {
    DaysBeforeYear(y) + DaysBeforeMonth(y, m) + d - 1 - EPOCH
  }

  /** The last year up to `y` that starts on or before day `n`. */
  function YearOf(n: nat, y: nat): (r: nat)
    ensures r <= y
    ensures DaysBeforeYear(r) <= n
    ensures forall k :: r < k <= y ==> n < DaysBeforeYear(k)
    decreases y
  {
    if y == 0 || DaysBeforeYear(y) <= n then y else YearOf(n, y - 1)
  }

  function MonthOf(n: nat, y: int, m: nat): (r: nat)
    requires 1 <= m <= 12
    ensures 1 <= r <= m && DaysBeforeMonth(y, r) <= n
    ensures r < m ==> n < DaysBeforeMonth(y, r + 1)
    decreases m
  {
    if m == 1 || DaysBeforeMonth(y, m) <= n then m else MonthOf(n, y, m - 1)
  }

  // Printing

  /** A number printed with `width` digits and followed by `sep`. */
  datatype Field = Field(value: int, width: nat, sep: char)

  function Digit(n: int): char
    requires 0 <= n < 10
  {
    '0' + n as char
  }

  function Pad(n: nat, width: nat): (s: string)
    ensures |s| == width
  {
    if width == 0 then "" else Pad(n / 10, width - 1) + [Digit(n % 10)]
  }

  predicate Printable(fields: seq<Field>)
  {
    forall k :: 0 <= k < |fields| ==> 0 <= fields[k].value < Pow10(fields[k].width)
  }

  function Pow10(n: nat): nat
  {
    if n == 0 then 1 else 10 * Pow10(n - 1)
  }

  function Render(fields: seq<Field>): string
    requires Printable(fields)
  {
    if fields == [] then ""
    else Pad(fields[0].value, fields[0].width) + [fields[0].sep] + Render(fields[1..])
  }

  function FloorMs(t: int): int
  {
    t / TICKS_PER_MS
  }

  /** Milliseconds since 0000-01-01 of an instant in the years 0000 to 9999. */
  predicate InRange(t: int)
  {
    0 <= FloorMs(t) + EPOCH * 86_400_000 < DaysBeforeYear(10_000) * 86_400_000
  }

  /** Seconds, minutes, hours and days since 0000-01-01 of an instant. */
  function Seconds(t: int): int { (FloorMs(t) + EPOCH * 86_400_000) / 1000 }
  function Minutes(t: int): int { Seconds(t) / 60 }
  function Hours(t: int): int { Minutes(t) / 60 }
  function Days(t: int): int { Hours(t) / 24 }

  function Year(n: nat): nat { YearOf(n, n / 365) }
  function DayOfYear(n: nat): nat { n - DaysBeforeYear(Year(n)) }
  function Month(n: nat): nat { MonthOf(DayOfYear(n), Year(n), 12) }
  function DayOfMonth(n: nat): nat { DayOfYear(n) - DaysBeforeMonth(Year(n), Month(n)) + 1 }

  lemma DaysInRange(t: int)
    requires InRange(t)
    ensures 0 <= Days(t) < DaysBeforeYear(10_000)
  {
  }

  lemma MonthStarts(y: int)
    ensures var leap := if Leap(y) then 1 else 0;
      && DaysBeforeMonth(y, 4) == 90 + leap && DaysBeforeMonth(y, 7) == 181 + leap
      && DaysBeforeMonth(y, 10) == 273 + leap && DaysBeforeMonth(y, 13) == 365 + leap
  {
    var leap := if Leap(y) then 1 else 0;
    assert DaysBeforeMonth(y, 2) == 31;
    assert DaysBeforeMonth(y, 3) == 59 + leap;
    assert DaysBeforeMonth(y, 4) == 90 + leap;
    assert DaysBeforeMonth(y, 5) == 120 + leap;
    assert DaysBeforeMonth(y, 6) == 151 + leap;
    assert DaysBeforeMonth(y, 7) == 181 + leap;
    assert DaysBeforeMonth(y, 8) == 212 + leap;
    assert DaysBeforeMonth(y, 9) == 243 + leap;
    assert DaysBeforeMonth(y, 10) == 273 + leap;
    assert DaysBeforeMonth(y, 11) == 304 + leap;
    assert DaysBeforeMonth(y, 12) == 334 + leap;
  }

  lemma YearLength(y: int)
    ensures DaysBeforeYear(y + 1) == DaysBeforeYear(y) + (if Leap(y) then 366 else 365)
    ensures DaysBeforeMonth(y, 13) == if Leap(y) then 366 else 365
  {
    MonthStarts(y);
    Multiples4(y);
    Multiples100(y);
    Multiples400(y);
  }

  lemma Multiples4(y: int)
    ensures (y + 4) / 4 == (y + 3) / 4 + if y % 4 == 0 then 1 else 0
  {
  }

  lemma Multiples100(y: int)
    ensures (y + 100) / 100 == (y + 99) / 100 + if y % 100 == 0 then 1 else 0
    ensures y % 100 == 0 ==> y % 4 == 0
  {
  }

  lemma Multiples400(y: int)
    ensures (y + 400) / 400 == (y + 399) / 400 + if y % 400 == 0 then 1 else 0
    ensures y % 400 == 0 ==> y % 100 == 0
  {
  }

  lemma {:induction false} YearsGrow(y: int, z: int)
    requires y <= z
    ensures DaysBeforeYear(y) + 365 * (z - y) <= DaysBeforeYear(z)
    decreases z - y
  {
    if y < z {
      YearsGrow(y, z - 1);
      YearLength(z - 1);
    }
  }

  /** The date of a day is a date of the calendar, and its day number is that day. */
  lemma DateIsValid(n: nat)
    requires n < DaysBeforeYear(10_000)
    ensures 0 <= Year(n) <= 9999 && 1 <= Month(n) <= 12 && 1 <= DayOfMonth(n) <= DaysInMonth(Year(n), Month(n))
    ensures DayNumber(Year(n), Month(n), DayOfMonth(n)) == n - EPOCH
  {
    var y := Year(n);
    YearsGrow(0, n / 365 + 1);
    assert n < DaysBeforeYear(y + 1);
    YearLength(y);
    if y >= 10_000 {
      YearsGrow(10_000, y);
    }
    var m := Month(n);
    assert DayOfYear(n) < DaysBeforeMonth(y, m + 1);
  }

  function Fields(t: int): (f: seq<Field>)
    requires InRange(t)
  {
    DaysInRange(t);
    var n: nat := Days(t);
    Stamp(Year(n), Month(n), DayOfMonth(n), Hours(t) % 24, Minutes(t) % 60, Seconds(t) % 60,
          (FloorMs(t) + EPOCH * 86_400_000) % 1000)
  }

  function Stamp(y: int, mo: int, d: int, h: int, mi: int, s: int, ms: int): seq<Field>
  {
    [Field(y, 4, '-'), Field(mo, 2, '-'), Field(d, 2, 'T'), Field(h, 2, ':'), Field(mi, 2, ':'), Field(s, 2, '.'), Field(ms, 3, 'Z')]
  }

  lemma StampPrintable(y: int, mo: int, d: int, h: int, mi: int, s: int, ms: int)
    requires 0 <= y < 10_000 && 0 <= mo < 100 && 0 <= d < 100
    requires 0 <= h < 100 && 0 <= mi < 100 && 0 <= s < 100 && 0 <= ms < 1000
    ensures Printable(Stamp(y, mo, d, h, mi, s, ms))
  {
    Powers();
  }

  lemma FieldsPrintable(t: int)
    requires InRange(t)
    ensures Printable(Fields(t))
  {
    DaysInRange(t);
    var n: nat := Days(t);
    DateIsValid(n);
    StampPrintable(Year(n), Month(n), DayOfMonth(n), Hours(t) % 24, Minutes(t) % 60, Seconds(t) % 60,
                   (FloorMs(t) + EPOCH * 86_400_000) % 1000);
  }

  lemma Powers()
    ensures Pow10(2) == 100 && Pow10(3) == 1000 && Pow10(4) == 10_000
  {
    assert Pow10(1) == 10;
  }

  function ToIso8601(t: int): string
    requires InRange(t)
  {
    FieldsPrintable(t);
    Render(Fields(t))
  }

  // Parsing

  predicate IsDigit(c: char)
  {
    '0' <= c <= '9'
  }

  predicate AllDigits(s: string)
  {
    forall i :: 0 <= i < |s| ==> IsDigit(s[i])
  }

  function Value(s: string): nat
    requires AllDigits(s)
  {
    if s == "" then 0 else Value(s[..|s| - 1]) * 10 + (s[|s| - 1] as int - '0' as int)
  }

  /** The number in `s[off..off + len]`, if those characters are there and are digits. */
  function TakeInt(s: string, off: nat, len: nat): Option<nat>
  {
    if off + len <= |s| && AllDigits(s[off..off + len]) then Some(Value(s[off..off + len])) else None
  }

  /** End of the run of digits that starts at `from`, looking at no more than `limit` of them. */
  function DigitsEnd(s: string, from: nat, limit: nat): (end: nat)
    requires from <= |s|
    ensures from <= end <= |s| && end <= from + limit
    ensures AllDigits(s[from..end])
    decreases limit
  {
    if limit > 0 && from < |s| && IsDigit(s[from]) then
      var end := DigitsEnd(s, from + 1, limit - 1);
      assert s[from..end] == [s[from]] + s[from + 1..end];
      end
    else from
  }

  /** Milliseconds after the seconds field: up to three digits after a point, as a decimal fraction. */
  function Fraction(s: string): nat
  {
    if |s| > 19 && s[19] == '.' then
      var end := DigitsEnd(s, 20, 3);
      Value(s[20..end]) * Pow10(3 - (end - 20))
    else 0
  }

  predicate Separated(s: string)
    requires |s| >= 19
  {
    s[4] == '-' && s[7] == '-' && s[10] == 'T' && s[13] == ':' && s[16] == ':'
  }

  predicate ValidDate(y: int, m: int, d: int)
  {
    1 <= m <= 12 && 1 <= d <= DaysInMonth(y, m)
  }

  function ParseIso8601(s: string): Result<int, string>
  {
    if |s| < 19 then Err("ISO8601 timestamp too short")
    else if !Separated(s) then Err("Malformed ISO8601 timestamp")
    else
      match (TakeInt(s, 0, 4), TakeInt(s, 5, 2), TakeInt(s, 8, 2), TakeInt(s, 11, 2), TakeInt(s, 14, 2), TakeInt(s, 17, 2))
      case (Some(y), Some(m), Some(d), Some(hh), Some(mm), Some(ss)) =>
        if !ValidDate(y, m, d) then Err("Out-of-range Y/M/D in timestamp")
        else Ok(((((DayNumber(y, m, d) * 24 + hh) * 60 + mm) * 60 + ss) * 1000 + Fraction(s)) * TICKS_PER_MS)
      case _ => Err("Malformed ISO8601 timestamp")
  }

  method ReadInt(s: string, off: nat, len: nat) returns (r: Option<nat>)
    ensures r == TakeInt(s, off, len)
  {
    if off + len > |s| {
      return None;
    }
    var v: nat := 0;
    for i := 0 to len
      invariant AllDigits(s[off..off + i]) && v == Value(s[off..off + i])
    {
      var c := s[off + i];
      if !IsDigit(c) {
        assert s[off..off + len][i] == c;
        return None;
      }
      assert s[off..off + i + 1] == s[off..off + i] + [c];
      v := v * 10 + (c as int - '0' as int);
    }
    r := Some(v);
  }

  method ReadFraction(s: string) returns (ms: nat)
    ensures ms == Fraction(s)
  {
    ms := 0;
    var cursor := 19;
    if cursor < |s| && s[cursor] == '.' {
      var digits, frac: nat := 0, 0;
      cursor := cursor + 1;
      while cursor < |s| && digits < 3 && IsDigit(s[cursor])
        invariant 0 <= digits <= 3 && cursor == 20 + digits <= |s|
        invariant DigitsEnd(s, 20, 3) == DigitsEnd(s, cursor, 3 - digits)
        invariant AllDigits(s[20..cursor]) && frac == Value(s[20..cursor])
      {
        assert s[20..cursor + 1] == s[20..cursor] + [s[cursor]];
        frac := frac * 10 + (s[cursor] as int - '0' as int);
        cursor := cursor + 1;
        digits := digits + 1;
      }
      assert cursor == DigitsEnd(s, 20, 3);
      ghost var start, read := frac, digits;
      assert start * Pow10(0) == start;
      while digits < 3
        invariant read <= digits <= 3
        invariant frac == start * Pow10(digits - read)
      {
        assert start * Pow10(digits + 1 - read) == (start * Pow10(digits - read)) * 10;
        frac := frac * 10;
        digits := digits + 1;
      }
      ms := frac;
    }
  }

  method Parse(s: string) returns (r: Result<int, string>)
    ensures r == ParseIso8601(s)
  {
    if |s| < 19 {
      return Err("ISO8601 timestamp too short");
    }
    var y := ReadInt(s, 0, 4);
    var m := ReadInt(s, 5, 2);
    var d := ReadInt(s, 8, 2);
    var hh := ReadInt(s, 11, 2);
    var mm := ReadInt(s, 14, 2);
    var ss := ReadInt(s, 17, 2);
    if y.None? || s[4] != '-' || m.None? || s[7] != '-' || d.None? || s[10] != 'T' || hh.None? || s[13] != ':'
       || mm.None? || s[16] != ':' || ss.None? {
      return Err("Malformed ISO8601 timestamp");
    }
    var ms := ReadFraction(s);
    if !ValidDate(y.value, m.value, d.value) {
      return Err("Out-of-range Y/M/D in timestamp");
    }
    r := Ok(((((DayNumber(y.value, m.value, d.value) * 24 + hh.value) * 60 + mm.value) * 60 + ss.value) * 1000 + ms) * TICKS_PER_MS);
  }

  // Round trip

  lemma {:induction false} PadValue(n: nat, width: nat)
    requires n < Pow10(width)
    ensures AllDigits(Pad(n, width)) && Value(Pad(n, width)) == n
  {
    if width > 0 {
      PadValue(n / 10, width - 1);
      var s := Pad(n, width);
      assert s[..|s| - 1] == Pad(n / 10, width - 1);
    }
  }

  function Offset(fields: seq<Field>, k: nat): nat
    requires k <= |fields|
  {
    if k == 0 then 0 else fields[0].width + 1 + Offset(fields[1..], k - 1)
  }

  lemma {:induction false} RenderLength(fields: seq<Field>)
    requires Printable(fields)
    ensures |Render(fields)| == Offset(fields, |fields|)
  {
    if fields != [] {
      RenderLength(fields[1..]);
    }
  }

  /** Field `k` is found at its offset, followed by its separator. */
  lemma {:induction false} RenderAt(fields: seq<Field>, k: nat)
    requires Printable(fields) && k < |fields|
    ensures var o := Offset(fields, k); var w := fields[k].width;
      && o + w < |Render(fields)|
      && Render(fields)[o..o + w] == Pad(fields[k].value, w)
      && Render(fields)[o + w] == fields[k].sep
  {
    var head := Pad(fields[0].value, fields[0].width) + [fields[0].sep];
    var rest := fields[1..];
    var all, more := Render(fields), Render(rest);
    assert all == head + more;
    if k > 0 {
      RenderAt(rest, k - 1);
      var o, w := Offset(rest, k - 1), fields[k].width;
      assert all[|head| + o..|head| + o + w] == more[o..o + w];
    }
  }

  lemma TakeField(fields: seq<Field>, k: nat)
    requires Printable(fields) && k < |fields|
    ensures TakeInt(Render(fields), Offset(fields, k), fields[k].width) == Some(fields[k].value)
    ensures var at := Offset(fields, k) + fields[k].width; at < |Render(fields)| && Render(fields)[at] == fields[k].sep
  {
    RenderAt(fields, k);
    PadValue(fields[k].value, fields[k].width);
  }

  lemma Offsets(t: int)
    requires InRange(t)
    ensures var f := Fields(t);
      && Offset(f, 0) == 0 && Offset(f, 1) == 5 && Offset(f, 2) == 8 && Offset(f, 3) == 11
      && Offset(f, 4) == 14 && Offset(f, 5) == 17 && Offset(f, 6) == 20 && Offset(f, 7) == 24
  {
    var f := Fields(t);
    assert Offset(f[6..], 1) == 4;
    assert Offset(f[5..], 2) == 7 && Offset(f[5..], 1) == 3;
    assert f[4..][1..] == f[5..] && f[5..][1..] == f[6..];
    assert Offset(f[4..], 3) == 10 && Offset(f[4..], 2) == 6 && Offset(f[4..], 1) == 3;
    assert f[3..][1..] == f[4..];
    assert Offset(f[3..], 4) == 13 && Offset(f[3..], 3) == 9 && Offset(f[3..], 2) == 6 && Offset(f[3..], 1) == 3;
    assert f[2..][1..] == f[3..];
    assert Offset(f[2..], 5) == 16 && Offset(f[2..], 4) == 12 && Offset(f[2..], 3) == 9 && Offset(f[2..], 2) == 6 && Offset(f[2..], 1) == 3;
    assert f[1..][1..] == f[2..];
    assert Offset(f[1..], 6) == 19 && Offset(f[1..], 5) == 15 && Offset(f[1..], 4) == 12 && Offset(f[1..], 3) == 9
        && Offset(f[1..], 2) == 6 && Offset(f[1..], 1) == 3;
  }

  lemma FractionOf(s: string)
    requires |s| == 24 && s[19] == '.' && AllDigits(s[20..23])
    ensures Fraction(s) == Value(s[20..23])
  {
    assert s[20..23][0] == s[20] && s[20..23][1] == s[21] && s[20..23][2] == s[22];
    assert DigitsEnd(s, 22, 1) == 23;
    assert DigitsEnd(s, 21, 2) == 23;
    assert DigitsEnd(s, 20, 3) == 23;
  }

  lemma Separators(t: int)
    requires InRange(t)
    ensures var s := ToIso8601(t); |s| == 24 && Separated(s) && s[19] == '.'
  {
    FieldsPrintable(t);
    Offsets(t);
    var f := Fields(t);
    RenderLength(f);
    RenderAt(f, 0);
    RenderAt(f, 1);
    RenderAt(f, 2);
    RenderAt(f, 3);
    RenderAt(f, 4);
    RenderAt(f, 5);
  }

  lemma Numbers(t: int)
    requires InRange(t)
    ensures var s, f := ToIso8601(t), Fields(t);
      && TakeInt(s, 0, 4) == Some(f[0].value) && TakeInt(s, 5, 2) == Some(f[1].value) && TakeInt(s, 8, 2) == Some(f[2].value)
      && TakeInt(s, 11, 2) == Some(f[3].value) && TakeInt(s, 14, 2) == Some(f[4].value) && TakeInt(s, 17, 2) == Some(f[5].value)
      && TakeInt(s, 20, 3) == Some(f[6].value)
  {
    FieldsPrintable(t);
    Offsets(t);
    var f := Fields(t);
    TakeField(f, 0);
    TakeField(f, 1);
    TakeField(f, 2);
    TakeField(f, 3);
    TakeField(f, 4);
    TakeField(f, 5);
    TakeField(f, 6);
  }

  /** Parsing what was printed gives the instant back, floored to milliseconds. */
  lemma RoundTrip(t: int)
    requires InRange(t)
    ensures ParseIso8601(ToIso8601(t)) == Ok(FloorMs(t) * TICKS_PER_MS)
  {
    Separators(t);
    Numbers(t);
    FractionOf(ToIso8601(t));
    DaysInRange(t);
    DateIsValid(Days(t));
  }

  // Text order

  /** The byte order SQLite uses to compare two texts. */
  predicate TextLess(a: string, b: string)
  {
    if b == "" then false
    else if a == "" then true
    else a[0] < b[0] || (a[0] == b[0] && TextLess(a[1..], b[1..]))
  }

  lemma {:induction false} TextLessAppend(a: string, b: string, c: string, d: string)
    requires |a| == |c|
    ensures TextLess(a + b, c + d) <==> TextLess(a, c) || (a == c && TextLess(b, d))
  {
    if a == "" {
      assert a + b == b && c + d == d;
    } else {
      TextLessAppend(a[1..], b, c[1..], d);
      assert (a + b)[1..] == a[1..] + b && (c + d)[1..] == c[1..] + d;
      assert a == c <==> a[0] == c[0] && a[1..] == c[1..];
    }
  }

  lemma {:induction false} PadLess(m: nat, n: nat, width: nat)
    requires m < Pow10(width) && n < Pow10(width)
    ensures TextLess(Pad(m, width), Pad(n, width)) <==> m < n
    ensures Pad(m, width) == Pad(n, width) <==> m == n
  {
    PadValue(m, width);
    PadValue(n, width);
    if width > 0 {
      PadLess(m / 10, n / 10, width - 1);
      TextLessAppend(Pad(m / 10, width - 1), [Digit(m % 10)], Pad(n / 10, width - 1), [Digit(n % 10)]);
      assert TextLess([Digit(m % 10)], [Digit(n % 10)]) <==> m % 10 < n % 10;
    }
  }

  predicate SameShape(f: seq<Field>, g: seq<Field>)
  {
    |f| == |g| && forall k :: 0 <= k < |f| ==> f[k].width == g[k].width && f[k].sep == g[k].sep
  }

  /** Field-by-field order of two lists of numbers. */
  predicate FieldsLess(f: seq<Field>, g: seq<Field>)
    requires |f| == |g|
  {
    f != [] && (f[0].value < g[0].value || (f[0].value == g[0].value && FieldsLess(f[1..], g[1..])))
  }

  lemma {:induction false} RenderLess(f: seq<Field>, g: seq<Field>)
    requires SameShape(f, g) && Printable(f) && Printable(g)
    ensures TextLess(Render(f), Render(g)) <==> FieldsLess(f, g)
  {
    if f != [] {
      RenderLess(f[1..], g[1..]);
      var w := f[0].width;
      var p, q, sep := Pad(f[0].value, w), Pad(g[0].value, w), [f[0].sep];
      PadLess(f[0].value, g[0].value, w);
      TextLessAppend(p + sep, Render(f[1..]), q + sep, Render(g[1..]));
      TextLessAppend(p, sep, q, sep);
      Irreflexive(sep);
      assert p + sep == q + sep <==> p == q by {
        if p + sep == q + sep {
          assert p == (p + sep)[..w] && q == (q + sep)[..w];
        }
      }
    }
  }

  lemma Irreflexive(s: string)
    ensures !TextLess(s, s)
  {
  }

  lemma MillisecondOrder(a: int, b: int)
    ensures a < b <==> a / 1000 < b / 1000 || (a / 1000 == b / 1000 && a % 1000 < b % 1000)
  {
  }

  lemma SixtiethOrder(a: int, b: int)
    ensures a < b <==> a / 60 < b / 60 || (a / 60 == b / 60 && a % 60 < b % 60)
    ensures a == b <==> a / 60 == b / 60 && a % 60 == b % 60
  {
  }

  lemma HourOrder(a: int, b: int)
    ensures a < b <==> a / 24 < b / 24 || (a / 24 == b / 24 && a % 24 < b % 24)
    ensures a == b <==> a / 24 == b / 24 && a % 24 == b % 24
  {
  }

  lemma {:induction false} MonthsGrow(y: int, m: nat, k: nat)
    requires 1 <= m <= k
    ensures DaysBeforeMonth(y, m) <= DaysBeforeMonth(y, k)
    decreases k
  {
    if m < k {
      MonthsGrow(y, m, k - 1);
    }
  }

  lemma LaterDate(y: int, m: nat, d: int, z: int, k: nat, e: int)
    requires 1 <= m <= 12 && 1 <= d && 1 <= k <= 12 && 1 <= e <= DaysInMonth(z, k)
    requires DayNumber(y, m, d) < DayNumber(z, k, e)
    ensures y < z || (y == z && (m < k || (m == k && d < e)))
  {
    MonthsGrow(z, k + 1, 13);
    YearLength(z);
    if z < y {
      YearsGrow(z + 1, y);
      MonthsGrow(y, 1, m);
    } else if y == z && k < m {
      MonthsGrow(y, k + 1, m);
    }
  }

  /** A later day is later in year, or in month of the same year, or in day of the same month. */
  lemma DateLater(a: nat, b: nat)
    requires a < b < DaysBeforeYear(10_000)
    ensures Year(a) < Year(b)
         || (Year(a) == Year(b) && (Month(a) < Month(b) || (Month(a) == Month(b) && DayOfMonth(a) < DayOfMonth(b))))
  {
    DateIsValid(a);
    DateIsValid(b);
    LaterDate(Year(a), Month(a), DayOfMonth(a), Year(b), Month(b), DayOfMonth(b));
  }

  ghost predicate DateLess(a: nat, b: nat)
  {
    || Year(a) < Year(b)
    || (Year(a) == Year(b) && (Month(a) < Month(b) || (Month(a) == Month(b) && DayOfMonth(a) < DayOfMonth(b))))
  }

  lemma DateOrder(a: nat, b: nat)
    requires a < DaysBeforeYear(10_000) && b < DaysBeforeYear(10_000)
    ensures a < b <==> DateLess(a, b)
    ensures a == b <==> Year(a) == Year(b) && Month(a) == Month(b) && DayOfMonth(a) == DayOfMonth(b)
  {
    if a < b { DateLater(a, b); } else if b < a { DateLater(b, a); }
  }

  lemma FieldsOrder(t: int, u: int)
    requires InRange(t) && InRange(u)
    ensures FieldsLess(Fields(t), Fields(u)) <==> FloorMs(t) < FloorMs(u)
  {
    var f, g := Fields(t), Fields(u);
    DaysInRange(t);
    DaysInRange(u);
    MillisecondOrder(FloorMs(t) + EPOCH * 86_400_000, FloorMs(u) + EPOCH * 86_400_000);
    SixtiethOrder(Seconds(t), Seconds(u));
    SixtiethOrder(Minutes(t), Minutes(u));
    HourOrder(Hours(t), Hours(u));
    DateOrder(Days(t), Days(u));
    SevenFields(f, g);
  }

  lemma SevenFields(f: seq<Field>, g: seq<Field>)
    requires |f| == |g| == 7
    ensures FieldsLess(f, g) <==>
      || f[0].value < g[0].value || (f[0].value == g[0].value && (
         f[1].value < g[1].value || (f[1].value == g[1].value && (
         f[2].value < g[2].value || (f[2].value == g[2].value && (
         f[3].value < g[3].value || (f[3].value == g[3].value && (
         f[4].value < g[4].value || (f[4].value == g[4].value && (
         f[5].value < g[5].value || (f[5].value == g[5].value && f[6].value < g[6].value)))))))))))
  {
    assert FieldsLess(f[6..], g[6..]) <==> f[6].value < g[6].value;
    assert f[5..][1..] == f[6..] && g[5..][1..] == g[6..];
    assert f[4..][1..] == f[5..] && g[4..][1..] == g[5..];
    assert f[3..][1..] == f[4..] && g[3..][1..] == g[4..];
    assert f[2..][1..] == f[3..] && g[2..][1..] == g[3..];
    assert f[1..][1..] == f[2..] && g[1..][1..] == g[2..];
    assert FieldsLess(f[5..], g[5..]) <==> f[5].value < g[5].value || (f[5].value == g[5].value && FieldsLess(f[6..], g[6..]));
    assert FieldsLess(f[4..], g[4..]) <==> f[4].value < g[4].value || (f[4].value == g[4].value && FieldsLess(f[5..], g[5..]));
    assert FieldsLess(f[3..], g[3..]) <==> f[3].value < g[3].value || (f[3].value == g[3].value && FieldsLess(f[4..], g[4..]));
    assert FieldsLess(f[2..], g[2..]) <==> f[2].value < g[2].value || (f[2].value == g[2].value && FieldsLess(f[3..], g[3..]));
    assert FieldsLess(f[1..], g[1..]) <==> f[1].value < g[1].value || (f[1].value == g[1].value && FieldsLess(f[2..], g[2..]));
  }

  /** Sorting the stored texts sorts the instants: one text is smaller exactly when its instant, to the millisecond, is earlier. */
  lemma TextOrderIsTimeOrder(t: int, u: int)
    requires InRange(t) && InRange(u)
    ensures TextLess(ToIso8601(t), ToIso8601(u)) <==> FloorMs(t) < FloorMs(u)
  {
    FieldsPrintable(t);
    FieldsPrintable(u);
    OneShape(t, u);
    RenderLess(Fields(t), Fields(u));
    FieldsOrder(t, u);
  }

  lemma OneShape(t: int, u: int)
    requires InRange(t) && InRange(u)
    ensures SameShape(Fields(t), Fields(u))
  {
    var f, g := Fields(t), Fields(u);
    StampShape(f[0].value, f[1].value, f[2].value, f[3].value, f[4].value, f[5].value, f[6].value,
               g[0].value, g[1].value, g[2].value, g[3].value, g[4].value, g[5].value, g[6].value);
  }

  lemma StampShape(y: int, mo: int, d: int, h: int, mi: int, s: int, ms: int, y': int, mo': int, d': int, h': int, mi': int, s': int, ms': int)
    ensures SameShape(Stamp(y, mo, d, h, mi, s, ms), Stamp(y', mo', d', h', mi', s', ms'))
  {
  }

  /** Where the calendar is anchored. */
  lemma CalendarAnchors()
    ensures DayNumber(1970, 1, 1) == 0 && DayNumber(2000, 3, 1) == 11_017 && DayNumber(1969, 12, 31) == -1
  {
    MonthStarts(1969);
    YearLength(1969);
  }
}
