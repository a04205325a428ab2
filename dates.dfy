/**
 * Calendar dates as Python's `datetime.date` holds them, their `isoformat()`
 * text (the `full-date` of section 5.6 of RFC 3339), the `YYYY-MM-DD` form of
 * `datetime.fromisoformat` used at load time, and `datetime.strptime` with the
 * format `%Y-%m-%d` used when a date is typed in.
 */
module Dates {
  import opened Wrappers

  /** A year-month-day triple, not necessarily a real date. */
  datatype Ymd = Ymd(year: int, month: int, day: int)

  predicate IsLeapYear(y: int) {
    y % 4 == 0 && (y % 100 != 0 || y % 400 == 0)
  }

  function DaysInMonth(y: int, m: int): int
    requires 1 <= m <= 12
  {
    if m == 2 then (if IsLeapYear(y) then 29 else 28)
    else if m == 4 || m == 6 || m == 9 || m == 11 then 30
    else 31
  }

  /** Python's `datetime.MINYEAR` and `datetime.MAXYEAR`. */
  const MinYear := 1
  const MaxYear := 9999

  predicate IsCalendarDate(d: Ymd) {
    && MinYear <= d.year <= MaxYear
    && 1 <= d.month <= 12
    && 1 <= d.day <= DaysInMonth(d.year, d.month)
  }

  /** A `datetime.date` object: its constructor refuses any other triple. */
  type Date = d: Ymd | IsCalendarDate(d) witness Ymd(1, 1, 1)

  /** `date < other` in Python compares (year, month, day) lexicographically. */
  predicate Before(a: Date, b: Date) {
    || a.year < b.year
    || (a.year == b.year && a.month < b.month)
    || (a.year == b.year && a.month == b.month && a.day < b.day)
  }

  // ---------------------------------------------------------------- digits

  predicate IsDigit(c: char) { '0' <= c <= '9' }

  predicate AllDigits(s: string) {
    forall i :: 0 <= i < |s| ==> IsDigit(s[i])
  }

  function DigitValue(c: char): int
    requires IsDigit(c)
  {
    c as int - '0' as int
  }

  function DigitChar(n: int): char
    requires 0 <= n <= 9
  {
    ('0' as int + n) as char
  }

  /** The number a run of decimal digits spells, as Python's `int()` reads it. */
  function Number(s: string): int
    requires AllDigits(s)
  {
    if s == [] then 0 else Number(s[..|s| - 1]) * 10 + DigitValue(s[|s| - 1])
  }

  /** `%02d` */
  function Pad2(n: int): string
    requires 0 <= n <= 99
  {
    [DigitChar(n / 10), DigitChar(n % 10)]
  }

  /** `%04d` */
  function Pad4(n: int): string
    requires 0 <= n <= 9999
  {
    Pad2(n / 100) + Pad2(n % 100)
  }

  // ---------------------------------------------------------------- format and parse

  /** `date.isoformat()`: `YYYY-MM-DD`, each field zero-padded. */
  function IsoFormat(d: Date): (s: string)
    ensures |s| == 10 && s[4] == '-' && s[7] == '-'
    ensures AllDigits(s[..4]) && AllDigits(s[5..7]) && AllDigits(s[8..])
  {
    Pad4(d.year) + "-" + Pad2(d.month) + "-" + Pad2(d.day)
  }

  /**
   * `datetime.fromisoformat(s).date()` for the date-only form: exactly four
   * digits, a hyphen, two digits, a hyphen, two digits, naming a real date.
   */
  function ParseIsoDate(s: string): (r: Option<Date>)
    ensures r.Some? ==> |s| == 10 && IsCalendarDate(r.value)
  {
    if |s| == 10 && s[4] == '-' && s[7] == '-' && AllDigits(s[..4]) && AllDigits(s[5..7]) && AllDigits(s[8..]) then
      var d := Ymd(Number(s[..4]), Number(s[5..7]), Number(s[8..]));
      if IsCalendarDate(d) then Some(d) else None
    else None
  }

  /** One way a directive's group of the `strptime` pattern matches: the value read and where it ends. */
  datatype Piece = Piece(value: int, end: nat)

  /** The alternatives of `%m`, `1[0-2]|0[1-9]|[1-9]`, that match at `k`, in the order the regex tries them. */
  function MonthAlternatives(s: string, k: nat): seq<Piece>
  {
    (if k + 1 < |s| && s[k] == '1' && '0' <= s[k + 1] <= '2' then [Piece(10 + DigitValue(s[k + 1]), k + 2)] else [])
    + (if k + 1 < |s| && s[k] == '0' && '1' <= s[k + 1] <= '9' then [Piece(DigitValue(s[k + 1]), k + 2)] else [])
    + (if k < |s| && '1' <= s[k] <= '9' then [Piece(DigitValue(s[k]), k + 1)] else [])
  }

  /** The alternatives of `%d`, `3[01]|[12]\d|0[1-9]|[1-9]| [1-9]`, that match at `k`, in order. */
  function DayAlternatives(s: string, k: nat): seq<Piece>
  {
    (if k + 1 < |s| && s[k] == '3' && '0' <= s[k + 1] <= '1' then [Piece(30 + DigitValue(s[k + 1]), k + 2)] else [])
    + (if k + 1 < |s| && '1' <= s[k] <= '2' && IsDigit(s[k + 1]) then [Piece(DigitValue(s[k]) * 10 + DigitValue(s[k + 1]), k + 2)] else [])
    + (if k + 1 < |s| && s[k] == '0' && '1' <= s[k + 1] <= '9' then [Piece(DigitValue(s[k + 1]), k + 2)] else [])
    + (if k < |s| && '1' <= s[k] <= '9' then [Piece(DigitValue(s[k]), k + 1)] else [])
    + (if k + 1 < |s| && s[k] == ' ' && '1' <= s[k + 1] <= '9' then [Piece(DigitValue(s[k + 1]), k + 2)] else [])
  }

  /**
   * Backtracking over the month alternatives in order: the first one that is
   * followed by `-` and some day alternative wins, with the first such day
   * alternative (the pattern has no end anchor, so any day match ends the search).
   */
  function MatchMonthDay(s: string, months: seq<Piece>): Option<(int, Piece)>
  {
    if months == [] then None
    else
      var m := months[0];
      var days := if m.end < |s| && s[m.end] == '-' then DayAlternatives(s, m.end + 1) else [];
      if days != [] then Some((m.value, days[0])) else MatchMonthDay(s, months[1..])
  }

  /**
   * `datetime.strptime(s, "%Y-%m-%d").date()`: the pattern
   * `\d\d\d\d-(1[0-2]|0[1-9]|[1-9])-(3[01]|[12]\d|0[1-9]|[1-9]| [1-9])` is
   * matched at the start of `s`; no match, text left over after the match,
   * or a triple that is not a date each raise `ValueError` (here `None`).
   */
  function Strptime(s: string): (r: Option<Date>)
    ensures r.Some? ==> |s| >= 5 && AllDigits(s[..4]) && s[4] == '-' && IsCalendarDate(r.value)
  {
    if |s| >= 5 && AllDigits(s[..4]) && s[4] == '-' then
      match MatchMonthDay(s, MonthAlternatives(s, 5))
      case None => None
      case Some((month, day)) =>
        if day.end != |s| then None
        else
          var d := Ymd(Number(s[..4]), month, day.value);
          if IsCalendarDate(d) then Some(d) else None
    else None
  }

  // ---------------------------------------------------------------- properties

  /** Two digits read as a number. */
  lemma Number2(s: string)
    requires |s| == 2 && AllDigits(s)
    ensures Number(s) == DigitValue(s[0]) * 10 + DigitValue(s[1])
  {
    var p := s[..1];
    assert p[..0] == [] && p[0] == s[0];
    assert Number(p) == DigitValue(s[0]);
  }

  lemma Pad2Digits(n: int)
    requires 0 <= n <= 99
    ensures AllDigits(Pad2(n)) && Number(Pad2(n)) == n
  {
    var p := Pad2(n);
    assert DigitValue(p[0]) == n / 10 && DigitValue(p[1]) == n % 10;
    Number2(p);
  }

  /** Appending two digits shifts the number read so far by two places. */
  lemma NumberAppend2(a: string, b: string)
    requires AllDigits(a) && AllDigits(b) && |b| == 2
    ensures AllDigits(a + b) && Number(a + b) == Number(a) * 100 + Number(b)
  {
    var ab := a + b;
    var a1 := a + [b[0]];
    assert ab[..|ab| - 1] == a1 && ab[|ab| - 1] == b[1];
    assert a1[..|a1| - 1] == a && a1[|a1| - 1] == b[0];
    assert Number(a1) == Number(a) * 10 + DigitValue(b[0]);
    assert Number(ab) == Number(a1) * 10 + DigitValue(b[1]);
    Number2(b);
  }

  lemma Pad4Digits(n: int)
    requires 0 <= n <= 9999
    ensures AllDigits(Pad4(n)) && Number(Pad4(n)) == n
  {
    Pad2Digits(n / 100);
    Pad2Digits(n % 100);
    NumberAppend2(Pad2(n / 100), Pad2(n % 100));
  }

  /** Two digits written back with `%02d` give the same two characters. */
  lemma Pad2OfDigits(s: string)
    requires |s| == 2 && AllDigits(s)
    ensures 0 <= Number(s) <= 99 && Pad2(Number(s)) == s
  {
    Number2(s);
    var n := Number(s);
    assert n / 10 == DigitValue(s[0]) && n % 10 == DigitValue(s[1]);
    assert DigitChar(DigitValue(s[0])) == s[0] && DigitChar(DigitValue(s[1])) == s[1];
  }

  /** Four digits written back with `%04d` give the same four characters. */
  lemma Pad4OfDigits(s: string)
    requires |s| == 4 && AllDigits(s)
    ensures 0 <= Number(s) <= 9999 && Pad4(Number(s)) == s
  {
    var hi, lo := s[..2], s[2..];
    assert s == hi + lo;
    NumberAppend2(hi, lo);
    Pad2OfDigits(hi);
    Pad2OfDigits(lo);
    var n := Number(s);
    assert n / 100 == Number(hi) && n % 100 == Number(lo);
  }

  /** Reading back what `isoformat()` wrote gives the same date (app.py:19 after app.py:40). */
  lemma {:induction false} IsoRoundTrip(d: Date)
    ensures ParseIsoDate(IsoFormat(d)) == Some(d)
  {
    var s := IsoFormat(d);
    assert s[..4] == Pad4(d.year) && s[5..7] == Pad2(d.month) && s[8..] == Pad2(d.day);
    Pad4Digits(d.year);
    Pad2Digits(d.month);
    Pad2Digits(d.day);
  }

  /** The load-time parse accepts only the canonical text: what it accepts is what `isoformat()` writes. */
  lemma {:induction false} IsoCanonical(s: string)
    requires ParseIsoDate(s).Some?
    ensures IsoFormat(ParseIsoDate(s).value) == s
  {
    var d := ParseIsoDate(s).value;
    Pad4OfDigits(s[..4]);
    Pad2OfDigits(s[5..7]);
    Pad2OfDigits(s[8..]);
    assert s == s[..4] + "-" + s[5..7] + "-" + s[8..];
  }

  /** A date picked from the calendar and written `%Y-%m-%d` is read back by `strptime` (app.py:274, app.py:494). */
  lemma {:induction false} StrptimeAcceptsIso(d: Date)
    ensures Strptime(IsoFormat(d)) == Some(d)
  {
    var s := IsoFormat(d);
    assert s[..4] == Pad4(d.year) && s[5..7] == Pad2(d.month) && s[8..] == Pad2(d.day);
    Pad4Digits(d.year);
    Pad2Digits(d.month);
    Pad2Digits(d.day);
    var months := MonthAlternatives(s, 5);
    assert months[0] == Piece(d.month, 7);
    var days := DayAlternatives(s, 8);
    assert days[0] == Piece(d.day, 10);
  }

  /**
   * `strptime` is more lenient than the load-time parse: a one-digit month and
   * a space-padded day are accepted when typed in, though such text never
   * reaches the file because it is stored as a date and written back canonically.
   */
  lemma StrptimeLenient()
    ensures Strptime("2024-1-5") == Some(Ymd(2024, 1, 5))
    ensures Strptime("2024-01- 5") == Some(Ymd(2024, 1, 5))
    ensures ParseIsoDate("2024-1-5") == None
    ensures Strptime("2024-02-30") == None && Strptime("2024-01-35") == None
  {
    var a := "2024-1-5";
    assert a[..4] == "2024" && Number("2024") == 2024 by {
      assert "2024"[..3] == "202" && "202"[..2] == "20" && "20"[..1] == "2" && "2"[..0] == "";
    }
    var b := "2024-01- 5";
    assert b[..4] == "2024";
    var c := "2024-02-30";
    assert c[..4] == "2024";
    var e := "2024-01-35";
    assert e[..4] == "2024";
  }
}
