/** Naive `datetime` values as `is_transmitting` uses them: `datetime.now()` and the result of
    `datetime.strptime(text, "%Y/%m/%d %H:%M:%S")`, compared with `<=`. */
module Timestamps {
  import opened Wrappers

  /** A naive `datetime`. Python orders two of them field by field, in this order. */
  datatype Timestamp = Timestamp(year: int, month: int, day: int,
                                 hour: int, minute: int, second: int, microsecond: int)

  function Fields(t: Timestamp): (r: seq<int>)
    ensures |r| == 7
  {
    [t.year, t.month, t.day, t.hour, t.minute, t.second, t.microsecond]
  }

  /** Lexicographic order on equally long integer sequences. */
  predicate LexLe(a: seq<int>, b: seq<int>)
    requires |a| == |b|
  {
    a == [] || a[0] < b[0] || (a[0] == b[0] && LexLe(a[1..], b[1..]))
  }

  /** Python's `a <= b` on two naive datetimes. */
  predicate AtOrBefore(a: Timestamp, b: Timestamp) {
    LexLe(Fields(a), Fields(b))
  }

  lemma {:induction false} LexLeTotal(a: seq<int>, b: seq<int>)
    requires |a| == |b|
    ensures LexLe(a, b) || LexLe(b, a)
  {
    if a != [] && a[0] == b[0] {
      LexLeTotal(a[1..], b[1..]);
    }
  }

  lemma {:induction false} LexLeTransitive(a: seq<int>, b: seq<int>, c: seq<int>)
    requires |a| == |b| == |c| && LexLe(a, b) && LexLe(b, c)
    ensures LexLe(a, c)
  {
    if a != [] && a[0] == b[0] == c[0] {
      LexLeTransitive(a[1..], b[1..], c[1..]);
    }
  }

  lemma {:induction false} LexLeAntisymmetric(a: seq<int>, b: seq<int>)
    requires |a| == |b| && LexLe(a, b) && LexLe(b, a)
    ensures a == b
  {
    if a != [] {
      LexLeAntisymmetric(a[1..], b[1..]);
      assert a == [a[0]] + a[1..] && b == [b[0]] + b[1..];
    }
  }

  /** Two sequences that agree up to position `k` and differ there are ordered by that
      position alone. */
  lemma {:induction false} LexLeFirstDifference(a: seq<int>, b: seq<int>, k: nat)
    requires |a| == |b| && k < |a| && a[..k] == b[..k] && a[k] != b[k]
    ensures LexLe(a, b) <==> a[k] < b[k]
  {
    if k > 0 {
      assert a[0] == a[..k][0] == b[..k][0] == b[0];
      assert a[1..][..k - 1] == a[..k][1..] == b[..k][1..] == b[1..][..k - 1];
      LexLeFirstDifference(a[1..], b[1..], k - 1);
    }
  }

  /** Comparing datetimes is a total order, so "now lies in [start, end]" is well defined. */
  lemma AtOrBeforeTotalOrder(a: Timestamp, b: Timestamp, c: Timestamp)
    ensures AtOrBefore(a, b) || AtOrBefore(b, a)
    ensures AtOrBefore(a, b) && AtOrBefore(b, c) ==> AtOrBefore(a, c)
    ensures AtOrBefore(a, b) && AtOrBefore(b, a) ==> a == b
  {
    LexLeTotal(Fields(a), Fields(b));
    if AtOrBefore(a, b) && AtOrBefore(b, c) {
      LexLeTransitive(Fields(a), Fields(b), Fields(c));
    }
    if AtOrBefore(a, b) && AtOrBefore(b, a) {
      LexLeAntisymmetric(Fields(a), Fields(b));
    }
  }

  // ---------------------------------------------------------------- calendar

  predicate IsLeapYear(year: int) {
    year % 4 == 0 && (year % 100 != 0 || year % 400 == 0)
  }

  function DaysInMonth(year: int, month: int): (n: int)
    requires 1 <= month <= 12
    ensures 28 <= n <= 31
  {
    if month == 2 then (if IsLeapYear(year) then 29 else 28)
    else if month == 4 || month == 6 || month == 9 || month == 11 then 30
    else 31
  }

  /** The field ranges the `datetime` constructor enforces. */
  predicate Valid(t: Timestamp) {
    1 <= t.year <= 9999 && 1 <= t.month <= 12 && 1 <= t.day <= DaysInMonth(t.year, t.month) &&
    0 <= t.hour < 24 && 0 <= t.minute < 60 && 0 <= t.second < 60 &&
    0 <= t.microsecond < 1000000
  }

  // ---------------------------------------------------------------- scanning

  predicate IsDigit(c: char) { '0' <= c <= '9' }

  /** The ASCII characters that `\s+` matches in a `str` pattern: those for which
      `str.isspace()` holds, including the separators U+001C-U+001F. */
  predicate IsSpace(c: char) {
    c == ' ' || '\t' <= c <= '\r' || '\U{001C}' <= c <= '\U{001F}'
  }

  predicate AllDigits(ds: string) {
    forall k :: 0 <= k < |ds| ==> IsDigit(ds[k])
  }

  /** Length of the run of digits at the front of `s`. */
  function DigitRun(s: string): (n: nat)
    ensures n <= |s|
  {
    if s != [] && IsDigit(s[0]) then 1 + DigitRun(s[1..]) else 0
  }

  /** Length of the run of whitespace at the front of `s`. */
  function SpaceRun(s: string): (n: nat)
    ensures n <= |s|
  {
    if s != [] && IsSpace(s[0]) then 1 + SpaceRun(s[1..]) else 0
  }

  /** The run `DigitRun` measures is all digits and is followed by a non-digit or the end. */
  lemma {:induction false} DigitRunIsMaximal(s: string)
    ensures AllDigits(s[..DigitRun(s)])
    ensures DigitRun(s) == |s| || !IsDigit(s[DigitRun(s)])
  {
    if s != [] && IsDigit(s[0]) {
      DigitRunIsMaximal(s[1..]);
      assert s[..DigitRun(s)] == [s[0]] + s[1..][..DigitRun(s[1..])];
    }
  }

  function DigitValue(c: char): int {
    c as int - '0' as int
  }

  /** The decimal value of a string of digits, as `int()` reads it. */
  function Value(ds: string): int {
    if ds == [] then 0 else 10 * Value(ds[..|ds| - 1]) + DigitValue(ds[|ds| - 1])
  }

  /** A value read from the front of a string, and what is left of it. */
  datatype Scanned = Scanned(value: int, rest: string)

  /** The `%m`, `%H`, `%M` and `%S` fields: one or two digits whose value lies in
      `[lo, hi]`. The field is followed by a non-digit (a separator or the end of the
      text), so after the regular expression backtracks the digits taken are exactly
      the run of digits at the front. */
  function Number(s: string, lo: int, hi: int): Option<Scanned> {
    var n := DigitRun(s);
    if 1 <= n <= 2 && lo <= Value(s[..n]) <= hi then Some(Scanned(Value(s[..n]), s[n..]))
    else None
  }

  /** The `%d` field: like a `Number` in `[1, 31]`, or a space followed by one digit 1-9. */
  function Day(s: string): Option<Scanned> {
    if s != [] && s[0] == ' ' then
      if DigitRun(s[1..]) == 1 && s[1] != '0' then Some(Scanned(DigitValue(s[1]), s[2..]))
      else None
    else Number(s, 1, 31)
  }

  predicate StartsWith(s: string, c: char) {
    s != [] && s[0] == c
  }

  /** The `datetime` constructor: `None` where it raises `ValueError`. */
  function MakeTimestamp(year: int, month: int, day: int, hour: int, minute: int, second: int): (r: Option<Timestamp>)
    ensures r.Some? <==> Valid(Timestamp(year, month, day, hour, minute, second, 0))
    ensures r.Some? ==> r.value == Timestamp(year, month, day, hour, minute, second, 0)
  {
    var t := Timestamp(year, month, day, hour, minute, second, 0);
    if 1 <= year <= 9999 && 1 <= month <= 12 && 1 <= day <= DaysInMonth(year, month) &&
       0 <= hour <= 23 && 0 <= minute <= 59 && 0 <= second <= 59
    then Some(t)
    else None
  }

  /** `%m/%d`: month and day; returns `(month, day, rest)`. */
  function ScanMonthDay(s: string): Option<(int, int, string)> {
    var month :- Number(s, 1, 12);
    if !StartsWith(month.rest, '/') then None
    else
      var day :- Day(month.rest[1..]);
      Some((month.value, day.value, day.rest))
  }

  /** `%Y/%m/%d`: exactly four digits of year, then month and day; returns
      `(year, month, day, rest)`. */
  function ScanDate(s: string): Option<(int, int, int, string)> {
    if DigitRun(s) != 4 || !StartsWith(s[4..], '/') then None
    else
      var (month, day, rest) :- ScanMonthDay(s[5..]);
      Some((Value(s[..4]), month, day, rest))
  }

  /** `%H:%M:%S` up to the end of the text; `%S` accepts up to 61. Returns
      `(hour, minute, second)`; text after the seconds is an error. */
  function ScanClock(s: string): Option<(int, int, int)> {
    var hour :- Number(s, 0, 23);
    if !StartsWith(hour.rest, ':') then None
    else
      var minute :- Number(hour.rest[1..], 0, 59);
      if !StartsWith(minute.rest, ':') then None
      else
        var second :- Number(minute.rest[1..], 0, 61);
        if second.rest != [] then None
        else Some((hour.value, minute.value, second.value))
  }

  /** `datetime.strptime(s, "%Y/%m/%d %H:%M:%S")`: `None` where Python raises `ValueError`.
      The space of the format matches one or more whitespace characters, and the
      `datetime` constructor then rejects year 0, a day past the end of its month and
      seconds 60 and 61. */
  function ParseTimestamp(s: string): (r: Option<Timestamp>)
    ensures r.Some? ==> Valid(r.value) && r.value.microsecond == 0
  {
    var (year, month, day, rest) :- ScanDate(s);
    var gap := SpaceRun(rest);
    if gap == 0 then None
    else
      var (hour, minute, second) :- ScanClock(rest[gap..]);
      MakeTimestamp(year, month, day, hour, minute, second)
  }

  // ---------------------------------------------------------------- formatting

  function DigitChar(d: int): (c: char)
    requires 0 <= d < 10
    ensures IsDigit(c) && DigitValue(c) == d
  {
    ('0' as int + d) as char
  }

  function TwoDigits(v: int): (s: string)
    requires 0 <= v < 100
    ensures |s| == 2 && AllDigits(s)
  {
    [DigitChar(v / 10), DigitChar(v % 10)]
  }

  function FourDigits(v: int): (s: string)
    requires 0 <= v < 10000
    ensures |s| == 4 && AllDigits(s)
  {
    TwoDigits(v / 100) + TwoDigits(v % 100)
  }

  /** The zero-padded text `"YYYY/MM/DD HH:MM:SS"` that the format string describes;
      parsing it gives a whole-second timestamp back (`ParseFormat`). */
  function FormatTimestamp(t: Timestamp): (s: string)
    requires Valid(t)
    ensures |s| == 19
  {
    FourDigits(t.year) + "/" + TwoDigits(t.month) + "/" + TwoDigits(t.day) + " " +
    TwoDigits(t.hour) + ":" + TwoDigits(t.minute) + ":" + TwoDigits(t.second)
  }

  lemma {:induction false} DigitRunOfDigits(ds: string, tail: string)
    requires AllDigits(ds) && (tail == [] || !IsDigit(tail[0]))
    ensures DigitRun(ds + tail) == |ds|
  {
    if ds != [] {
      assert (ds + tail)[1..] == ds[1..] + tail;
      DigitRunOfDigits(ds[1..], tail);
    }
  }

  lemma ValueOfTwoDigits(v: int)
    requires 0 <= v < 100
    ensures Value(TwoDigits(v)) == v
  {
    var s := TwoDigits(v);
    assert s[..1][..0] == [] && s[..1] == [DigitChar(v / 10)];
    assert Value(s[..1]) == v / 10;
    assert Value(s) == 10 * (v / 10) + v % 10;
  }

  lemma ValueOfFourDigits(v: int)
    requires 0 <= v < 10000
    ensures Value(FourDigits(v)) == v
  {
    var hi, lo := TwoDigits(v / 100), TwoDigits(v % 100);
    var s := hi + lo;
    ValueOfTwoDigits(v / 100);
    assert s[..3] == hi + [lo[0]] && s[..3][..2] == hi;
    assert Value(s[..3]) == 10 * Value(hi) + DigitValue(lo[0]);
  }

  lemma NumberOfTwoDigits(v: int, lo: int, hi: int, tail: string)
    requires 0 <= v < 100 && lo <= v <= hi
    requires tail == [] || !IsDigit(tail[0])
    ensures Number(TwoDigits(v) + tail, lo, hi) == Some(Scanned(v, tail))
  {
    var s := TwoDigits(v) + tail;
    DigitRunOfDigits(TwoDigits(v), tail);
    assert s[..2] == TwoDigits(v) && s[2..] == tail;
    ValueOfTwoDigits(v);
  }

  lemma ScanFormattedMonthDay(month: int, day: int, tail: string)
    requires 1 <= month <= 12 && 1 <= day <= 31
    requires tail == [] || !IsDigit(tail[0])
    ensures ScanMonthDay(TwoDigits(month) + "/" + TwoDigits(day) + tail) == Some((month, day, tail))
  {
    var mo, d := TwoDigits(month), TwoDigits(day);
    var afterMonth := "/" + d + tail;
    assert mo + "/" + d + tail == mo + afterMonth;
    NumberOfTwoDigits(month, 1, 12, afterMonth);
    assert afterMonth[1..] == d + tail;
    NumberOfTwoDigits(day, 1, 31, tail);
  }

  lemma ScanFormattedDate(year: int, month: int, day: int, tail: string)
    requires 0 <= year < 10000 && 1 <= month <= 12 && 1 <= day <= 31
    requires tail == [] || !IsDigit(tail[0])
    ensures ScanDate(FourDigits(year) + "/" + TwoDigits(month) + "/" + TwoDigits(day) + tail)
         == Some((year, month, day, tail))
  {
    var y := FourDigits(year);
    var monthDay := TwoDigits(month) + "/" + TwoDigits(day) + tail;
    var s := y + "/" + TwoDigits(month) + "/" + TwoDigits(day) + tail;
    assert s == y + ("/" + monthDay);
    DigitRunOfDigits(y, "/" + monthDay);
    assert s[..4] == y && s[5..] == monthDay;
    ValueOfFourDigits(year);
    ScanFormattedMonthDay(month, day, tail);
  }

  lemma ScanFormattedClock(hour: int, minute: int, second: int)
    requires 0 <= hour < 24 && 0 <= minute < 60 && 0 <= second < 60
    ensures ScanClock(TwoDigits(hour) + ":" + TwoDigits(minute) + ":" + TwoDigits(second))
         == Some((hour, minute, second))
  {
    var h, mi, se := TwoDigits(hour), TwoDigits(minute), TwoDigits(second);
    var afterMinute := ":" + se;
    var afterHour := ":" + mi + afterMinute;
    assert h + ":" + mi + ":" + se == h + afterHour;
    NumberOfTwoDigits(hour, 0, 23, afterHour);
    assert afterHour[1..] == mi + afterMinute;
    NumberOfTwoDigits(minute, 0, 59, afterMinute);
    assert afterMinute[1..] == se + [];
    NumberOfTwoDigits(second, 0, 61, []);
  }

  /** Reading back a formatted timestamp gives the timestamp. */
  lemma ParseFormat(t: Timestamp)
    requires Valid(t) && t.microsecond == 0
    ensures ParseTimestamp(FormatTimestamp(t)) == Some(t)
  {
    var clock := TwoDigits(t.hour) + ":" + TwoDigits(t.minute) + ":" + TwoDigits(t.second);
    var tail := " " + clock;
    var s := FormatTimestamp(t);
    assert s == FourDigits(t.year) + "/" + TwoDigits(t.month) + "/" + TwoDigits(t.day) + tail;
    ScanFormattedDate(t.year, t.month, t.day, tail);
    assert SpaceRun(tail) == 1;
    assert tail[1..] == clock;
    ScanFormattedClock(t.hour, t.minute, t.second);
  }
}
