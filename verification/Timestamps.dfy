/** Date bounds on the requested start, which the query compares as text. */
module Timestamps {
  import opened Domain
  import opened Text
  import opened Ordering
  import opened Discovery

  datatype Date = Date(year: nat, month: nat, day: nat)

  datatype Timestamp = Timestamp(date: Date, hour: nat, minute: nat, second: nat, milli: nat)

  predicate IsLeap(year: nat) {
    year % 4 == 0 && (year % 100 != 0 || year % 400 == 0)
  }

  function MonthLength(year: nat, month: nat): nat {
    if month in {4, 6, 9, 11} then 30
    else if month == 2 then (if IsLeap(year) then 29 else 28)
    else 31
  }

  predicate ValidDate(d: Date) {
    d.year <= 9999 && 1 <= d.month <= 12 && 1 <= d.day <= MonthLength(d.year, d.month)
  }

  predicate ValidTimestamp(ts: Timestamp) {
    ValidDate(ts.date) && ts.hour < 24 && ts.minute < 60 && ts.second < 60 && ts.milli < 1000
  }

  // ----- the calendar -----

  /** Days in the first `months` months of a year. */
  function DaysBeforeMonth(year: nat, months: nat): nat {
    if months == 0 then 0 else DaysBeforeMonth(year, months - 1) + MonthLength(year, months)
  }

  /** Days from the start of year 0. */
  function DaysBeforeYear(year: nat): nat {
    if year == 0 then 0 else DaysBeforeYear(year - 1) + DaysBeforeMonth(year - 1, 12)
  }

  /** The number of the UTC day. */
  function DayNumber(d: Date): nat
    requires ValidDate(d)
  {
    DaysBeforeYear(d.year) + DaysBeforeMonth(d.year, d.month - 1) + d.day - 1
  }

  /** Milliseconds since the start of year 0. */
  function InstantOf(ts: Timestamp): nat
    requires ValidTimestamp(ts)
  {
    (((DayNumber(ts.date) * 24 + ts.hour) * 60 + ts.minute) * 60 + ts.second) * 1000 + ts.milli
  }

  lemma {:induction false} MonthsGrow(year: nat, m: nat, n: nat)
    requires m <= n
    ensures DaysBeforeMonth(year, m) <= DaysBeforeMonth(year, n)
    ensures m < n ==> DaysBeforeMonth(year, m) + MonthLength(year, m + 1) <= DaysBeforeMonth(year, n)
  {
    if m < n {
      MonthsGrow(year, m, n - 1);
    }
  }

  lemma {:induction false} YearsGrow(y: nat, z: nat)
    requires y < z
    ensures DaysBeforeYear(y) + DaysBeforeMonth(y, 12) <= DaysBeforeYear(z)
  {
    if y < z - 1 {
      YearsGrow(y, z - 1);
    }
  }

  predicate DateLess(a: Date, b: Date) {
    a.year < b.year || (a.year == b.year && (a.month < b.month || (a.month == b.month && a.day < b.day)))
  }

  lemma EarlierDate(a: Date, b: Date)
    requires ValidDate(a) && ValidDate(b) && DateLess(a, b)
    ensures DayNumber(a) < DayNumber(b)
  {
    hide MonthLength;
    MonthsGrow(a.year, a.month - 1, 12);
    if a.year < b.year {
      YearsGrow(a.year, b.year);
    } else if a.month < b.month {
      MonthsGrow(a.year, a.month - 1, b.month - 1);
    }
  }

  /** Day numbers order dates as year, month and day do. */
  lemma DatesByNumber(a: Date, b: Date)
    requires ValidDate(a) && ValidDate(b)
    ensures DateLess(a, b) <==> DayNumber(a) < DayNumber(b)
    ensures a == b <==> DayNumber(a) == DayNumber(b)
  {
    hide DayNumber, ValidDate;
    if DateLess(a, b) {
      EarlierDate(a, b);
    } else if DateLess(b, a) {
      EarlierDate(b, a);
    }
  }

  lemma Multiples(y: nat)
    ensures y % 400 == 0 ==> y % 100 == 0
    ensures y % 100 == 0 ==> y % 4 == 0
  {
    assert y % 400 == 0 ==> y == 100 * (4 * (y / 400));
    assert y % 100 == 0 ==> y == 4 * (25 * (y / 100));
  }

  /** The whole quarters, centuries and quadricentennials up to a year. */
  function Leaps(y: int): int {
    y / 4 - y / 100 + y / 400
  }

  lemma LeapDay(y: nat)
    ensures Leaps(y) == Leaps(y - 1) + if IsLeap(y) then 1 else 0
  {
    Multiples(y);
    assert y / 4 == (y - 1) / 4 + if y % 4 == 0 then 1 else 0;
    assert y / 100 == (y - 1) / 100 + if y % 100 == 0 then 1 else 0;
    assert y / 400 == (y - 1) / 400 + if y % 400 == 0 then 1 else 0;
  }

  /** Days before month `m + 1`, counting months from March as 153 days for each five. */
  lemma {:induction false} MonthsClosed(year: nat, m: nat)
    requires m <= 12
    ensures m <= 1 ==> DaysBeforeMonth(year, m) == 31 * m
    ensures m >= 2 ==>
      DaysBeforeMonth(year, m) == 59 + (if IsLeap(year) then 1 else 0) + (153 * (m - 2) + 2) / 5
  {
    if m > 0 {
      MonthsClosed(year, m - 1);
    }
  }

  lemma {:induction false} YearsClosed(y: nat)
    ensures DaysBeforeYear(y) == 365 * y + Leaps(y - 1) + 1
  {
    hide DaysBeforeMonth, IsLeap;
    if y > 0 {
      YearsClosed(y - 1);
      MonthsClosed(y - 1, 12);
      LeapDay(y - 1);
    }
  }

  /** Counts the months of a year that starts in March. */
  function FromMarchOn(month: nat): nat {
    (month + 9) % 12
  }

  lemma FromMarch(month: nat)
    requires 1 <= month <= 12
    ensures month > 2 ==> FromMarchOn(month) == month - 3
    ensures month == 1 ==> (153 * FromMarchOn(month) + 2) / 5 == 306
    ensures month == 2 ==> (153 * FromMarchOn(month) + 2) / 5 == 337
  {
  }

  /** The number of a day is the one of the Gregorian calendar: counted in years that start in March, with a leap
      day every 4 years but not every 100, and again every 400. */
  lemma GregorianDay(d: Date)
    requires ValidDate(d)
    ensures var y, m := if d.month > 2 then d.year else d.year - 1, FromMarchOn(d.month);
      DayNumber(d) == 60 + 365 * y + Leaps(y) + (153 * m + 2) / 5 + d.day - 1
  {
    assert DayNumber(d) == DaysBeforeYear(d.year) + DaysBeforeMonth(d.year, d.month - 1) + d.day - 1;
    assert 1 <= d.month <= 12;
    hide DayNumber, DaysBeforeYear, DaysBeforeMonth, Leaps, IsLeap, FromMarchOn, ValidDate;
    YearsClosed(d.year);
    MonthsClosed(d.year, d.month - 1);
    LeapDay(d.year);
    FromMarch(d.month);
  }

  // ----- the text form -----

  /** The last `width` decimal digits of `n`. */
  function Pad(n: nat, width: nat): (s: string)
    ensures |s| == width
  {
    if width == 0 then "" else Pad(n / 10, width - 1) + [DigitChar(n % 10)]
  }

  /** The RFC 3339 form YYYY-MM-DD. */
  function DateText(d: Date): string {
    Pad(d.year, 4) + "-" + Pad(d.month, 2) + "-" + Pad(d.day, 2)
  }

  /** The RFC 3339 form THH:MM:SS.mmmZ. */
  function ClockText(hour: nat, minute: nat, second: nat, milli: nat): string {
    "T" + (Pad(hour, 2) + (":" + (Pad(minute, 2) + (":" + (Pad(second, 2) + ("." + (Pad(milli, 3) + "Z")))))))
  }

  /** The canonical UTC form YYYY-MM-DDTHH:MM:SS.mmmZ that toISOString writes. */
  function IsoText(ts: Timestamp): string {
    DateText(ts.date) + ClockText(ts.hour, ts.minute, ts.second, ts.milli)
  }

  function Pow10(k: nat): nat {
    if k == 0 then 1 else 10 * Pow10(k - 1)
  }

  lemma SameHead(c: char, s: string, t: string)
    ensures TextLess([c] + s, [c] + t) <==> TextLess(s, t)
  {
  }

  /** Padded numbers are ordered like the numbers, and equal ones leave the decision to what follows. */
  lemma {:induction false} PadOrder(a: nat, b: nat, width: nat, s: string, t: string)
    requires a < Pow10(width) && b < Pow10(width)
    ensures TextLess(Pad(a, width) + s, Pad(b, width) + t) <==> a < b || (a == b && TextLess(s, t))
  {
    if width == 0 {
      assert Pad(a, 0) + s == s && Pad(b, 0) + t == t;
    } else {
      var da, db := [DigitChar(a % 10)], [DigitChar(b % 10)];
      assert Pad(a, width) + s == Pad(a / 10, width - 1) + (da + s);
      assert Pad(b, width) + t == Pad(b / 10, width - 1) + (db + t);
      PadOrder(a / 10, b / 10, width - 1, da + s, db + t);
      assert (da + s)[1..] == s && (db + t)[1..] == t;
    }
  }

  /** Texts that start with a date are ordered by the date first. */
  lemma DateTextOrder(a: Date, b: Date, s: string, t: string)
    requires ValidDate(a) && ValidDate(b)
    ensures TextLess(DateText(a) + s, DateText(b) + t) <==> DateLess(a, b) || (a == b && TextLess(s, t))
  {
    hide Pad;
    hide TextLess;
    assert Pow10(1) == 10 && Pow10(2) == 100 && Pow10(3) == 1000 && Pow10(4) == 10000;
    var da, db := Pad(a.day, 2) + s, Pad(b.day, 2) + t;
    PadOrder(a.day, b.day, 2, s, t);
    SameHead('-', da, db);
    var ma, mb := Pad(a.month, 2) + ("-" + da), Pad(b.month, 2) + ("-" + db);
    PadOrder(a.month, b.month, 2, "-" + da, "-" + db);
    SameHead('-', ma, mb);
    PadOrder(a.year, b.year, 4, "-" + ma, "-" + mb);
    assert DateText(a) + s == Pad(a.year, 4) + ("-" + ma);
    assert DateText(b) + t == Pad(b.year, 4) + ("-" + mb);
  }

  predicate ClockLess(a: Timestamp, b: Timestamp) {
    a.hour < b.hour || (a.hour == b.hour && (
      a.minute < b.minute || (a.minute == b.minute && (
        a.second < b.second || (a.second == b.second && a.milli < b.milli)))))
  }

  function ClockOf(ts: Timestamp): string {
    ClockText(ts.hour, ts.minute, ts.second, ts.milli)
  }

  lemma ClockTextOrder(a: Timestamp, b: Timestamp)
    requires ValidTimestamp(a) && ValidTimestamp(b)
    ensures TextLess(ClockOf(a), ClockOf(b)) <==> ClockLess(a, b)
  {
    hide Pad, TextLess;
    assert Pow10(1) == 10 && Pow10(2) == 100 && Pow10(3) == 1000;
    TextLessTotal("Z", "Z");
    PadOrder(a.milli, b.milli, 3, "Z", "Z");
    var xa, xb := Pad(a.milli, 3) + "Z", Pad(b.milli, 3) + "Z";
    SameHead('.', xa, xb);
    PadOrder(a.second, b.second, 2, "." + xa, "." + xb);
    var sa, sb := Pad(a.second, 2) + ("." + xa), Pad(b.second, 2) + ("." + xb);
    SameHead(':', sa, sb);
    PadOrder(a.minute, b.minute, 2, ":" + sa, ":" + sb);
    var ma, mb := Pad(a.minute, 2) + (":" + sa), Pad(b.minute, 2) + (":" + sb);
    SameHead(':', ma, mb);
    PadOrder(a.hour, b.hour, 2, ":" + ma, ":" + mb);
    SameHead('T', Pad(a.hour, 2) + (":" + ma), Pad(b.hour, 2) + (":" + mb));
  }

  function ClockMillis(ts: Timestamp): nat {
    ((ts.hour * 60 + ts.minute) * 60 + ts.second) * 1000 + ts.milli
  }

  const DAY_MILLIS: nat := 86_400_000

  lemma InstantSplits(ts: Timestamp)
    requires ValidTimestamp(ts)
    ensures InstantOf(ts) == DayNumber(ts.date) * DAY_MILLIS + ClockMillis(ts)
    ensures ClockMillis(ts) < DAY_MILLIS
  {
    hide DayNumber, ValidDate;
  }

  lemma ClockByMillis(a: Timestamp, b: Timestamp)
    requires ValidTimestamp(a) && ValidTimestamp(b)
    ensures ClockLess(a, b) <==> ClockMillis(a) < ClockMillis(b)
  {
    hide ValidDate;
  }

  /** On canonical UTC timestamps the text order is the order of the instants. */
  lemma TextOrderIsChronological(a: Timestamp, b: Timestamp)
    requires ValidTimestamp(a) && ValidTimestamp(b)
    ensures TextLess(IsoText(a), IsoText(b)) <==> InstantOf(a) < InstantOf(b)
    ensures IsoText(a) == IsoText(b) <==> InstantOf(a) == InstantOf(b)
  {
    OneWay(a, b);
    OneWay(b, a);
    TextLessTotal(IsoText(a), IsoText(b));
    hide IsoText, InstantOf, ValidTimestamp, TextLess;
  }

  lemma OneWay(a: Timestamp, b: Timestamp)
    requires ValidTimestamp(a) && ValidTimestamp(b)
    ensures TextLess(IsoText(a), IsoText(b)) <==> InstantOf(a) < InstantOf(b)
  {
    DateTextOrder(a.date, b.date, ClockOf(a), ClockOf(b));
    ClockTextOrder(a, b);
    ClockByMillis(a, b);
    InstantSplits(a);
    InstantSplits(b);
    DatesByNumber(a.date, b.date);
    hide DateText, ClockText, InstantOf, ClockMillis, ClockLess, DateLess, DayNumber, ValidTimestamp, TextLess;
    ByDayThenClock(DayNumber(a.date), ClockMillis(a), DayNumber(b.date), ClockMillis(b));
  }

  lemma ByDayThenClock(d: nat, x: nat, e: nat, y: nat)
    requires x < DAY_MILLIS && y < DAY_MILLIS
    ensures d * DAY_MILLIS + x < e * DAY_MILLIS + y <==> d < e || (d == e && x < y)
  {
  }

  // ----- the boundaries -----

  datatype Boundary = Bound(text: string) | NoBound | InvalidDate

  /** Four digits, two digits and two digits, joined by hyphens. */
  predicate DateOnly(s: string) {
    |s| == 10 && forall i | 0 <= i < 10 :: if i == 4 || i == 7 then s[i] == '-' else IsDigit(s[i])
  }

  function DayStart(d: Date): Timestamp {
    Timestamp(d, 0, 0, 0, 0)
  }

  function DayEnd(d: Date): Timestamp {
    Timestamp(d, 23, 59, 59, 999)
  }

  /** A date parser that gives valid results and reads canonical timestamps as themselves;
      what it makes of any other text is left open. */
  ghost predicate ReadsCanonical(parse: string -> Option<Timestamp>) {
    && (forall s :: parse(s).Some? ==> ValidTimestamp(parse(s).value))
    && (forall ts :: ValidTimestamp(ts) ==> parse(IsoText(ts)) == Some(ts))
  }

  /** Turns a bound of the query into a canonical timestamp; a bare date is completed to the first or the
      last millisecond of its day. */
  function NormalizeDateBoundary(value: Option<string>, upper: bool, parse: string -> Option<Timestamp>): Boundary {
    if !Present(value) then NoBound
    else
      match BoundInstant(value.value, upper, parse)
      case None => InvalidDate
      case Some(ts) => Bound(IsoText(ts))
  }

  predicate Present(value: Option<string>) {
    value.Some? && value.value != ""
  }

  /** The instant that a bound means, if it parses. */
  function BoundInstant(value: string, upper: bool, parse: string -> Option<Timestamp>): Option<Timestamp> {
    var raw := Trim(value);
    parse(if DateOnly(raw) then raw + (if upper then "T23:59:59.999Z" else "T00:00:00.000Z") else raw)
  }

  lemma {:induction false} PadIsDigits(n: nat, width: nat)
    ensures forall i | 0 <= i < width :: IsDigit(Pad(n, width)[i])
  {
    if width > 0 {
      PadIsDigits(n / 10, width - 1);
    }
  }

  lemma {:induction false} DigitsArePadded(s: string)
    requires AllDigits(s)
    ensures Pad(ParseDecimal(s), |s|) == s && ParseDecimal(s) < Pow10(|s|)
  {
    var n := |s| - 1;
    var last := DigitValue(s[n]);
    assert DigitChar(last) == s[n];
    var high := if n == 0 then 0 else ParseDecimal(s[..n]);
    assert ParseDecimal(s) == 10 * high + last;
    assert ParseDecimal(s) / 10 == high && ParseDecimal(s) % 10 == last;
    if n > 0 {
      DigitsArePadded(s[..n]);
    }
    hide ParseDecimal, DigitValue, DigitChar;
    assert Pow10(n + 1) == 10 * Pow10(n) && Pad(high, n) == s[..n];
    assert s == s[..n] + [s[n]];
  }

  /** The bare dates are exactly the texts of a year, a month and a day, in the calendar or not. */
  lemma DateOnlyIff(s: string)
    ensures DateOnly(s) <==> exists d: Date :: s == DateText(d)
  {
    if DateOnly(s) {
      var d := Date(ParseDecimal(s[..4]), ParseDecimal(s[5..7]), ParseDecimal(s[8..]));
      DigitsArePadded(s[..4]);
      DigitsArePadded(s[5..7]);
      DigitsArePadded(s[8..]);
      assert s == s[..4] + "-" + s[5..7] + "-" + s[8..];
      assert s == DateText(d);
    }
    if d: Date :| s == DateText(d) {
      DateTextIsDateOnly(d);
    }
  }

  lemma DateTextIsDateOnly(d: Date)
    ensures DateOnly(DateText(d)) && Trim(DateText(d)) == DateText(d)
  {
    PadIsDigits(d.year, 4);
    PadIsDigits(d.month, 2);
    PadIsDigits(d.day, 2);
    hide Pad;
    var s := DateText(d);
    assert s[0] == Pad(d.year, 4)[0] && s[9] == Pad(d.day, 2)[1];
    TrimOfTrimmed(s);
  }

  lemma PadTwo(n: nat)
    ensures Pad(n, 2) == [DigitChar(n / 10 % 10), DigitChar(n % 10)]
  {
    assert Pad(n / 10, 1) == Pad(n / 10 / 10, 0) + [DigitChar(n / 10 % 10)];
  }

  lemma PadThree(n: nat)
    ensures Pad(n, 3) == [DigitChar(n / 100 % 10), DigitChar(n / 10 % 10), DigitChar(n % 10)]
  {
    PadTwo(n / 10);
    assert n / 10 / 10 == n / 100;
  }

  lemma PaddedBounds()
    ensures Pad(0, 2) == "00" && Pad(23, 2) == "23" && Pad(59, 2) == "59" && Pad(0, 3) == "000" && Pad(999, 3) == "999"
  {
    PadTwo(0);
    PadTwo(23);
    PadTwo(59);
    PadThree(0);
    PadThree(999);
    hide Pad;
  }

  lemma DayClocks()
    ensures ClockText(0, 0, 0, 0) == "T00:00:00.000Z" && ClockText(23, 59, 59, 999) == "T23:59:59.999Z"
  {
    hide Pad;
    PaddedBounds();
    assert ":" + ("00" + ("." + ("000" + "Z"))) == ":00.000Z" && ":" + ("59" + ("." + ("999" + "Z"))) == ":59.999Z";
  }

  /** White space around a bound does not count; a bare date is completed, and any other text is parsed as it is. */
  lemma BoundReads(before: string, s: string, after: string, upper: bool, parse: string -> Option<Timestamp>)
    requires AllSpace(before) && AllSpace(after) && s != "" && Trimmed(s)
    ensures BoundInstant(before + s + after, upper, parse) ==
            if exists d: Date :: s == DateText(d) then parse(s + if upper then "T23:59:59.999Z" else "T00:00:00.000Z")
            else parse(s)
  {
    TrimPadded(before, s, after);
    DateOnlyIff(s);
    hide Trim, DateOnly, DateText;
  }

  /** A bare date becomes the first or the last instant of that UTC day. */
  lemma DateBoundary(d: Date, upper: bool, parse: string -> Option<Timestamp>)
    requires ValidDate(d) && ReadsCanonical(parse)
    ensures NormalizeDateBoundary(Some(DateText(d)), upper, parse) ==
            Bound(IsoText(if upper then DayEnd(d) else DayStart(d)))
  {
    DateTextIsDateOnly(d);
    DayClocks();
    assert DateText(d) != "";
    hide DateText, ClockText, Trim, DateOnly;
    var ts := if upper then DayEnd(d) else DayStart(d);
    assert ValidTimestamp(ts) && parse(IsoText(ts)) == Some(ts);
  }

  /** A request with stored start text `s` passes the bare dates `from` and `to` as bounds. */
  predicate Selected(s: string, from: Date, to: Date, parse: string -> Option<Timestamp>) {
    var lower := NormalizeDateBoundary(Some(DateText(from)), false, parse);
    var upper := NormalizeDateBoundary(Some(DateText(to)), true, parse);
    lower.Bound? && upper.Bound? && StartWithin(Some(s), lower.text, upper.text)
  }

  /** The promise: the UTC day `u` lies in the range, both ends included. */
  predicate InRange(u: Date, from: Date, to: Date)
    requires ValidDate(u) && ValidDate(from) && ValidDate(to)
  {
    DayNumber(from) <= DayNumber(u) <= DayNumber(to)
  }

  lemma SelectedByText(s: string, from: Date, to: Date, parse: string -> Option<Timestamp>)
    requires ValidDate(from) && ValidDate(to) && ReadsCanonical(parse)
    ensures Selected(s, from, to, parse)
       <==> TextAtMost(IsoText(DayStart(from)), s) && TextAtMost(s, IsoText(DayEnd(to)))
  {
    DateBoundary(from, false, parse);
    DateBoundary(to, true, parse);
    assert IsoText(DayStart(from)) != "" && IsoText(DayEnd(to)) != "";
    hide NormalizeDateBoundary, ReadsCanonical, IsoText, TextAtMost;
  }

  lemma DateTextAtMost(a: Date, b: Date, x: string, y: string)
    requires ValidDate(a) && ValidDate(b)
    ensures TextAtMost(DateText(a) + x, DateText(b) + y)
       <==> DayNumber(a) < DayNumber(b) || (a == b && TextAtMost(x, y))
  {
    DateTextOrder(a, b, x, y);
    DateTextOrder(b, a, y, x);
    DatesByNumber(a, b);
    TextLessTotal(DateText(a) + x, DateText(b) + y);
    TextLessTotal(x, y);
    hide DateText, TextLess, DayNumber;
  }

  // ----- the range on stored instants -----

  /** The text that the query compares with; an absent bound is the empty text. */
  function BoundText(b: Boundary): string {
    if b.Bound? then b.text else ""
  }

  lemma TimestampText(ts: Timestamp)
    ensures |IsoText(ts)| == 24 && Trim(IsoText(ts)) == IsoText(ts)
  {
    PadIsDigits(ts.date.year, 4);
    hide Pad;
    var s := IsoText(ts);
    assert s[0] == Pad(ts.date.year, 4)[0] && s[23] == 'Z';
    TrimOfTrimmed(s);
  }

  /** A canonical timestamp as a bound means itself. */
  lemma TimestampBoundary(ts: Timestamp, upper: bool, parse: string -> Option<Timestamp>)
    requires ValidTimestamp(ts) && ReadsCanonical(parse)
    ensures BoundInstant(IsoText(ts), upper, parse) == Some(ts) && Present(Some(IsoText(ts)))
  {
    TimestampText(ts);
    hide IsoText, Trim;
  }

  lemma AtMostByInstant(a: Timestamp, b: Timestamp)
    requires ValidTimestamp(a) && ValidTimestamp(b)
    ensures TextAtMost(IsoText(a), IsoText(b)) <==> InstantOf(a) <= InstantOf(b)
    ensures IsoText(a) != ""
  {
    TextOrderIsChronological(a, b);
    TimestampText(a);
    hide IsoText, InstantOf, ValidTimestamp, TextLess, Trim;
  }

  lemma ParsedIsValid(value: string, upper: bool, parse: string -> Option<Timestamp>)
    requires ReadsCanonical(parse) && BoundInstant(value, upper, parse).Some?
    ensures ValidTimestamp(BoundInstant(value, upper, parse).value)
  {
  }

  /** The instant is not before the lower bound, if there is one. */
  ghost predicate NotBefore(ts: Timestamp, from: Option<string>, parse: string -> Option<Timestamp>)
    requires ValidTimestamp(ts)
  {
    Present(from) ==>
      var bound := BoundInstant(from.value, false, parse);
      bound.Some? && ValidTimestamp(bound.value) && InstantOf(bound.value) <= InstantOf(ts)
  }

  /** The instant is not after the upper bound, if there is one. */
  ghost predicate NotAfter(ts: Timestamp, to: Option<string>, parse: string -> Option<Timestamp>)
    requires ValidTimestamp(ts)
  {
    Present(to) ==>
      var bound := BoundInstant(to.value, true, parse);
      bound.Some? && ValidTimestamp(bound.value) && InstantOf(ts) <= InstantOf(bound.value)
  }

  /** A missing or empty bound is none, and one that does not parse is refused. */
  lemma BoundKinds(value: Option<string>, upper: bool, parse: string -> Option<Timestamp>)
    ensures NormalizeDateBoundary(value, upper, parse).NoBound? <==> value in {None, Some("")}
    ensures NormalizeDateBoundary(value, upper, parse).InvalidDate?
       <==> value !in {None, Some("")} && BoundInstant(value.value, upper, parse).None?
  {
    hide BoundInstant, IsoText;
  }

  lemma LowerByInstant(ts: Timestamp, from: Option<string>, parse: string -> Option<Timestamp>)
    requires ValidTimestamp(ts) && ReadsCanonical(parse)
    ensures var text := BoundText(NormalizeDateBoundary(from, false, parse));
      !NormalizeDateBoundary(from, false, parse).InvalidDate? ==>
        ((text != "" ==> TextAtMost(text, IsoText(ts))) <==> NotBefore(ts, from, parse))
  {
    if Present(from) && BoundInstant(from.value, false, parse).Some? {
      ParsedIsValid(from.value, false, parse);
      AtMostByInstant(BoundInstant(from.value, false, parse).value, ts);
    }
    hide IsoText, InstantOf, TextAtMost, ValidTimestamp, BoundInstant, ReadsCanonical;
  }

  lemma UpperByInstant(ts: Timestamp, to: Option<string>, parse: string -> Option<Timestamp>)
    requires ValidTimestamp(ts) && ReadsCanonical(parse)
    ensures var text := BoundText(NormalizeDateBoundary(to, true, parse));
      !NormalizeDateBoundary(to, true, parse).InvalidDate? ==>
        ((text != "" ==> TextAtMost(IsoText(ts), text)) <==> NotAfter(ts, to, parse))
  {
    if Present(to) && BoundInstant(to.value, true, parse).Some? {
      var end := BoundInstant(to.value, true, parse).value;
      ParsedIsValid(to.value, true, parse);
      AtMostByInstant(ts, end);
      AtMostByInstant(end, ts);
    }
    hide IsoText, InstantOf, TextAtMost, ValidTimestamp, BoundInstant, ReadsCanonical;
  }

  /** Whatever bounds a caller gives, bare dates, timestamps or nothing: once they parse, a stored canonical
      timestamp is selected exactly when its instant lies between the instants of the bounds that are given. */
  lemma RangeByInstants(ts: Timestamp, from: Option<string>, to: Option<string>, parse: string -> Option<Timestamp>)
    requires ValidTimestamp(ts) && ReadsCanonical(parse)
    ensures var lower, upper := NormalizeDateBoundary(from, false, parse), NormalizeDateBoundary(to, true, parse);
      !lower.InvalidDate? && !upper.InvalidDate? ==>
        (StartWithin(Some(IsoText(ts)), BoundText(lower), BoundText(upper))
         <==> NotBefore(ts, from, parse) && NotAfter(ts, to, parse))
  {
    LowerByInstant(ts, from, parse);
    UpperByInstant(ts, to, parse);
    hide IsoText, TextAtMost, ValidTimestamp, NotBefore, NotAfter, NormalizeDateBoundary, ReadsCanonical;
  }

  // ----- the range on any stored text -----

  /** The exact selection of every text that starts with a date: inside the range by the date, and on the first
      and the last day by how the rest compares with the completed bounds. */
  lemma DatedTextSelected(d: Date, x: string, from: Date, to: Date, parse: string -> Option<Timestamp>)
    requires ValidDate(d) && ValidDate(from) && ValidDate(to) && ReadsCanonical(parse)
    ensures Selected(DateText(d) + x, from, to, parse)
       <==> && (DayNumber(from) < DayNumber(d) || (from == d && TextAtMost("T00:00:00.000Z", x)))
            && (DayNumber(d) < DayNumber(to) || (d == to && TextAtMost(x, "T23:59:59.999Z")))
  {
    DayClocks();
    SelectedByText(DateText(d) + x, from, to, parse);
    DateTextAtMost(from, d, "T00:00:00.000Z", x);
    DateTextAtMost(d, to, x, "T23:59:59.999Z");
    hide Selected, DateText, ClockText, TextAtMost, DayNumber, ReadsCanonical;
  }

  lemma TextAtMostTransitive(a: string, b: string, c: string)
    requires TextAtMost(a, b) && TextAtMost(b, c)
    ensures TextAtMost(a, c)
  {
    if a != b && b != c {
      TextLessTransitive(a, b, c);
    }
  }

  lemma NotBothAtMost(a: string, b: string, c: string)
    requires TextLess(a, b)
    ensures !(TextAtMost(b, c) && TextAtMost(c, a))
  {
    if TextAtMost(b, c) && TextAtMost(c, a) {
      TextAtMostTransitive(b, c, a);
      TextLessTotal(a, b);
    }
  }

  /** The text of the day `u`'s end comes before the start of every later day. */
  lemma DaysAreApart(u: Date, v: Date)
    requires ValidDate(u) && ValidDate(v)
    ensures DayNumber(u) < DayNumber(v) ==> TextLess(IsoText(DayEnd(u)), IsoText(DayStart(v)))
    ensures DayNumber(u) <= DayNumber(v) ==> TextAtMost(IsoText(DayStart(u)), IsoText(DayStart(v)))
    ensures DayNumber(u) <= DayNumber(v) ==> TextAtMost(IsoText(DayEnd(u)), IsoText(DayEnd(v)))
  {
    DatesByNumber(u, v);
    DateTextOrder(u, v, ClockOf(DayEnd(u)), ClockOf(DayStart(v)));
    DateTextAtMost(u, v, ClockOf(DayStart(u)), ClockOf(DayStart(v)));
    DateTextAtMost(u, v, ClockOf(DayEnd(u)), ClockOf(DayEnd(v)));
    hide DayNumber, DateText, ClockText, TextLess, DateLess;
  }

  /** Whatever text is stored, the ranges that select it are exactly those that hold its UTC day if and only if
      the text lies between the canonical texts of the first and the last millisecond of that day. */
  lemma RangePromiseIff(s: string, u: Date, parse: string -> Option<Timestamp>)
    requires ValidDate(u) && ReadsCanonical(parse)
    ensures (forall from, to | ValidDate(from) && ValidDate(to) ::
               Selected(s, from, to, parse) <==> InRange(u, from, to))
       <==> TextAtMost(IsoText(DayStart(u)), s) && TextAtMost(s, IsoText(DayEnd(u)))
  {
    SelectedByText(s, u, u, parse);
    assert InRange(u, u, u);
    hide Selected, IsoText, TextAtMost, DayNumber, ReadsCanonical, TextLess;
    if TextAtMost(IsoText(DayStart(u)), s) && TextAtMost(s, IsoText(DayEnd(u))) {
      forall from, to | ValidDate(from) && ValidDate(to)
        ensures Selected(s, from, to, parse) <==> InRange(u, from, to)
      {
        SelectedByText(s, from, to, parse);
        DaysAreApart(from, u);
        DaysAreApart(u, from);
        DaysAreApart(u, to);
        DaysAreApart(to, u);
        if DayNumber(from) <= DayNumber(u) {
          TextAtMostTransitive(IsoText(DayStart(from)), IsoText(DayStart(u)), s);
        } else {
          NotBothAtMost(IsoText(DayEnd(u)), IsoText(DayStart(from)), s);
        }
        if DayNumber(u) <= DayNumber(to) {
          TextAtMostTransitive(s, IsoText(DayEnd(u)), IsoText(DayEnd(to)));
        } else {
          NotBothAtMost(IsoText(DayEnd(to)), IsoText(DayStart(u)), s);
        }
      }
    }
  }

  // ----- the forms of a stored start -----

  lemma ClockInDay(ts: Timestamp)
    requires ValidTimestamp(ts)
    ensures TextAtMost("T00:00:00.000Z", ClockOf(ts)) && TextAtMost(ClockOf(ts), "T23:59:59.999Z")
  {
    DayClocks();
    var d := ts.date;
    ClockTextOrder(ts, DayStart(d));
    ClockTextOrder(DayEnd(d), ts);
    TextLessTotal(ClockOf(ts), ClockOf(DayStart(d)));
    TextLessTotal(ClockOf(DayEnd(d)), ClockOf(ts));
    hide ClockText, TextLess;
  }

  /** A stored canonical timestamp is selected exactly when its UTC day lies in the range. */
  lemma DateRangeSelectsDays(ts: Timestamp, from: Date, to: Date, parse: string -> Option<Timestamp>)
    requires ValidTimestamp(ts) && ValidDate(from) && ValidDate(to) && ReadsCanonical(parse)
    ensures Selected(IsoText(ts), from, to, parse) <==> InRange(ts.date, from, to)
  {
    ClockInDay(ts);
    DatedTextSelected(ts.date, ClockOf(ts), from, to, parse);
    DatesByNumber(from, ts.date);
    DatesByNumber(ts.date, to);
    hide Selected, DayNumber, DateText, ClockText, TextAtMost, ReadsCanonical;
  }

  /** A stored bare date is left out on the first day of a range: it meets the promise if and only if it is not
      the first day, or the range is empty. */
  lemma BareDateMissesFirstDay(d: Date, from: Date, to: Date, parse: string -> Option<Timestamp>)
    requires ValidDate(d) && ValidDate(from) && ValidDate(to) && ReadsCanonical(parse)
    ensures Selected(DateText(d), from, to, parse) <==> DayNumber(from) < DayNumber(d) <= DayNumber(to)
    ensures (Selected(DateText(d), from, to, parse) <==> InRange(d, from, to))
       <==> d != from || DayNumber(to) < DayNumber(from)
  {
    assert DateText(d) + "" == DateText(d);
    DatedTextSelected(d, "", from, to, parse);
    DatesByNumber(from, d);
    DatesByNumber(d, to);
    hide Selected, DayNumber, DateText, ReadsCanonical;
  }

  /** THH:MM:SS, then a suffix such as Z, a fraction or an offset. */
  function SecondsText(ts: Timestamp, suffix: string): string {
    "T" + (Pad(ts.hour, 2) + (":" + (Pad(ts.minute, 2) + (":" + (Pad(ts.second, 2) + suffix)))))
  }

  /** The clock to the second. */
  function Seconds(ts: Timestamp): nat {
    (ts.hour * 60 + ts.minute) * 60 + ts.second
  }

  lemma SecondsOrder(a: Timestamp, b: Timestamp, x: string, y: string)
    requires ValidTimestamp(a) && ValidTimestamp(b)
    ensures TextAtMost(SecondsText(a, x), SecondsText(b, y))
       <==> Seconds(a) < Seconds(b) || (Seconds(a) == Seconds(b) && TextAtMost(x, y))
  {
    SecondsLess(a, b, x, y);
    SecondsLess(b, a, y, x);
    TextLessTotal(SecondsText(a, x), SecondsText(b, y));
    TextLessTotal(x, y);
    hide SecondsText, TextLess, Seconds, ValidTimestamp;
  }

  lemma SecondsLess(a: Timestamp, b: Timestamp, x: string, y: string)
    requires ValidTimestamp(a) && ValidTimestamp(b)
    ensures TextLess(SecondsText(a, x), SecondsText(b, y))
       <==> Seconds(a) < Seconds(b) || (Seconds(a) == Seconds(b) && TextLess(x, y))
  {
    hide Pad, TextLess, ValidDate;
    assert Pow10(1) == 10 && Pow10(2) == 100;
    PadOrder(a.second, b.second, 2, x, y);
    var sa, sb := Pad(a.second, 2) + x, Pad(b.second, 2) + y;
    SameHead(':', sa, sb);
    PadOrder(a.minute, b.minute, 2, ":" + sa, ":" + sb);
    var ma, mb := Pad(a.minute, 2) + (":" + sa), Pad(b.minute, 2) + (":" + sb);
    SameHead(':', ma, mb);
    PadOrder(a.hour, b.hour, 2, ":" + ma, ":" + mb);
    SameHead('T', Pad(a.hour, 2) + (":" + ma), Pad(b.hour, 2) + (":" + mb));
  }

  lemma SecondsInDay(ts: Timestamp, suffix: string)
    requires ValidTimestamp(ts)
    ensures TextAtMost("T00:00:00.000Z", SecondsText(ts, suffix)) <==> Seconds(ts) > 0 || TextAtMost(".000Z", suffix)
    ensures TextAtMost(SecondsText(ts, suffix), "T23:59:59.999Z")
       <==> Seconds(ts) < 86399 || TextAtMost(suffix, ".999Z")
  {
    var first, last := DayStart(ts.date), DayEnd(ts.date);
    PadTwo(0);
    PadTwo(23);
    PadTwo(59);
    assert SecondsText(first, ".000Z") == "T00:00:00.000Z" && SecondsText(last, ".999Z") == "T23:59:59.999Z";
    SecondsOrder(first, ts, ".000Z", suffix);
    SecondsOrder(ts, last, suffix, ".999Z");
    assert Seconds(last) == 86399 && Seconds(first) == 0;
    hide SecondsText, TextAtMost, Pad;
  }

  /** A stored UTC time without a fraction meets the promise unless it is the last second of the range's last day,
      which is left out: the Z comes after the full stop of the completed bound. */
  lemma SecondsMissLastSecond(ts: Timestamp, from: Date, to: Date, parse: string -> Option<Timestamp>)
    requires ValidTimestamp(ts) && ValidDate(from) && ValidDate(to) && ReadsCanonical(parse)
    ensures var s := DateText(ts.date) + SecondsText(ts, "Z");
      (Selected(s, from, to, parse) <==> InRange(ts.date, from, to))
      <==> Seconds(ts) < 86399 || ts.date != to || DayNumber(to) < DayNumber(from)
  {
    SecondsInDay(ts, "Z");
    DatedTextSelected(ts.date, SecondsText(ts, "Z"), from, to, parse);
    DatesByNumber(from, ts.date);
    DatesByNumber(ts.date, to);
    assert TextAtMost(".000Z", "Z") && !TextAtMost("Z", ".999Z");
    hide Selected, DayNumber, DateText, SecondsText, TextAtMost, ReadsCanonical;
  }

  /** Three inputs outside the promise: the last second of the last day without a fraction, midnight of the first
      day with an offset, and a time that is selected by the day it is written with, when its UTC day is the next. */
  lemma MissedStarts(d: Date, from: Date, to: Date, parse: string -> Option<Timestamp>)
    requires ValidDate(d) && ValidDate(from) && ValidDate(to) && ReadsCanonical(parse)
    ensures !Selected(DateText(d) + "T23:59:59Z", from, d, parse)
    ensures !Selected(DateText(d) + "T00:00:00+00:00", d, to, parse)
    ensures Selected(DateText(d) + "T23:00:00-05:00", d, d, parse)
  {
    DatedTextSelected(d, "T23:59:59Z", from, d, parse);
    DatedTextSelected(d, "T00:00:00+00:00", d, to, parse);
    DatedTextSelected(d, "T23:00:00-05:00", d, d, parse);
    hide Selected, DateText, DayNumber, ReadsCanonical, TextAtMost;
    MissedClocks();
  }

  lemma MissedClocks()
    ensures !TextAtMost("T23:59:59Z", "T23:59:59.999Z")
    ensures !TextAtMost("T00:00:00.000Z", "T00:00:00+00:00")
    ensures TextAtMost("T00:00:00.000Z", "T23:00:00-05:00") && TextAtMost("T23:00:00-05:00", "T23:59:59.999Z")
  {
    hide TextLess, TextAtMost;
    FirstDifference("T23:59:59.999Z", "T23:59:59Z", 9);
    FirstDifference("T00:00:00+00:00", "T00:00:00.000Z", 9);
    FirstDifference("T00:00:00.000Z", "T23:00:00-05:00", 1);
    FirstDifference("T23:00:00-05:00", "T23:59:59.999Z", 4);
  }

  /** The first difference decides how two texts compare. */
  lemma FirstDifference(a: string, b: string, i: nat)
    requires i < |a| && i < |b| && a[i] < b[i] && forall j | 0 <= j < i :: a[j] == b[j]
    ensures TextAtMost(a, b) && !TextAtMost(b, a)
  {
    assert LessAt(a, b, i);
    TextLessIs(a, b);
    TextLessTotal(a, b);
    hide TextLess;
  }

  /** A stored time with an offset is placed by the local date it is written with, whatever its UTC day is, and
      local midnight is left out on the first day. */
  lemma OffsetsGoByLocalDate(ts: Timestamp, offset: string, from: Date, to: Date, parse: string -> Option<Timestamp>)
    requires ValidTimestamp(ts) && ValidDate(from) && ValidDate(to) && ReadsCanonical(parse)
    requires offset != "" && (offset[0] == '+' || offset[0] == '-')
    ensures Selected(DateText(ts.date) + SecondsText(ts, offset), from, to, parse)
       <==> InRange(ts.date, from, to) && (ts.date == from ==> Seconds(ts) > 0)
  {
    SecondsInDay(ts, offset);
    DatedTextSelected(ts.date, SecondsText(ts, offset), from, to, parse);
    DatesByNumber(from, ts.date);
    DatesByNumber(ts.date, to);
    assert !TextAtMost(".000Z", offset) && TextAtMost(offset, ".999Z");
    hide Selected, DayNumber, DateText, SecondsText, TextAtMost, ReadsCanonical;
  }

  /** Hence a stored time with an offset meets the promise in all ranges if and only if its UTC day `u` is the
      date it is written with and it is not local midnight. */
  lemma OffsetPromiseIff(ts: Timestamp, offset: string, u: Date, parse: string -> Option<Timestamp>)
    requires ValidTimestamp(ts) && ValidDate(u) && ReadsCanonical(parse)
    requires offset != "" && (offset[0] == '+' || offset[0] == '-')
    ensures var s := DateText(ts.date) + SecondsText(ts, offset);
      (forall from, to | ValidDate(from) && ValidDate(to) :: Selected(s, from, to, parse) <==> InRange(u, from, to))
      <==> u == ts.date && Seconds(ts) > 0
  {
    var x := SecondsText(ts, offset);
    RangePromiseIff(DateText(ts.date) + x, u, parse);
    DayClocks();
    DateTextAtMost(u, ts.date, "T00:00:00.000Z", x);
    DateTextAtMost(ts.date, u, x, "T23:59:59.999Z");
    SecondsInDay(ts, offset);
    DatesByNumber(u, ts.date);
    assert !TextAtMost(".000Z", offset) && TextAtMost(offset, ".999Z");
    hide Selected, DayNumber, DateText, SecondsText, ClockText, TextAtMost, ReadsCanonical;
  }
}
