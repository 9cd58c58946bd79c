/**
 The queue stores instants as UTC ISO 8601 strings and compares the strings
 (app/notifications/queue.py). This module shows that the order of the strings is the
 order of the instants, for every instant of the years 1 to 9999, although the fraction
 is left out when it is zero, so that the strings differ in length.
 */
module Timestamps {
  import opened Prelude
  import opened Ordering
  import opened Messages

  // ----- the calendar

  const MICROS_PER_DAY := 86_400_000_000
  const MAX_YEAR := 9999

  datatype Stamp = Stamp(year: int, month: int, day: int, hour: int, minute: int, second: int, micro: int)

  predicate IsLeap(year: int) {
    year % 4 == 0 && (year % 100 != 0 || year % 400 == 0)
  }

  function DaysInMonth(year: int, month: int): int {
    if month == 2 then (if IsLeap(year) then 29 else 28)
    else if month in {4, 6, 9, 11} then 30
    else 31
  }

  function DaysBeforeYear(year: int): int {
    var y := year - 1;
    365 * y + y / 4 - y / 100 + y / 400
  }

  function DaysBeforeMonth(year: int, month: int): int
    decreases month
  {
    if month <= 1 then 0 else DaysBeforeMonth(year, month - 1) + DaysInMonth(year, month - 1)
  }

  predicate Valid(s: Stamp) {
    && 1 <= s.year <= MAX_YEAR && 1 <= s.month <= 12 && 1 <= s.day <= DaysInMonth(s.year, s.month)
    && 0 <= s.hour < 24 && 0 <= s.minute < 60 && 0 <= s.second < 60 && 0 <= s.micro < 1_000_000
  }

  function DayNumber(s: Stamp): int {
    DaysBeforeYear(s.year) + DaysBeforeMonth(s.year, s.month) + s.day - 1
  }

  function MicroOfDay(s: Stamp): int {
    ((s.hour * 60 + s.minute) * 60 + s.second) * SECOND + s.micro
  }

  /** Microseconds since the start of year 1, UTC. */
  function Instant(s: Stamp): int {
    DayNumber(s) * MICROS_PER_DAY + MicroOfDay(s)
  }

  const END_OF_TIME := DaysBeforeYear(MAX_YEAR + 1) * MICROS_PER_DAY

  predicate EarlierDay(a: Stamp, b: Stamp) {
    a.year < b.year || (a.year == b.year && (a.month < b.month || (a.month == b.month && a.day < b.day)))
  }

  predicate SameDay(a: Stamp, b: Stamp) {
    a.year == b.year && a.month == b.month && a.day == b.day
  }

  predicate EarlierTime(a: Stamp, b: Stamp) {
    || a.hour < b.hour
    || (a.hour == b.hour && (a.minute < b.minute
        || (a.minute == b.minute && (a.second < b.second || (a.second == b.second && a.micro < b.micro)))))
  }

  /** The calendar order: field by field, from the year down. */
  predicate Earlier(a: Stamp, b: Stamp) {
    EarlierDay(a, b) || (SameDay(a, b) && EarlierTime(a, b))
  }

  lemma {:induction false} MultipleOff(rest: int, n: int, k: int)
    requires k == 4 || k == 100
    ensures (k * n + rest) % k == rest % k
  {
    assert k * n + rest == k * (n + rest / k) + rest % k;
  }

  lemma {:induction false} Centuries(year: int)
    ensures year % 400 == 0 ==> year % 100 == 0
    ensures year % 100 == 0 ==> year % 4 == 0
  {
    var n, rest := year / 400, year % 400;
    assert year == 400 * n + rest;
    MultipleOff(rest, 4 * n, 100);
    MultipleOff(rest, 100 * n, 4);
    assert rest % 100 == 0 ==> rest in {0, 100, 200, 300};
  }

  lemma {:induction false} FloorStep(year: int, k: int)
    requires k == 4 || k == 100 || k == 400
    ensures year / k == (year - 1) / k + if year % k == 0 then 1 else 0
  {
  }

  lemma {:induction false} YearLength(year: int)
    ensures DaysBeforeYear(year + 1) == DaysBeforeYear(year) + if IsLeap(year) then 366 else 365
  {
    FloorStep(year, 4);
    FloorStep(year, 100);
    FloorStep(year, 400);
    Centuries(year);
  }

  lemma {:induction false} YearsAddUp(a: int, b: int)
    requires a < b
    ensures DaysBeforeYear(a) + (if IsLeap(a) then 366 else 365) <= DaysBeforeYear(b)
    decreases b - a
  {
    YearLength(b - 1);
    if a < b - 1 {
      YearsAddUp(a, b - 1);
    }
  }

  lemma {:induction false} MonthsAddUp(year: int, a: int, b: int)
    requires 1 <= a < b
    ensures DaysBeforeMonth(year, a) + DaysInMonth(year, a) <= DaysBeforeMonth(year, b)
    decreases b - a
  {
    if a < b - 1 {
      MonthsAddUp(year, a, b - 1);
    }
  }

  lemma {:induction false} MonthsFillYear(year: int)
    ensures DaysBeforeMonth(year, 13) == if IsLeap(year) then 366 else 365
  {
    assert DaysBeforeMonth(year, 3) == DaysInMonth(year, 1) + DaysInMonth(year, 2);
    assert DaysBeforeMonth(year, 5) == DaysBeforeMonth(year, 3) + DaysInMonth(year, 3) + DaysInMonth(year, 4);
    assert DaysBeforeMonth(year, 7) == DaysBeforeMonth(year, 5) + DaysInMonth(year, 5) + DaysInMonth(year, 6);
    assert DaysBeforeMonth(year, 9) == DaysBeforeMonth(year, 7) + DaysInMonth(year, 7) + DaysInMonth(year, 8);
    assert DaysBeforeMonth(year, 11) == DaysBeforeMonth(year, 9) + DaysInMonth(year, 9) + DaysInMonth(year, 10);
  }

  /** A day lies within its year. */
  lemma {:induction false} DayWithinYear(s: Stamp)
    requires Valid(s)
    ensures DaysBeforeYear(s.year) <= DayNumber(s) < DaysBeforeYear(s.year + 1)
  {
    MonthsFillYear(s.year);
    MonthsAddUp(s.year, s.month, 13);
    YearLength(s.year);
    if s.month > 1 {
      MonthsAddUp(s.year, 1, s.month);
    }
  }

  lemma {:induction false} EarlierDayIsLess(a: Stamp, b: Stamp)
    requires Valid(a) && Valid(b) && EarlierDay(a, b)
    ensures DayNumber(a) < DayNumber(b)
  {
    if a.year < b.year {
      DayWithinYear(a);
      DayWithinYear(b);
      YearLength(a.year);
      YearsAddUp(a.year, b.year);
    } else if a.month < b.month {
      MonthsAddUp(a.year, a.month, b.month);
    }
  }

  lemma {:induction false} TimeOrder(a: Stamp, b: Stamp)
    requires Valid(a) && Valid(b)
    ensures 0 <= MicroOfDay(a) < MICROS_PER_DAY
    ensures EarlierTime(a, b) ==> MicroOfDay(a) < MicroOfDay(b)
  {
  }

  lemma {:induction false} EarlierIsLess(a: Stamp, b: Stamp)
    requires Valid(a) && Valid(b) && Earlier(a, b)
    ensures Instant(a) < Instant(b)
  {
    TimeOrder(a, b);
    TimeOrder(b, a);
    if EarlierDay(a, b) {
      EarlierDayIsLess(a, b);
    }
  }

  /** The calendar order is the order of instants. */
  lemma {:induction false} CalendarOrder(a: Stamp, b: Stamp)
    requires Valid(a) && Valid(b)
    ensures Earlier(a, b) <==> Instant(a) < Instant(b)
    ensures Instant(a) == Instant(b) ==> a == b
  {
    if Earlier(a, b) {
      EarlierIsLess(a, b);
    } else if Earlier(b, a) {
      EarlierIsLess(b, a);
    } else {
      assert a == b;
    }
  }

  // ----- from an instant back to the calendar

  ghost function YearOf(day: int, from: int): (y: int)
    requires 1 <= from <= MAX_YEAR && DaysBeforeYear(from) <= day < DaysBeforeYear(MAX_YEAR + 1)
    ensures from <= y <= MAX_YEAR && DaysBeforeYear(y) <= day < DaysBeforeYear(y + 1)
    decreases MAX_YEAR - from
  {
    if day < DaysBeforeYear(from + 1) then from else YearOf(day, from + 1)
  }

  ghost function MonthOf(year: int, day: int, from: int): (m: int)
    requires 1 <= from <= 12 && DaysBeforeMonth(year, from) <= day < DaysBeforeMonth(year, 13)
    ensures from <= m <= 12 && DaysBeforeMonth(year, m) <= day < DaysBeforeMonth(year, m + 1)
    decreases 12 - from
  {
    if day < DaysBeforeMonth(year, from + 1) then from else MonthOf(year, day, from + 1)
  }

  /** Hours, minutes, seconds and the rest make up the time of day. */
  lemma {:induction false} ClockParts(rest: int)
    requires 0 <= rest < MICROS_PER_DAY
    ensures var secs := rest / SECOND;
      && 0 <= secs / 3600 < 24 && 0 <= secs / 60 % 60 < 60 && 0 <= secs % 60 < 60 && 0 <= rest % SECOND < 1_000_000
      && ((secs / 3600 * 60 + secs / 60 % 60) * 60 + secs % 60) * SECOND + rest % SECOND == rest
  {
    var secs := rest / SECOND;
    assert 0 <= secs < 86_400;
    assert secs / 60 / 60 == secs / 3600;
  }

  /** The UTC date and time of an instant. */
  ghost function StampOf(n: int): (s: Stamp)
    requires 0 <= n < END_OF_TIME
    ensures Valid(s) && Instant(s) == n
  {
    var day, rest := n / MICROS_PER_DAY, n % MICROS_PER_DAY;
    var year := YearOf(day, 1);
    MonthsFillYear(year);
    YearLength(year);
    var month := MonthOf(year, day - DaysBeforeYear(year), 1);
    ClockParts(rest);
    var secs := rest / SECOND;
    Stamp(year, month, day - DaysBeforeYear(year) - DaysBeforeMonth(year, month) + 1,
          secs / 3600, secs / 60 % 60, secs % 60, rest % SECOND)
  }

  // ----- the text

  function Digit(n: int): char
    requires 0 <= n < 10
  {
    "0123456789"[n]
  }

  /** The last `width` decimal digits of `n`. */
  function Pad(n: nat, width: nat): (s: string)
    ensures |s| == width
  {
    if width == 0 then "" else Pad(n / 10, width - 1) + [Digit(n % 10)]
  }

  function Fraction(micro: nat): string {
    if micro == 0 then "" else "." + Pad(micro, 6)
  }

  function IsoSecond(s: Stamp): string
    requires Valid(s)
  {
    Pad(s.second, 2) + (Fraction(s.micro) + "+00:00")
  }

  function IsoTime(s: Stamp): string
    requires Valid(s)
  {
    Pad(s.hour, 2) + (":" + (Pad(s.minute, 2) + (":" + IsoSecond(s))))
  }

  /** datetime.isoformat() of a UTC datetime. */
  function Iso(s: Stamp): string
    requires Valid(s)
  {
    Pad(s.year, 4) + ("-" + (Pad(s.month, 2) + ("-" + (Pad(s.day, 2) + ("T" + IsoTime(s))))))
  }

  /** SQLite's comparison of two texts: byte by byte, a proper prefix first. */
  predicate TextLess(a: string, b: string) {
    if b == "" then false
    else if a == "" then true
    else a[0] < b[0] || (a[0] == b[0] && TextLess(a[1..], b[1..]))
  }

  lemma {:induction false} NotLessThanItself(a: string)
    ensures !TextLess(a, a)
  {
    if a != "" {
      NotLessThanItself(a[1..]);
    }
  }

  /** Texts that start with equally long pieces compare piece by piece. */
  lemma {:induction false} PieceOrder(a: string, b: string, x: string, y: string)
    requires |a| == |b|
    ensures TextLess(a + x, b + y) <==> (TextLess(a, b) || (a == b && TextLess(x, y)))
  {
    if a == "" {
      assert a + x == x && b + y == y;
    } else {
      assert (a + x)[1..] == a[1..] + x && (b + y)[1..] == b[1..] + y;
      PieceOrder(a[1..], b[1..], x, y);
      assert a == [a[0]] + a[1..] && b == [b[0]] + b[1..];
    }
  }

  lemma {:induction false} DigitOrder(m: int, n: int)
    requires 0 <= m < 10 && 0 <= n < 10
    ensures Digit(m) < Digit(n) <==> m < n
    ensures Digit(m) == Digit(n) <==> m == n
  {
    assert forall k {:trigger Digit(k)} :: 0 <= k < 10 ==> Digit(k) as int == 48 + k;
  }

  function Pow10(width: nat): nat {
    if width == 0 then 1 else 10 * Pow10(width - 1)
  }

  /** Zero-padded numbers of one width compare as texts as they do as numbers. */
  lemma {:induction false} PadOrder(m: nat, n: nat, width: nat)
    requires m < Pow10(width) && n < Pow10(width)
    ensures TextLess(Pad(m, width), Pad(n, width)) <==> m < n
    ensures Pad(m, width) == Pad(n, width) <==> m == n
  {
    if width > 0 {
      var a, b := Pad(m / 10, width - 1), Pad(n / 10, width - 1);
      PadOrder(m / 10, n / 10, width - 1);
      DigitOrder(m % 10, n % 10);
      PieceOrder(a, b, [Digit(m % 10)], [Digit(n % 10)]);
      assert Pad(m, width)[..width - 1] == a && Pad(n, width)[..width - 1] == b;
      assert Pad(m, width)[width - 1] == Digit(m % 10) && Pad(n, width)[width - 1] == Digit(n % 10);
    }
  }

  /** A number field followed by a text. */
  lemma {:induction false} FieldOrder(m: nat, n: nat, width: nat, x: string, y: string)
    requires m < Pow10(width) && n < Pow10(width)
    ensures TextLess(Pad(m, width) + x, Pad(n, width) + y) <==> (m < n || (m == n && TextLess(x, y)))
  {
    PadOrder(m, n, width);
    PieceOrder(Pad(m, width), Pad(n, width), x, y);
  }

  lemma {:induction false} SeparatorOrder(c: char, x: string, y: string)
    ensures TextLess([c] + x, [c] + y) <==> TextLess(x, y)
  {
    NotLessThanItself([c]);
    PieceOrder([c], [c], x, y);
  }

  lemma {:induction false} Powers()
    ensures Pow10(2) == 100 && Pow10(4) == 10_000 && Pow10(6) == 1_000_000
  {
    assert Pow10(3) == 1000 && Pow10(5) == 100_000;
  }

  lemma {:induction false} DottedOrder(m: nat, n: nat, width: nat, zone: string)
    requires m < Pow10(width) && n < Pow10(width)
    ensures TextLess("." + Pad(m, width) + zone, "." + Pad(n, width) + zone) <==> m < n
  {
    NotLessThanItself(zone);
    FieldOrder(m, n, width, zone, zone);
    SeparatorOrder('.', Pad(m, width) + zone, Pad(n, width) + zone);
    assert "." + Pad(m, width) + zone == ['.'] + (Pad(m, width) + zone);
    assert "." + Pad(n, width) + zone == ['.'] + (Pad(n, width) + zone);
  }

  lemma {:induction false} PlusBeforeDot(digits: string)
    ensures TextLess("+00:00", "." + digits + "+00:00")
    ensures !TextLess("." + digits + "+00:00", "+00:00")
  {
    assert ("." + digits + "+00:00")[0] == '.';
  }

  /** The optional fraction: '+' sorts before '.', so no fraction sorts before any fraction. */
  lemma {:induction false} FractionOrder(m: nat, n: nat)
    requires m < 1_000_000 && n < 1_000_000
    ensures TextLess(Fraction(m) + "+00:00", Fraction(n) + "+00:00") <==> m < n
  {
    var zone, width := "+00:00", 6;
    Powers();
    NotLessThanItself(zone);
    DottedOrder(m, n, width, zone);
    PlusBeforeDot(Pad(m, width));
    PlusBeforeDot(Pad(n, width));
    assert "" + zone == zone;
  }

  lemma {:induction false} TimeTextOrder(a: Stamp, b: Stamp)
    requires Valid(a) && Valid(b)
    ensures TextLess(IsoTime(a), IsoTime(b)) <==> EarlierTime(a, b)
  {
    Powers();
    FractionOrder(a.micro, b.micro);
    FieldOrder(a.second, b.second, 2, Fraction(a.micro) + "+00:00", Fraction(b.micro) + "+00:00");
    SeparatorOrder(':', IsoSecond(a), IsoSecond(b));
    FieldOrder(a.minute, b.minute, 2, ":" + IsoSecond(a), ":" + IsoSecond(b));
    SeparatorOrder(':', Pad(a.minute, 2) + (":" + IsoSecond(a)), Pad(b.minute, 2) + (":" + IsoSecond(b)));
    FieldOrder(a.hour, b.hour, 2, ":" + (Pad(a.minute, 2) + (":" + IsoSecond(a))),
               ":" + (Pad(b.minute, 2) + (":" + IsoSecond(b))));
  }

  lemma {:induction false} TextOrder(a: Stamp, b: Stamp)
    requires Valid(a) && Valid(b)
    ensures TextLess(Iso(a), Iso(b)) <==> Earlier(a, b)
  {
    Powers();
    TimeTextOrder(a, b);
    SeparatorOrder('T', IsoTime(a), IsoTime(b));
    var dayA, dayB := Pad(a.day, 2) + ("T" + IsoTime(a)), Pad(b.day, 2) + ("T" + IsoTime(b));
    FieldOrder(a.day, b.day, 2, "T" + IsoTime(a), "T" + IsoTime(b));
    SeparatorOrder('-', dayA, dayB);
    FieldOrder(a.month, b.month, 2, "-" + dayA, "-" + dayB);
    SeparatorOrder('-', Pad(a.month, 2) + ("-" + dayA), Pad(b.month, 2) + ("-" + dayB));
    FieldOrder(a.year, b.year, 4, "-" + (Pad(a.month, 2) + ("-" + dayA)), "-" + (Pad(b.month, 2) + ("-" + dayB)));
  }

  /** The stored text of an instant. */
  ghost function Stored(n: int): string
    requires 0 <= n < END_OF_TIME
  {
    Iso(StampOf(n))
  }

  /** Stored texts compare as the instants they stand for, and no two instants share a text. */
  lemma {:induction false} StoredOrder(m: int, n: int)
    requires 0 <= m < END_OF_TIME && 0 <= n < END_OF_TIME
    ensures TextLess(Stored(m), Stored(n)) <==> m < n
    ensures Stored(m) == Stored(n) <==> m == n
  {
    TextOrder(StampOf(m), StampOf(n));
    CalendarOrder(StampOf(m), StampOf(n));
    TextOrder(StampOf(n), StampOf(m));
    CalendarOrder(StampOf(n), StampOf(m));
    NotLessThanItself(Stored(m));
  }

  /** How many days of a year come before each month. */
  lemma {:induction false} MonthStarts(year: int)
    ensures var leap := if IsLeap(year) then 1 else 0;
      && DaysBeforeMonth(year, 1) == 0 && DaysBeforeMonth(year, 2) == 31 && DaysBeforeMonth(year, 3) == 59 + leap
      && DaysBeforeMonth(year, 4) == 90 + leap && DaysBeforeMonth(year, 5) == 120 + leap
      && DaysBeforeMonth(year, 6) == 151 + leap && DaysBeforeMonth(year, 7) == 181 + leap
      && DaysBeforeMonth(year, 8) == 212 + leap && DaysBeforeMonth(year, 9) == 243 + leap
      && DaysBeforeMonth(year, 10) == 273 + leap && DaysBeforeMonth(year, 11) == 304 + leap
      && DaysBeforeMonth(year, 12) == 334 + leap
  {
  }

  /** A number of two digits. */
  lemma {:induction false} TwoDigits(n: nat)
    ensures Pad(n, 2) == [Digit(n / 10 % 10), Digit(n % 10)]
  {
    assert Pad(n / 10, 1) == Pad(n / 10 / 10, 0) + [Digit(n / 10 % 10)];
  }

  lemma {:induction false} FivePieces(a: string, b: string, c: string, d: string, e: string)
    ensures a + (b + (c + (d + e))) == a + b + c + d + e
  {
  }

  /** The text of a time without a fraction: digits, hyphens, T, colons and the offset. */
  lemma {:induction false} IsoSpelledOut(s: Stamp)
    requires Valid(s) && s.micro == 0
    ensures IsoTime(s) == Pad(s.hour, 2) + ":" + Pad(s.minute, 2) + ":" + (Pad(s.second, 2) + "+00:00")
    ensures Iso(s) == Pad(s.year, 4) + "-" + Pad(s.month, 2) + "-" + (Pad(s.day, 2) + ("T" + IsoTime(s)))
  {
    assert "" + "+00:00" == "+00:00";
    FivePieces(Pad(s.hour, 2), ":", Pad(s.minute, 2), ":", IsoSecond(s));
    FivePieces(Pad(s.year, 4), "-", Pad(s.month, 2), "-", Pad(s.day, 2) + ("T" + IsoTime(s)));
  }

  /** The text of a time with a fraction: a dot and six digits before the offset. */
  lemma {:induction false} FractionSpelledOut(s: Stamp)
    requires Valid(s) && s.micro > 0
    ensures IsoSecond(s) == Pad(s.second, 2) + (("." + Pad(s.micro, 6)) + "+00:00")
  {
  }

  // ----- the claim query, on the stored texts

  predicate InRange(n: int) {
    0 <= n < END_OF_TIME
  }

  ghost predicate TimesInRange(q: Queue) {
    forall id :: id in q.rows ==> InRange(q.rows[id].at)
  }

  /** The query's WHERE clause: scheduled_at <= now, as texts. */
  ghost predicate TextDue(row: Row, now: int, only: Option<Kind>)
    requires InRange(row.at) && InRange(now)
  {
    row.status == Pending && !TextLess(Stored(now), Stored(row.at)) && (only.Some? ==> row.kind == only.value)
  }

  /** The query's ORDER BY clause: scheduled_at as text, then id. */
  ghost predicate TextBefore(q: Queue, i: int, j: int)
    requires TimesInRange(q) && i in q.rows && j in q.rows
  {
    || TextLess(Stored(q.rows[i].at), Stored(q.rows[j].at))
    || (Stored(q.rows[i].at) == Stored(q.rows[j].at) && i < j)
  }

  ghost function TextAhead(q: Queue, now: int, only: Option<Kind>, id: int): set<int>
    requires TimesInRange(q) && InRange(now) && id in q.rows
  {
    set j | j in q.rows && TextDue(q.rows[j], now, only) && TextBefore(q, j, id)
  }

  /** The rows that the query returns when it compares stored texts. */
  ghost function TextClaimable(q: Queue, now: int, only: Option<Kind>, limit: nat): set<int>
    requires TimesInRange(q) && InRange(now)
  {
    set id | id in q.rows && TextDue(q.rows[id], now, only) && |TextAhead(q, now, only, id)| < limit
  }

  lemma {:induction false} TextDueIsDue(row: Row, now: int, only: Option<Kind>)
    requires InRange(row.at) && InRange(now)
    ensures TextDue(row, now, only) <==> Due(row, now, only)
  {
    StoredOrder(now, row.at);
  }

  lemma {:induction false} TextAheadIsAhead(q: Queue, now: int, only: Option<Kind>, id: int)
    requires TimesInRange(q) && InRange(now) && id in DueKeys(q, now, only)
    ensures TextAhead(q, now, only, id) == Ahead(DueKeys(q, now, only), id)
  {
    forall j | j in q.rows
      ensures TextDue(q.rows[j], now, only) <==> Due(q.rows[j], now, only)
      ensures TextBefore(q, j, id) <==> Precedes((q.rows[j].at, 0), j, (q.rows[id].at, 0), id)
    {
      assert InRange(q.rows[j].at) && InRange(q.rows[id].at);
      TextDueIsDue(q.rows[j], now, only);
      StoredOrder(q.rows[j].at, q.rows[id].at);
    }
  }

  /** Comparing texts, the claim query picks exactly the rows it would pick comparing instants. */
  lemma {:induction false} TextsClaimTheSameRows(q: Queue, now: int, only: Option<Kind>, limit: nat)
    requires TimesInRange(q) && InRange(now)
    ensures TextClaimable(q, now, only, limit) == Claimable(q, now, only, limit)
  {
    forall id | id in q.rows ensures TextDue(q.rows[id], now, only) <==> Due(q.rows[id], now, only) {
      TextDueIsDue(q.rows[id], now, only);
    }
    forall id | id in DueKeys(q, now, only)
      ensures TextAhead(q, now, only, id) == Ahead(DueKeys(q, now, only), id)
    {
      TextAheadIsAhead(q, now, only, id);
    }
  }
}
