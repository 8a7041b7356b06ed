/** Civil dates, months and instants in seconds since 1970-01-01. */
module Calendar {
  import opened Words
  import opened Arithmetic

  datatype CalendarDate = CalendarDate(year: int, month: int, day: int)

  datatype TimeOfDay = TimeOfDay(hour: int, minute: int, second: int)

  predicate Leap(y: int) {
    y % 4 == 0 && (y % 100 != 0 || y % 400 == 0)
  }

  function YearLength(y: int): int {
    if Leap(y) then 366 else 365
  }

  function DaysInMonth(y: int, m: int): int {
    if m == 2 then (if Leap(y) then 29 else 28)
    else if m == 4 || m == 6 || m == 9 || m == 11 then 30
    else 31
  }

  predicate ValidDate(d: CalendarDate) {
    1 <= d.month <= 12 && 1 <= d.day <= DaysInMonth(d.year, d.month)
  }

  // ---- Days ----

  // Days before the first of January, counted from the year 0.
  function BeforeYear(y: int): int {
    365 * y + (y + 3) / 4 - (y + 99) / 100 + (y + 399) / 400
  }

  function BeforeMonth(y: int, m: int): int
    requires 1 <= m <= 13
  {
    if m == 1 then 0 else BeforeMonth(y, m - 1) + DaysInMonth(y, m - 1)
  }

  const EPOCH := BeforeYear(1970)

  lemma YearSteps(y: int)
    ensures BeforeYear(y + 1) == BeforeYear(y) + YearLength(y)
  {
    hide Leap;
    Quarter(y, 4);
    Quarter(y, 100);
    Quarter(y, 400);
    LeapCounts(y);
  }

  lemma LeapCounts(y: int)
    ensures (if Leap(y) then 1 else 0) ==
              (if y % 4 == 0 then 1 else 0) - (if y % 100 == 0 then 1 else 0) + if y % 400 == 0 then 1 else 0
  {
    FourHundreds(y);
    Hundreds(y);
  }

  lemma FourHundreds(y: int)
    ensures y % 400 == 0 ==> y % 100 == 0
  {
    assert y == 400 * (y / 400) + y % 400;
  }

  lemma Hundreds(y: int)
    ensures y % 100 == 0 ==> y % 4 == 0
  {
    assert y == 100 * (y / 100) + y % 100;
  }

  lemma Quarter(y: int, k: int)
    requires k > 0
    ensures (y + k) / k == (y + k - 1) / k + if y % k == 0 then 1 else 0
  {
    var q, r := y / k, y % k;
    assert y == q * k + r;
    if r == 0 {
      RemainderUnique(y + k - 1, k, q, k - 1);
    } else {
      RemainderUnique(y + k - 1, k, q + 1, r - 1);
    }
    RemainderUnique(y + k, k, q + 1, r);
  }

  lemma {:induction false} YearsRise(y: int, z: int)
    requires y < z
    ensures BeforeYear(y) + YearLength(y) <= BeforeYear(z)
    decreases z - y
  {
    hide BeforeYear;
    YearSteps(y);
    if y + 1 < z {
      YearsRise(y + 1, z);
    }
  }

  lemma MonthsFillYear(y: int)
    ensures BeforeMonth(y, 13) == YearLength(y)
  {
    var extra := YearLength(y) - 365;
    assert BeforeMonth(y, 2) == 31;
    assert BeforeMonth(y, 3) == 59 + extra;
    assert BeforeMonth(y, 5) == 120 + extra;
    assert BeforeMonth(y, 7) == 181 + extra;
    assert BeforeMonth(y, 9) == 243 + extra;
    assert BeforeMonth(y, 11) == 304 + extra;
  }

  function DayNumber(d: CalendarDate): int
    requires ValidDate(d)
  {
    BeforeYear(d.year) + BeforeMonth(d.year, d.month) + d.day - 1 - EPOCH
  }

  // The year that contains a day, from an estimate that is off by one at most.
  function YearOf(n: int): int {
    var g := 400 * n / 146097;
    if n < BeforeYear(g) then g - 1 else if n < BeforeYear(g + 1) then g else g + 1
  }

  lemma YearBounds(y: int)
    ensures 146097 * y - 396 <= 400 * BeforeYear(y) <= 146097 * y + 699
  {
  }

  lemma YearOfContains(n: int)
    ensures BeforeYear(YearOf(n)) <= n < BeforeYear(YearOf(n) + 1)
  {
    hide BeforeYear;
    var g := 400 * n / 146097;
    YearBounds(g - 1);
    YearBounds(g);
    YearBounds(g + 1);
    YearBounds(g + 2);
  }

  // The last month, up to m, that starts no later than day n of the year.
  function MonthUpTo(y: int, n: int, m: int): (r: int)
    requires 1 <= m <= 12 && 0 <= n
    ensures 1 <= r <= m && BeforeMonth(y, r) <= n
    ensures r < m ==> n < BeforeMonth(y, r + 1)
  {
    if m == 1 || BeforeMonth(y, m) <= n then m else MonthUpTo(y, n, m - 1)
  }

  function DateOf(n: int): (d: CalendarDate)
    ensures ValidDate(d)
  {
    var day := n + EPOCH;
    var y := YearOf(day);
    YearOfContains(day);
    YearSteps(y);
    MonthsFillYear(y);
    var m := MonthUpTo(y, day - BeforeYear(y), 12);
    CalendarDate(y, m, day - BeforeYear(y) - BeforeMonth(y, m) + 1)
  }

  /** Every day has a date, and the date leads back to the day. */
  lemma DayOfDate(n: int)
    ensures DayNumber(DateOf(n)) == n
  {
  }

  lemma {:induction false} MonthsRise(y: int, m: int, k: int)
    requires 1 <= m < k <= 13
    ensures BeforeMonth(y, m) + DaysInMonth(y, m) <= BeforeMonth(y, k)
  {
    if m + 1 < k {
      MonthsRise(y, m, k - 1);
    }
  }

  // A day lies inside the year its date names.
  lemma DayInsideYear(d: CalendarDate)
    requires ValidDate(d)
    ensures 0 <= BeforeMonth(d.year, d.month) + d.day - 1 < YearLength(d.year)
  {
    hide BeforeMonth, DaysInMonth;
    MonthsFillYear(d.year);
    MonthsRise(d.year, d.month, 13);
    FirstMonth(d.year);
    if d.month > 1 {
      MonthsRise(d.year, 1, d.month);
      MonthHasDays(d.year, 1);
    }
  }

  lemma FirstMonth(y: int)
    ensures BeforeMonth(y, 1) == 0
  {
  }

  lemma MonthHasDays(y: int, m: int)
    ensures 28 <= DaysInMonth(y, m) <= 31
  {
  }

  lemma SameYear(y: int, z: int, n: int)
    requires BeforeYear(y) <= n < BeforeYear(y) + YearLength(y) && BeforeYear(z) <= n < BeforeYear(z) + YearLength(z)
    ensures y == z
  {
    if y < z {
      YearsRise(y, z);
    } else if z < y {
      YearsRise(z, y);
    }
  }

  lemma SameMonth(y: int, m: int, k: int, n: int)
    requires 1 <= m <= 12 && 1 <= k <= 12
    requires BeforeMonth(y, m) <= n < BeforeMonth(y, m) + DaysInMonth(y, m)
    requires BeforeMonth(y, k) <= n < BeforeMonth(y, k) + DaysInMonth(y, k)
    ensures m == k
  {
    if m < k {
      MonthsRise(y, m, k);
    } else if k < m {
      MonthsRise(y, k, m);
    }
  }

  lemma EqualDays(d: CalendarDate, e: CalendarDate)
    requires ValidDate(d) && ValidDate(e) && DayNumber(d) == DayNumber(e)
    ensures d == e
  {
    hide BeforeYear, BeforeMonth, DaysInMonth, YearLength;
    DayInsideYear(d);
    DayInsideYear(e);
    SameYear(d.year, e.year, DayNumber(d) + EPOCH);
    SameMonth(d.year, d.month, e.month, DayNumber(d) + EPOCH - BeforeYear(d.year));
  }

  /** Every valid date is recovered from its day. */
  lemma DateOfDay(d: CalendarDate)
    requires ValidDate(d)
    ensures DateOf(DayNumber(d)) == d
  {
    DayOfDate(DayNumber(d));
    EqualDays(DateOf(DayNumber(d)), d);
  }

  /** Days by the common calendar: the epoch, and the ends of February in centuries
      with and without a leap day. */
  lemma KnownDays()
    ensures DayNumber(CalendarDate(1970, 1, 1)) == 0
    ensures DayNumber(CalendarDate(2000, 3, 1)) == 11017 && ValidDate(CalendarDate(2000, 2, 29))
    ensures DayNumber(CalendarDate(1900, 3, 1)) == -25508 && !ValidDate(CalendarDate(1900, 2, 29))
    ensures DayNumber(CalendarDate(2100, 3, 1)) == 47541 && !ValidDate(CalendarDate(2100, 2, 29))
    ensures DayNumber(CalendarDate(2024, 12, 31)) == 20088 && !ValidDate(CalendarDate(2023, 2, 29))
  {
  }

  // ---- Instants ----

  predicate ValidTime(t: TimeOfDay) {
    0 <= t.hour < 24 && 0 <= t.minute < 60 && 0 <= t.second < 60
  }

  /** None is the rejected date. */
  function MakeTime(d: CalendarDate, t: TimeOfDay): Option<int> {
    if !ValidDate(d) then None else Some(DayNumber(d) * DAY + t.hour * 3600 + t.minute * 60 + t.second)
  }

  function ToDate(tp: int): (d: CalendarDate)
    ensures ValidDate(d)
  {
    DateOf(tp / DAY)
  }

  function ToTime(tp: int): (t: TimeOfDay)
    ensures ValidTime(t)
  {
    var s := tp % DAY;
    TimeOfDay(s / 3600, s % 3600 / 60, s % 60)
  }

  /** An instant is recovered from its date and time of day. */
  lemma InstantOfParts(tp: int)
    ensures MakeTime(ToDate(tp), ToTime(tp)) == Some(tp)
  {
    hide DateOf, DayNumber;
    DayOfDate(tp / DAY);
    SecondsAddUp(tp % DAY);
  }

  lemma SecondsAddUp(s: nat)
    ensures s / 3600 * 3600 + s % 3600 / 60 * 60 + s % 60 == s
  {
    var hours, rest := s / 3600, s % 3600;
    RemainderUnique(s, 60, 60 * hours + rest / 60, rest % 60);
  }

  lemma PartsOfInstant(d: CalendarDate, t: TimeOfDay)
    requires ValidDate(d) && ValidTime(t)
    ensures ToDate(MakeTime(d, t).value) == d && ToTime(MakeTime(d, t).value) == t
  {
    hide DateOf, DayNumber;
    DateOfDay(d);
    var s := t.hour * 3600 + t.minute * 60 + t.second;
    SplitDay(DayNumber(d), s);
  }

  lemma SplitDay(n: int, s: int)
    requires 0 <= s < DAY
    ensures (n * DAY + s) / DAY == n && (n * DAY + s) % DAY == s
  {
  }

  // ---- Months ----

  // Months since the start of the year 0.
  function MonthOf(tp: int): int {
    ToDate(tp).year * 12 + ToDate(tp).month - 1
  }

  function FirstOfMonth(mi: int): (d: CalendarDate)
    ensures ValidDate(d) && d.day == 1
  {
    CalendarDate(mi / 12, mi % 12 + 1, 1)
  }

  function MonthFirst(mi: int): int {
    DayNumber(FirstOfMonth(mi)) * DAY
  }

  function MonthLength(mi: int): (n: int)
    ensures 28 <= n <= 31
  {
    DaysInMonth(mi / 12, mi % 12 + 1)
  }

  lemma MonthFirstSteps(mi: int)
    ensures MonthFirst(mi + 1) == MonthFirst(mi) + MonthLength(mi) * DAY
  {
    hide BeforeYear, DaysInMonth;
    if mi % 12 == 11 {
      MonthsFillYear(mi / 12);
      YearSteps(mi / 12);
      FirstMonth(mi / 12 + 1);
    }
  }

  lemma {:induction false} MonthFirstRises(a: int, b: int)
    requires a <= b
    ensures MonthFirst(a) + (b - a) * 28 * DAY <= MonthFirst(b)
    decreases b - a
  {
    hide MonthFirst, MonthLength;
    if a < b {
      MonthFirstRises(a, b - 1);
      MonthFirstSteps(b - 1);
    }
  }

  /** An instant lies in exactly the month its date names. */
  lemma InMonth(tp: int, mi: int)
    ensures MonthOf(tp) == mi <==> MonthFirst(mi) <= tp < MonthFirst(mi + 1)
  {
    hide MonthFirst, MonthOf, MonthLength;
    InOwnMonth(tp);
    if MonthOf(tp) < mi {
      MonthFirstRises(MonthOf(tp) + 1, mi);
    } else if mi < MonthOf(tp) {
      MonthFirstRises(mi + 1, MonthOf(tp));
    }
  }

  lemma InOwnMonth(tp: int)
    ensures MonthFirst(MonthOf(tp)) <= tp < MonthFirst(MonthOf(tp) + 1)
  {
    hide BeforeYear, BeforeMonth, DaysInMonth, DateOf;
    var d, mi := ToDate(tp), MonthOf(tp);
    DayOfDate(tp / DAY);
    MonthFirstSteps(mi);
    assert mi / 12 == d.year && mi % 12 + 1 == d.month;
  }

  function MonthStart(tp: int): int {
    MakeTime(CalendarDate(ToDate(tp).year, ToDate(tp).month, 1), TimeOfDay(0, 0, 0)).value
  }

  lemma MonthStartIs(tp: int)
    ensures MonthStart(tp) == MonthFirst(MonthOf(tp))
  {
    var d, mi := ToDate(tp), MonthOf(tp);
    assert mi / 12 == d.year && mi % 12 + 1 == d.month;
  }

  /** The same time of day, the day clipped to the month's length. */
  function AddMonths(tp: int, months: int): int {
    var d := ToDate(tp);
    var mi := MonthOf(tp) + months;
    var year, month := mi / 12, mi % 12 + 1;
    MonthHasDays(year, month);
    MakeTime(CalendarDate(year, month, Min(d.day, DaysInMonth(year, month))), TimeOfDay(0, 0, 0)).value + tp % DAY
  }

  lemma AddedMonths(tp: int, months: int)
    ensures MonthOf(AddMonths(tp, months)) == MonthOf(tp) + months
    ensures AddMonths(tp, months) % DAY == tp % DAY
    ensures ToDate(AddMonths(tp, months)).day == Min(ToDate(tp).day, MonthLength(MonthOf(tp) + months))
  {
    hide DateOf, DayNumber, DaysInMonth;
    var mi := MonthOf(tp) + months;
    MonthHasDays(mi / 12, mi % 12 + 1);
    var d := CalendarDate(mi / 12, mi % 12 + 1, Min(ToDate(tp).day, DaysInMonth(mi / 12, mi % 12 + 1)));
    SplitDay(DayNumber(d), tp % DAY);
    DateOfDay(d);
  }

  /** Going back the same number of months undoes the move exactly when the day
      exists in the month moved to. */
  lemma MonthsUndone(tp: int, months: int)
    ensures AddMonths(AddMonths(tp, months), -months) == tp <==> ToDate(tp).day <= MonthLength(MonthOf(tp) + months)
  {
    hide ToDate, MonthLength, AddMonths;
    var there := AddMonths(tp, months);
    var back := AddMonths(there, -months);
    AddedMonths(tp, months);
    AddedMonths(there, -months);
    DayFits(tp);
    SameParts(tp, back);
  }

  lemma DayFits(tp: int)
    ensures ToDate(tp).day <= MonthLength(MonthOf(tp))
  {
    var d, mi := ToDate(tp), MonthOf(tp);
    assert mi / 12 == d.year && mi % 12 + 1 == d.month;
  }

  // Month, day and time of day determine an instant.
  lemma SameParts(a: int, b: int)
    requires MonthOf(a) == MonthOf(b) && a % DAY == b % DAY
    ensures a == b <==> ToDate(a).day == ToDate(b).day
  {
    hide ToDate, DayNumber, MonthOf;
    FromDate(a);
    FromDate(b);
    MonthNames(a);
    MonthNames(b);
  }

  lemma MonthNames(tp: int)
    ensures ToDate(tp).year == MonthOf(tp) / 12 && ToDate(tp).month == MonthOf(tp) % 12 + 1
  {
    hide ToDate;
  }

  lemma FromDate(tp: int)
    ensures tp == DayNumber(ToDate(tp)) * DAY + tp % DAY
  {
    hide DateOf, DayNumber;
    DayOfDate(tp / DAY);
  }

  lemma MonthFirstMoves(mi: int, months: int)
    ensures AddMonths(MonthFirst(mi), months) == MonthFirst(mi + months)
  {
    hide DateOf, DayNumber, DaysInMonth;
    DateOfDay(FirstOfMonth(mi));
    SplitDay(DayNumber(FirstOfMonth(mi)), 0);
    var other := mi + months;
    MonthHasDays(other / 12, other % 12 + 1);
  }

  // The first instants of the n months from one on.
  predicate AreStarts(anchors: seq<int>, first: int, end: int) {
    && (forall i :: 0 <= i < |anchors| ==> anchors[i] == MonthFirst(first + i) && anchors[i] < end)
    && MonthFirst(first + |anchors|) >= end
  }

  /** The first instant of each month that begins before the end, from the
      month of the start on. */
  method MonthStarts(start: int, end: int) returns (anchors: seq<int>)
    ensures AreStarts(anchors, MonthOf(start), end)
  {
    hide MonthFirst, AddMonths, MonthStart, MonthOf;
    anchors := [];
    var current := MonthStart(start);
    MonthStartIs(start);
    ghost var first := MonthOf(start);
    while current < end
      invariant current == MonthFirst(first + |anchors|)
      invariant forall i :: 0 <= i < |anchors| ==> anchors[i] == MonthFirst(first + i) && anchors[i] < end
      decreases end - current
    {
      MonthFirstMoves(first + |anchors|, 1);
      MonthFirstRises(first + |anchors|, first + |anchors| + 1);
      anchors := anchors + [current];
      current := AddMonths(current, 1);
    }
  }

  /** They are the starts of exactly the months that overlap the interval. */
  lemma StartsOverlap(anchors: seq<int>, start: int, end: int, mi: int)
    requires start < end && AreStarts(anchors, MonthOf(start), end)
    ensures MonthFirst(mi) in anchors <==> exists t :: start <= t < end && MonthOf(t) == mi
  {
    hide MonthFirst, MonthOf;
    var first, n := MonthOf(start), |anchors|;
    InMonth(start, first);
    forall i | 0 <= i < n && anchors[i] == MonthFirst(mi) ensures exists t :: start <= t < end && MonthOf(t) == mi {
      var t := Max(start, MonthFirst(mi));
      FirstsDistinct(mi, first + i);
      MonthFirstRises(mi, mi + 1);
      if i > 0 {
        MonthFirstRises(first + 1, mi);
      }
      InMonth(t, mi);
    }
    forall t | start <= t < end && MonthOf(t) == mi ensures MonthFirst(mi) in anchors {
      InMonth(t, mi);
      if mi < first {
        MonthFirstRises(mi + 1, first);
      } else if mi >= first + n {
        MonthFirstRises(first + n, mi);
      } else {
        assert anchors[mi - first] == MonthFirst(first + (mi - first));
      }
    }
  }

  lemma FirstsDistinct(a: int, b: int)
    ensures MonthFirst(a) == MonthFirst(b) ==> a == b
  {
    hide MonthFirst;
    if a < b {
      MonthFirstRises(a, b);
    } else {
      MonthFirstRises(b, a);
    }
  }

  datatype HalfOpen = HalfOpen(start: int, end: int)

  function ClipHalfOpen(windowStart: int, windowEnd: int, activeStart: int, activeEnd: Option<int>): Option<HalfOpen> {
    if windowEnd <= windowStart then None
    else if activeEnd.Some? && activeEnd.value <= activeStart then None
    else
      var s := Max(windowStart, activeStart);
      var e := if activeEnd.Some? then Min(windowEnd, activeEnd.value) else windowEnd;
      if s >= e then None else Some(HalfOpen(s, e))
  }

  /** The clipped interval holds exactly the instants of both. */
  lemma ClipIsIntersection(windowStart: int, windowEnd: int, activeStart: int, activeEnd: Option<int>, t: int)
    ensures var both := windowStart <= t < windowEnd && activeStart <= t && (activeEnd.Some? ==> t < activeEnd.value);
            match ClipHalfOpen(windowStart, windowEnd, activeStart, activeEnd)
            case None => !both
            case Some(i) => i.start < i.end && (both <==> i.start <= t < i.end)
  {
  }
}
