/** Expiry times: from seconds since 1970-01-01 to an ISO 8601 text, and why comparing the texts compares the
    times. */
module CivilDate {
  import opened Ordering

  predicate IsLeap(y: nat) {
    y % 4 == 0 && (y % 100 != 0 || y % 400 == 0)
  }

  function YearLength(y: nat): nat {
    if IsLeap(y) then 366 else 365
  }

  const LENGTHS: seq<nat> := [31, 28, 31, 30, 31, 30, 31, 31, 30, 31, 30, 31]

  function MonthLength(y: nat, m: nat): nat
    requires 1 <= m <= 12
  {
    if m == 2 && IsLeap(y) then 29 else LENGTHS[m - 1]
  }

  datatype Date = Date(year: nat, month: nat, day: nat) {
    predicate Valid() {
      year >= 1970 && 1 <= month <= 12 && 1 <= day <= MonthLength(year, month)
    }
  }

  // ---- the Gregorian day number, in closed form ------------------------------------------------------------

  /** Leap years from year 1 through `n`. */
  function Leaps(n: nat): nat {
    n / 4 - n / 100 + n / 400
  }

  /** Days from 1970-01-01 to the first of January of year `y`. */
  function YearStart(y: nat): int
    requires y >= 1970
  {
    365 * (y - 1970) + Leaps(y - 1) - Leaps(1969)
  }

  const STARTS: seq<nat> := [0, 31, 59, 90, 120, 151, 181, 212, 243, 273, 304, 334, 365]

  /** Days from the start of year `y` to the first of month `m`; month 13 is the next January. */
  function MonthStart(y: nat, m: nat): nat
    requires 1 <= m <= 13
  {
    STARTS[m - 1] + if m > 2 && IsLeap(y) then 1 else 0
  }

  function DayNumber(d: Date): int
    requires d.Valid()
  {
    YearStart(d.year) + MonthStart(d.year, d.month) + d.day - 1
  }

  lemma DivStep(y: nat)
    requires y >= 1
    ensures y / 4 - (y - 1) / 4 == if y % 4 == 0 then 1 else 0
    ensures y / 100 - (y - 1) / 100 == if y % 100 == 0 then 1 else 0
    ensures y / 400 - (y - 1) / 400 == if y % 400 == 0 then 1 else 0
  {
  }

  lemma LeapDivides(y: nat)
    ensures y % 400 == 0 ==> y % 100 == 0
    ensures y % 100 == 0 ==> y % 4 == 0
  {
    if y % 400 == 0 {
      assert y == 100 * (4 * (y / 400));
    }
    if y % 100 == 0 {
      assert y == 4 * (25 * (y / 100));
    }
  }

  lemma LeapsNext(y: nat)
    requires y >= 1
    ensures Leaps(y) - Leaps(y - 1) == if IsLeap(y) then 1 else 0
  {
    DivStep(y);
    LeapDivides(y);
  }

  lemma YearStartNext(y: nat)
    requires y >= 1970
    ensures YearStart(y + 1) == YearStart(y) + YearLength(y)
  {
    LeapsNext(y);
    hide Leaps, IsLeap;
    assert y + 1 - 1 == y;
  }

  lemma MonthStartNext(y: nat, m: nat)
    requires 1 <= m <= 12
    ensures MonthStart(y, m + 1) == MonthStart(y, m) + MonthLength(y, m)
    ensures MonthStart(y, 1) == 0 && MonthStart(y, 13) == YearLength(y)
  {
  }

  // ---- the loops -------------------------------------------------------------------------------------------

  /** The days left over, and the year or month they fall in. */
  datatype Found = Found(left: nat, at: nat)

  /** The year loop: years are taken off while the days reach past them. */
  function AfterYears(days: nat, year: nat): Found {
    if days < YearLength(year) then Found(days, year) else AfterYears(days - YearLength(year), year + 1)
  }

  /** The month loop, from month `month` on. */
  function AfterMonths(days: nat, year: nat, month: nat): Found
    requires 1 <= month <= 13
    decreases 13 - month
  {
    if month == 13 || days < MonthLength(year, month) then Found(days, month)
    else AfterMonths(days - MonthLength(year, month), year, month + 1)
  }

  function Ymd(days: nat): Date {
    var inYear := AfterYears(days, 1970);
    var inMonth := AfterMonths(inYear.left, inYear.at, 1);
    Date(inYear.at, inMonth.at, inMonth.left + 1)
  }

  method DaysToYmd(days: nat) returns (d: Date)
    ensures d == Ymd(days)
  {
    var left := days;
    var year := 1970;
    while true
      invariant AfterYears(left, year) == AfterYears(days, 1970)
      decreases left
    {
      var dy := if IsLeap(year) then 366 else 365;
      if left < dy {
        break;
      }
      left := left - dy;
      year := year + 1;
    }
    var months := [31, if IsLeap(year) then 29 else 28, 31, 30, 31, 30, 31, 31, 30, 31, 30, 31];
    assert forall m :: 1 <= m <= 12 ==> months[m - 1] == MonthLength(year, m);
    ghost var within := left;
    var month := 1;
    while month <= 12
      invariant 1 <= month <= 13
      invariant AfterMonths(left, year, month) == AfterMonths(within, year, 1)
    {
      if left < months[month - 1] {
        break;
      }
      left := left - months[month - 1];
      month := month + 1;
    }
    d := Date(year, month, left + 1);
  }

  // ---- inverse ---------------------------------------------------------------------------------------------

  lemma {:induction false} YearsLand(days: nat, year: nat)
    requires year >= 1970
    ensures var f := AfterYears(days, year);
            f.at >= year && f.left < YearLength(f.at) && YearStart(f.at) + f.left == YearStart(year) + days
    decreases days
  {
    if days < YearLength(year) {
    } else {
      YearStartNext(year);
      YearsLand(days - YearLength(year), year + 1);
    }
  }

  lemma {:induction false} MonthsLand(days: nat, year: nat, month: nat)
    requires 1 <= month <= 12 && MonthStart(year, month) + days < YearLength(year)
    ensures var f := AfterMonths(days, year, month);
            && month <= f.at <= 12 && f.left < MonthLength(year, f.at)
            && MonthStart(year, f.at) + f.left == MonthStart(year, month) + days
    decreases 13 - month
  {
    MonthStartNext(year, month);
    if days < MonthLength(year, month) {
    } else {
      assert month < 12;
      MonthsLand(days - MonthLength(year, month), year, month + 1);
    }
  }

  /** For every day count the result is a valid date whose Gregorian day number is that count. */
  lemma YmdIsTheDay(days: nat)
    ensures Ymd(days).Valid() && DayNumber(Ymd(days)) == days
  {
    YearsLand(days, 1970);
    var inYear := AfterYears(days, 1970);
    MonthStartNext(inYear.at, 1);
    assert YearStart(1970) == 0;
    hide AfterYears, YearStart, MonthStart, MonthLength, YearLength, AfterMonths;
    MonthsLand(inYear.left, inYear.at, 1);
  }

  predicate Earlier(a: Date, b: Date) {
    a.year < b.year || (a.year == b.year && (a.month < b.month || (a.month == b.month && a.day < b.day)))
  }

  lemma {:induction false} YearStartsAscend(a: nat, b: nat)
    requires 1970 <= a < b
    ensures YearStart(a) + YearLength(a) <= YearStart(b)
    decreases b - a
  {
    YearStartNext(a);
    if a + 1 == b {
    } else {
      YearStartsAscend(a + 1, b);
    }
  }

  lemma {:induction false} MonthStartsAscend(y: nat, a: nat, b: nat)
    requires 1 <= a < b <= 13
    ensures MonthStart(y, a) + MonthLength(y, a) <= MonthStart(y, b)
    decreases b - a
  {
    MonthStartNext(y, a);
    if a + 1 == b {
    } else {
      MonthStartsAscend(y, a + 1, b);
    }
  }

  lemma EarlierIsSmaller(a: Date, b: Date)
    requires a.Valid() && b.Valid() && Earlier(a, b)
    ensures DayNumber(a) < DayNumber(b)
  {
    if a.year < b.year {
      YearStartsAscend(a.year, b.year);
      MonthStartsAscend(a.year, a.month, 13);
      MonthStartNext(a.year, 1);
    } else if a.month < b.month {
      MonthStartsAscend(a.year, a.month, b.month);
    }
    hide YearStart, MonthStart;
  }

  /** The day number orders dates as the calendar does, so no two dates share one. */
  lemma DayNumberOrders(a: Date, b: Date)
    requires a.Valid() && b.Valid()
    ensures DayNumber(a) < DayNumber(b) <==> Earlier(a, b)
    ensures DayNumber(a) == DayNumber(b) <==> a == b
  {
    if Earlier(a, b) {
      EarlierIsSmaller(a, b);
    } else if Earlier(b, a) {
      EarlierIsSmaller(b, a);
    }
    hide DayNumber, MonthLength;
  }

  /** And the other way round: every date is what its day number converts to. */
  lemma YmdUndoesDayNumber(d: Date)
    requires d.Valid()
    ensures DayNumber(d) >= 0 && Ymd(DayNumber(d)) == d
  {
    DayNumberOrders(d, Date(1970, 1, 1));
    assert DayNumber(Date(1970, 1, 1)) == 0;
    YmdIsTheDay(DayNumber(d));
    DayNumberOrders(Ymd(DayNumber(d)), d);
    hide Ymd, DayNumber, MonthLength;
  }

  // ---- the text --------------------------------------------------------------------------------------------

  function Pow10(w: nat): nat {
    if w == 0 then 1 else 10 * Pow10(w - 1)
  }

  function Digit(n: nat): char
    requires n < 10
  {
    ['0', '1', '2', '3', '4', '5', '6', '7', '8', '9'][n]
  }

  /** The last `w` decimal digits. */
  function Fixed(n: nat, w: nat): (s: string)
    ensures |s| == w
  {
    if w == 0 then "" else Fixed(n / 10, w - 1) + [Digit(n % 10)]
  }

  function Decimal(n: nat): (s: string)
    ensures |s| >= 1
  {
    if n < 10 then [Digit(n)] else Decimal(n / 10) + [Digit(n % 10)]
  }

  /** Decimal, with leading zeros up to width `w`. */
  function Padded(n: nat, w: nat): string {
    if n < Pow10(w) then Fixed(n, w) else Decimal(n)
  }

  datatype Field = Field(value: nat, width: nat, mark: char)

  function Render(fields: seq<Field>): string {
    if fields == [] then "" else Padded(fields[0].value, fields[0].width) + [fields[0].mark] + Render(fields[1..])
  }

  function FieldsOf(seconds: nat): (fields: seq<Field>)
    ensures |fields| == 6
  {
    var d := Ymd(seconds / 86400);
    [Field(d.year, 4, '-'), Field(d.month, 2, '-'), Field(d.day, 2, 'T'),
     Field((seconds / 3600) % 24, 2, ':'), Field((seconds / 60) % 60, 2, ':'), Field(seconds % 60, 2, 'Z')]
  }

  function UnixToIso(seconds: nat): string {
    Render(FieldsOf(seconds))
  }

  lemma {:induction false} LessOfConcat(a: string, b: string, x: string, y: string)
    requires |a| == |b|
    ensures Less(a + x, b + y) <==> Less(a, b) || (a == b && Less(x, y))
  {
    if a == [] {
      assert a + x == x && b + y == y;
    } else {
      LessOfConcat(a[1..], b[1..], x, y);
      assert (a + x)[1..] == a[1..] + x && (b + y)[1..] == b[1..] + y;
      assert a == [a[0]] + a[1..] && b == [b[0]] + b[1..];
    }
  }

  lemma DigitOrders(m: nat, n: nat)
    requires m < 10 && n < 10
    ensures Less([Digit(m)], [Digit(n)]) <==> m < n
    ensures Digit(m) == Digit(n) <==> m == n
  {
  }

  lemma LastDigit(a: string, b: string, x: char, y: char)
    requires |a| == |b|
    ensures a + [x] == b + [y] <==> a == b && x == y
  {
    if a + [x] == b + [y] {
      assert a == (a + [x])[..|a|] && b == (b + [y])[..|b|];
      assert x == (a + [x])[|a|] && y == (b + [y])[|b|];
    }
  }

  lemma {:induction false} FixedOrders(m: nat, n: nat, w: nat)
    requires m < Pow10(w) && n < Pow10(w)
    ensures Less(Fixed(m, w), Fixed(n, w)) <==> m < n
    ensures Fixed(m, w) == Fixed(n, w) <==> m == n
  {
    if w == 0 {
    } else {
      FixedOrders(m / 10, n / 10, w - 1);
      LessOfConcat(Fixed(m / 10, w - 1), Fixed(n / 10, w - 1), [Digit(m % 10)], [Digit(n % 10)]);
      LastDigit(Fixed(m / 10, w - 1), Fixed(n / 10, w - 1), Digit(m % 10), Digit(n % 10));
      DigitOrders(m % 10, n % 10);
      hide Less, Digit;
    }
  }

  /** Field by field, most significant first. */
  predicate Before(a: seq<Field>, b: seq<Field>)
    requires |a| == |b|
  {
    a != [] && (a[0].value < b[0].value || (a[0].value == b[0].value && Before(a[1..], b[1..])))
  }

  predicate Comparable(a: seq<Field>, b: seq<Field>) {
    && |a| == |b|
    && forall k :: 0 <= k < |a| ==>
         && a[k].width == b[k].width && a[k].mark == b[k].mark
         && a[k].value < Pow10(a[k].width) && b[k].value < Pow10(b[k].width)
  }

  /** Texts of fixed-width fields compare as the fields do. */
  lemma {:induction false} RenderOrders(a: seq<Field>, b: seq<Field>)
    requires Comparable(a, b)
    ensures Less(Render(a), Render(b)) <==> Before(a, b)
  {
    if a == [] {
    } else {
      RenderOrders(a[1..], b[1..]);
      FixedOrders(a[0].value, b[0].value, a[0].width);
      var x, y := Fixed(a[0].value, a[0].width), Fixed(b[0].value, b[0].width);
      var m := [a[0].mark];
      LessOfConcat(x, y, m + Render(a[1..]), m + Render(b[1..]));
      LessOfConcat(m, m, Render(a[1..]), Render(b[1..]));
      LessTrichotomy(m, m);
      hide Less, Fixed;
      assert x + m + Render(a[1..]) == x + (m + Render(a[1..]));
      assert y + m + Render(b[1..]) == y + (m + Render(b[1..]));
    }
  }

  /** The first second of year 10000. */
  const YEAR_10000: nat := 253402300800

  lemma LastFourDigitDay()
    ensures Date(10000, 1, 1).Valid() && DayNumber(Date(10000, 1, 1)) == 2932897
    ensures YEAR_10000 == 2932897 * 86400
  {
    assert Leaps(9999) == 2424 && Leaps(1969) == 477;
  }

  lemma FourDigitYear(days: nat)
    ensures Ymd(days).year < 10000 <==> days < 2932897
  {
    LastFourDigitDay();
    YmdIsTheDay(days);
    DayNumberOrders(Ymd(days), Date(10000, 1, 1));
    hide DayNumber, MonthLength;
  }

  lemma DivideTime(s: nat)
    ensures s == s / 86400 * 86400 + (s / 3600) % 24 * 3600 + (s / 60) % 60 * 60 + s % 60
    ensures (s / 3600) % 24 < 24 && (s / 60) % 60 < 60 && s % 60 < 60
  {
    var minutes := s / 60;
    var hours := minutes / 60;
    assert s == minutes * 60 + s % 60;
    assert minutes == hours * 60 + minutes % 60;
    assert s / 3600 == hours;
    assert hours == hours / 24 * 24 + hours % 24;
    assert s / 86400 == hours / 24;
  }

  predicate Narrow(fields: seq<Field>) {
    forall k :: 0 <= k < |fields| ==> fields[k].value < Pow10(fields[k].width)
  }

  lemma MonthsAreShort(y: nat, m: nat)
    requires 1 <= m <= 12
    ensures MonthLength(y, m) <= 31
  {
  }

  lemma FieldsAreNarrow(s: nat)
    requires s < YEAR_10000
    ensures Narrow(FieldsOf(s))
  {
    var d := Ymd(s / 86400);
    FourDigitYear(s / 86400);
    LastFourDigitDay();
    YmdIsTheDay(s / 86400);
    MonthsAreShort(d.year, d.month);
    assert Pow10(2) == 100 && Pow10(4) == 10000 by { assert Pow10(3) == 1000; }
    hide Ymd, DayNumber, MonthLength, Pow10;
  }

  lemma FieldsAreComparable(s: nat, t: nat)
    requires s < YEAR_10000 && t < YEAR_10000
    ensures Comparable(FieldsOf(s), FieldsOf(t))
  {
    FieldsAreNarrow(s);
    FieldsAreNarrow(t);
    hide Ymd, Pow10;
  }

  lemma BeforeIsEarlier(s: nat, t: nat)
    ensures Before(FieldsOf(s), FieldsOf(t)) <==> s < t
  {
    YmdIsTheDay(s / 86400);
    YmdIsTheDay(t / 86400);
    DayNumberOrders(Ymd(s / 86400), Ymd(t / 86400));
    DivideTime(s);
    DivideTime(t);
    hide Ymd, DayNumber;
    BeforeUnfolds(FieldsOf(s), FieldsOf(t));
  }

  lemma BeforeUnfolds(a: seq<Field>, b: seq<Field>)
    requires |a| == |b| == 6
    ensures Before(a, b)
            <==> || a[0].value < b[0].value
                 || (a[0].value == b[0].value
                     && (|| a[1].value < b[1].value
                         || (a[1].value == b[1].value
                             && (|| a[2].value < b[2].value
                                 || (a[2].value == b[2].value
                                     && (|| a[3].value < b[3].value
                                         || (a[3].value == b[3].value
                                             && (|| a[4].value < b[4].value
                                                 || (a[4].value == b[4].value && a[5].value < b[5].value)))))))))
  {
    assert a[1..][1..] == a[2..] && b[1..][1..] == b[2..];
    assert a[2..][1..] == a[3..] && b[2..][1..] == b[3..];
    assert a[3..][1..] == a[4..] && b[3..][1..] == b[4..];
    assert a[4..][1..] == a[5..] && b[4..][1..] == b[5..];
    assert a[5..][1..] == [] && b[5..][1..] == [];
    assert Before(a[5..], b[5..]) <==> a[5].value < b[5].value;
    assert Before(a[4..], b[4..]) <==> a[4].value < b[4].value || (a[4].value == b[4].value && Before(a[5..], b[5..]));
    assert Before(a[3..], b[3..]) <==> a[3].value < b[3].value || (a[3].value == b[3].value && Before(a[4..], b[4..]));
    assert Before(a[2..], b[2..]) <==> a[2].value < b[2].value || (a[2].value == b[2].value && Before(a[3..], b[3..]));
    assert Before(a[1..], b[1..]) <==> a[1].value < b[1].value || (a[1].value == b[1].value && Before(a[2..], b[2..]));
  }

  /** Through the year 9999 the texts compare as the times do. */
  lemma IsoPreservesOrder(s: nat, t: nat)
    requires s < YEAR_10000 && t < YEAR_10000
    ensures Less(UnixToIso(s), UnixToIso(t)) <==> s < t
  {
    FieldsAreComparable(s, t);
    RenderOrders(FieldsOf(s), FieldsOf(t));
    BeforeIsEarlier(s, t);
  }

  lemma YearField(seconds: nat, d: Date)
    requires d.Valid() && DayNumber(d) == seconds / 86400
    ensures FieldsOf(seconds)[0] == Field(d.year, 4, '-')
  {
    YmdUndoesDayNumber(d);
    hide Ymd, DayNumber, MonthLength;
  }

  lemma LastDays()
    ensures Date(10000, 1, 1).Valid() && DayNumber(Date(10000, 1, 1)) == 2932897
    ensures Date(9999, 12, 31).Valid() && DayNumber(Date(9999, 12, 31)) == 2932896
  {
    LastFourDigitDay();
    assert Leaps(9998) == 2424 && Leaps(1969) == 477;
  }

  lemma FirstMark(fields: seq<Field>, c: char)
    requires fields != [] && Padded(fields[0].value, fields[0].width) != []
             && Padded(fields[0].value, fields[0].width)[0] == c
    ensures Render(fields) != [] && Render(fields)[0] == c
  {
    hide Padded;
  }

  lemma TurnOfYear10000(t: nat)
    requires t == YEAR_10000
    ensures Less(UnixToIso(t), UnixToIso(t - 1))
  {
    LastDays();
    hide Ymd, DayNumber, FieldsOf, Padded, MonthLength, Render;
    YearField(t, Date(10000, 1, 1));
    YearField(t - 1, Date(9999, 12, 31));
    YearTexts();
    FirstMark(FieldsOf(t), '1');
    FirstMark(FieldsOf(t - 1), '9');
  }

  /** And not one second longer: the first text of year 10000 comes before the last of year 9999. */
  lemma Year10000SortsFirst()
    ensures Less(UnixToIso(YEAR_10000), UnixToIso(YEAR_10000 - 1))
  {
    hide *;
    TurnOfYear10000(YEAR_10000);
  }

  lemma YearTexts()
    ensures |Padded(10000, 4)| >= 1 && Padded(10000, 4)[0] == '1'
    ensures |Padded(9999, 4)| >= 1 && Padded(9999, 4)[0] == '9'
  {
    assert Pow10(2) == 100 && Pow10(3) == 1000 && Pow10(4) == 10000;
    assert Decimal(1) == "1";
    assert Decimal(10)[0] == '1';
    assert Decimal(100)[0] == '1';
    assert Decimal(1000)[0] == '1';
    assert Decimal(10000)[0] == '1';
    assert Fixed(9, 1) == "9";
    assert Fixed(99, 2)[0] == '9';
    assert Fixed(999, 3)[0] == '9';
    assert Fixed(9999, 4)[0] == '9';
  }

  /** Exact: the texts of all times below a horizon compare as the times if and only if the horizon is no later
      than the year 10000. */
  lemma IsoOrderHoldsIff(horizon: nat)
    ensures (forall s: nat, t: nat :: s < t < horizon ==> Less(UnixToIso(s), UnixToIso(t))) <==> horizon <= YEAR_10000
  {
    if horizon <= YEAR_10000 {
      forall s: nat, t: nat | s < t < horizon
        ensures Less(UnixToIso(s), UnixToIso(t))
      {
        IsoPreservesOrder(s, t);
      }
    } else {
      Year10000SortsFirst();
      LessTrichotomy(UnixToIso(YEAR_10000), UnixToIso(YEAR_10000 - 1));
      hide UnixToIso, Less;
      var s, t := YEAR_10000 - 1, YEAR_10000;
      assert s < t < horizon && !Less(UnixToIso(s), UnixToIso(t));
    }
  }

  // ---- reading a text back -------------------------------------------------------------------------------

  function DigitValue(c: char): nat {
    if '0' <= c <= '9' then c as int - '0' as int else 0
  }

  /** The number these decimal digits write. */
  function Number(t: string): nat {
    if t == "" then 0 else 10 * Number(t[..|t| - 1]) + DigitValue(t[|t| - 1])
  }

  lemma NumberOfMore(t: string, n: nat)
    requires n < 10
    ensures Number(t + [Digit(n)]) == 10 * Number(t) + n
  {
    assert (t + [Digit(n)])[..|t|] == t;
  }

  lemma {:induction false} FixedReads(n: nat, w: nat)
    requires n < Pow10(w)
    ensures Number(Fixed(n, w)) == n
  {
    if w == 0 {
    } else {
      FixedReads(n / 10, w - 1);
      NumberOfMore(Fixed(n / 10, w - 1), n % 10);
    }
  }

  lemma {:induction false} DecimalReads(n: nat)
    ensures Number(Decimal(n)) == n
  {
    if n < 10 {
      NumberOfMore("", n);
      assert "" + [Digit(n)] == [Digit(n)];
    } else {
      DecimalReads(n / 10);
      NumberOfMore(Decimal(n / 10), n % 10);
    }
  }

  lemma PaddedReads(n: nat, w: nat)
    ensures Number(Padded(n, w)) == n && (n < Pow10(w) ==> |Padded(n, w)| == w)
  {
    if n < Pow10(w) {
      FixedReads(n, w);
    } else {
      DecimalReads(n);
    }
  }

  lemma {:induction false} DecimalIsWide(n: nat, w: nat)
    requires n >= Pow10(w)
    ensures |Decimal(n)| > w
  {
    if w == 0 {
    } else if n < 10 {
      assert Pow10(w) == 10 * Pow10(w - 1);
      PowersArePositive(w - 1);
    } else {
      DecimalIsWide(n / 10, w - 1);
    }
  }

  lemma {:induction false} PowersArePositive(w: nat)
    ensures Pow10(w) >= 1
  {
    if w == 0 {
    } else {
      PowersArePositive(w - 1);
    }
  }

  lemma TwoDigits(n: nat)
    requires n < 100
    ensures |Padded(n, 2)| == 2 && Number(Padded(n, 2)) == n
  {
    assert Pow10(2) == 100;
    PaddedReads(n, 2);
  }

  function Laid(year: string, month: string, day: string, hour: string, minute: string, second: string): string {
    year + "-" + month + "-" + day + "T" + hour + ":" + minute + ":" + second + "Z"
  }

  /** The text is a year of at least four digits, and then marks and pairs of digits. */
  lemma IsoText(seconds: nat)
    ensures var f := FieldsOf(seconds);
            UnixToIso(seconds)
            == Laid(Padded(f[0].value, 4), Padded(f[1].value, 2), Padded(f[2].value, 2), Padded(f[3].value, 2),
                    Padded(f[4].value, 2), Padded(f[5].value, 2))
  {
    var f := FieldsOf(seconds);
    hide Padded, Ymd;
    assert Render(f[6..]) == "";
    assert f[5..][1..] == f[6..] && f[4..][1..] == f[5..] && f[3..][1..] == f[4..] && f[2..][1..] == f[3..];
    assert f[1..][1..] == f[2..];
    assert Render(f[5..]) == Padded(f[5].value, 2) + "Z" + "";
    assert Render(f[4..]) == Padded(f[4].value, 2) + ":" + Render(f[5..]);
    assert Render(f[3..]) == Padded(f[3].value, 2) + ":" + Render(f[4..]);
    assert Render(f[2..]) == Padded(f[2].value, 2) + "T" + Render(f[3..]);
    assert Render(f[1..]) == Padded(f[1].value, 2) + "-" + Render(f[2..]);
    assert Render(f) == Padded(f[0].value, 4) + "-" + Render(f[1..]);
  }

  /** A year, a month, a day, an hour, a minute and a second, each followed by its mark. */
  predicate Marked(t: string) {
    && |t| >= 20
    && var k := |t| - 16;
       t[k] == '-' && t[k + 3] == '-' && t[k + 6] == 'T' && t[k + 9] == ':' && t[k + 12] == ':' && t[k + 15] == 'Z'
  }

  /** The `k`-th number of a text, found from its end. */
  function Part(t: string, k: nat): string
    requires |t| >= 20 && k < 6
  {
    var end := |t| - 16;
    if k == 0 then t[..end] else t[end + 3 * k - 2..end + 3 * k]
  }

  datatype Time = Time(hour: nat, minute: nat, second: nat)

  function DateRead(t: string): Date
    requires |t| >= 20
  {
    Date(Number(Part(t, 0)), Number(Part(t, 1)), Number(Part(t, 2)))
  }

  function TimeRead(t: string): Time
    requires |t| >= 20
  {
    Time(Number(Part(t, 3)), Number(Part(t, 4)), Number(Part(t, 5)))
  }

  lemma PartsOf(year: string, month: string, day: string, hour: string, minute: string, second: string)
    requires |year| >= 4 && |month| == |day| == |hour| == |minute| == |second| == 2
    ensures var t := Laid(year, month, day, hour, minute, second);
            && |t| == |year| + 16 && Marked(t)
            && Part(t, 0) == year && Part(t, 1) == month && Part(t, 2) == day
            && Part(t, 3) == hour && Part(t, 4) == minute && Part(t, 5) == second
  {
  }

  lemma FieldsRead(seconds: nat)
    ensures var t, f := UnixToIso(seconds), FieldsOf(seconds);
            && Marked(t) && (seconds < YEAR_10000 ==> |t| == 20)
            && DateRead(t) == Date(f[0].value, f[1].value, f[2].value)
            && TimeRead(t) == Time(f[3].value, f[4].value, f[5].value)
  {
    IsoText(seconds);
    hide *;
    var f := FieldsOf(seconds);
    FieldsArePairs(seconds);
    YearIsWide(seconds);
    PaddedReads(f[0].value, 4);
    TwoDigits(f[1].value);
    TwoDigits(f[2].value);
    TwoDigits(f[3].value);
    TwoDigits(f[4].value);
    TwoDigits(f[5].value);
    PartsOf(Padded(f[0].value, 4), Padded(f[1].value, 2), Padded(f[2].value, 2), Padded(f[3].value, 2),
            Padded(f[4].value, 2), Padded(f[5].value, 2));
    DatesAndTimes(UnixToIso(seconds));
  }

  lemma DatesAndTimes(t: string)
    requires |t| >= 20
    ensures DateRead(t) == Date(Number(Part(t, 0)), Number(Part(t, 1)), Number(Part(t, 2)))
    ensures TimeRead(t) == Time(Number(Part(t, 3)), Number(Part(t, 4)), Number(Part(t, 5)))
  {
  }

  lemma FieldsArePairs(seconds: nat)
    ensures forall k :: 1 <= k < 6 ==> FieldsOf(seconds)[k].value < 100
  {
    YmdIsTheDay(seconds / 86400);
    MonthsAreShort(Ymd(seconds / 86400).year, Ymd(seconds / 86400).month);
    hide Ymd, DayNumber, MonthLength;
  }

  /** Every text reads back: its digits are a calendar date and a time of day, in the order year, month, day, hour,
      minute, second, and together they are the second it was made from. Through the year 9999 it has 20 characters. */
  lemma IsoReadsBack(seconds: nat)
    ensures var t := UnixToIso(seconds);
            && Marked(t) && (seconds < YEAR_10000 ==> |t| == 20)
            && var date, time := DateRead(t), TimeRead(t);
               && date.Valid() && time.hour < 24 && time.minute < 60 && time.second < 60
               && DayNumber(date) * 86400 + time.hour * 3600 + time.minute * 60 + time.second == seconds
  {
    FieldsRead(seconds);
    YmdIsTheDay(seconds / 86400);
    DivideTime(seconds);
    hide DayNumber, MonthLength, Ymd, UnixToIso, Marked, DateRead, TimeRead;
  }

  lemma YearIsWide(seconds: nat)
    ensures var year := Padded(FieldsOf(seconds)[0].value, 4); |year| >= 4 && (seconds < YEAR_10000 ==> |year| == 4)
  {
    FourDigitYear(seconds / 86400);
    LastFourDigitDay();
    assert Pow10(3) == 1000 && Pow10(4) == 10000;
    var y := Ymd(seconds / 86400).year;
    if y >= 10000 {
      DecimalIsWide(y, 4);
    }
    hide Ymd, Pow10, DayNumber;
  }
}
