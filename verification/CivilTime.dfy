/** UTC instants, their fixed-width text form (RFC 3339, section 5.6) and the
    closed-bar law. Instants are milliseconds since 1970-01-01. */
module CivilTime {
  import opened Wrappers
  import opened TextOrder
  import Doubles

  const MS_PER_DAY := 86_400_000

  // ---- calendar -----------------------------------------------------------

  predicate IsLeap(year: nat) {
    year % 4 == 0 && (year % 100 != 0 || year % 400 == 0)
  }

  function DaysInMonth(year: nat, month: nat): (n: nat)
    requires 1 <= month <= 12
    ensures 28 <= n <= 31
  {
    if month == 2 then (if IsLeap(year) then 29 else 28)
    else if month == 4 || month == 6 || month == 9 || month == 11 then 30
    else 31
  }

  /** Days from the first of January to the first of `month`. */
  function DaysBeforeMonth(year: nat, month: nat): (n: nat)
    requires 1 <= month <= 13
    ensures n <= 31 * (month - 1)
  {
    if month == 1 then 0 else DaysBeforeMonth(year, month - 1) + DaysInMonth(year, month - 1)
  }

  function DaysInYear(year: nat): (n: nat)
    ensures n > 0
  {
    if IsLeap(year) then 366 else 365
  }

  /** Days from the epoch to the first of January of `year`. */
  function DaysBeforeYear(year: nat): (n: nat)
    requires year >= 1970
  {
    if year == 1970 then 0 else DaysBeforeYear(year - 1) + DaysInYear(year - 1)
  }

  datatype Moment = Moment(year: nat, month: nat, day: nat, hour: nat, minute: nat, second: nat, milli: nat)

  predicate ValidMoment(t: Moment) {
    && t.year >= 1970 && 1 <= t.month <= 12 && 1 <= t.day <= DaysInMonth(t.year, t.month)
    && t.hour < 24 && t.minute < 60 && t.second < 60 && t.milli < 1000
  }

  function DayNumber(year: nat, month: nat, day: nat): (n: nat)
    requires year >= 1970 && 1 <= month <= 12 && day >= 1
  {
    DaysBeforeYear(year) + DaysBeforeMonth(year, month) + day - 1
  }

  function MsOfDay(t: Moment): (n: nat) {
    ((t.hour * 60 + t.minute) * 60 + t.second) * 1000 + t.milli
  }

  function ToMs(t: Moment): (ms: nat)
    requires ValidMoment(t)
  {
    DayNumber(t.year, t.month, t.day) * MS_PER_DAY + MsOfDay(t)
  }

  /** The year holding day `days` counted from the first of January of `year`. */
  function FindYear(days: nat, year: nat): (r: (nat, nat))
    requires year >= 1970
    ensures r.0 >= year && r.1 < DaysInYear(r.0)
    ensures DaysBeforeYear(year) + days == DaysBeforeYear(r.0) + r.1
  {
    if days < DaysInYear(year) then (year, days) else FindYear(days - DaysInYear(year), year + 1)
  }

  function FindMonth(days: nat, year: nat, month: nat): (r: (nat, nat))
    requires 1 <= month <= 12
    requires DaysBeforeMonth(year, month) + days < DaysBeforeMonth(year, 13)
    ensures month <= r.0 <= 12 && r.1 < DaysInMonth(year, r.0)
    ensures DaysBeforeMonth(year, month) + days == DaysBeforeMonth(year, r.0) + r.1
    decreases 12 - month
  {
    if days < DaysInMonth(year, month) then (month, days)
    else FindMonth(days - DaysInMonth(year, month), year, month + 1)
  }

  lemma YearLength(year: nat)
    ensures DaysBeforeMonth(year, 13) == DaysInYear(year)
  {
    var leap := if IsLeap(year) then 1 else 0;
    assert DaysBeforeMonth(year, 2) == 31;
    assert DaysBeforeMonth(year, 3) == 59 + leap;
    assert DaysBeforeMonth(year, 5) == 120 + leap;
    assert DaysBeforeMonth(year, 7) == 181 + leap;
    assert DaysBeforeMonth(year, 9) == 243 + leap;
    assert DaysBeforeMonth(year, 11) == 304 + leap;
  }

  /** The calendar in closed form: 365 days a year and one more for each leap year gone by. */
  lemma {:induction false} YearsCounted(year: nat)
    requires year >= 1970
    ensures DaysBeforeYear(year) == 365 * (year - 1970) + ((year - 1) / 4 - (year - 1) / 100 + (year - 1) / 400) - 477
  {
    hide IsLeap;
    if year > 1970 {
      YearsCounted(year - 1);
      LeapsCounted(year - 1);
    }
  }

  lemma LeapsCounted(year: nat)
    requires year > 0
    ensures year / 4 - year / 100 + year / 400
         == (year - 1) / 4 - (year - 1) / 100 + (year - 1) / 400 + if IsLeap(year) then 1 else 0
  {
    Multiples(year, 4);
    Multiples(year, 100);
    Multiples(year, 400);
    Nested(year, 100, 4);
    Nested(year, 4, 25);
  }

  lemma Nested(n: nat, k: nat, m: nat)
    requires k > 0 && m > 0
    ensures k * m > 0 && (n % (k * m) == 0 ==> n % k == 0)
  {
    Product(k, m);
    if n % (k * m) == 0 {
      var q := n / (k * m);
      assert n == q * m * k;
      Divides(n, k, q * m, 0);
    }
  }

  lemma Product(k: nat, m: nat)
    requires k > 0 && m > 0
    ensures k * m > 0
  {}

  lemma Multiples(n: nat, k: nat)
    requires n > 0 && k > 0
    ensures n / k == (n - 1) / k + if n % k == 0 then 1 else 0
  {
    var q, r := n / k, n % k;
    if r == 0 { Divides(n - 1, k, q - 1, k - 1); } else { Divides(n - 1, k, q, r - 1); }
  }

  lemma Divides(n: nat, k: nat, q: int, r: int)
    requires k > 0 && n == q * k + r && 0 <= r < k
    ensures n / k == q
  {
    var d := n / k - q;
    assert d * k == r - n % k;
    if d >= 1 { Grows(1, d, k); }
    if d <= -1 { Grows(d, -1, k); }
  }

  lemma Grows(a: int, b: int, k: nat)
    requires a <= b
    ensures a * k <= b * k
  {}

  lemma MonthsCounted(year: nat, month: nat)
    requires 1 <= month <= 12
    ensures DaysInMonth(year, month) == 31 <==> month in {1, 3, 5, 7, 8, 10, 12}
    ensures DaysInMonth(year, month) == 30 <==> month in {4, 6, 9, 11}
    ensures DaysInMonth(year, month) == 29 <==> month == 2 && (year % 400 == 0 || (year % 4 == 0 && year % 100 != 0))
    ensures DaysInMonth(year, month) in {28, 29, 30, 31}
  {}

  /** One instant known from elsewhere. */
  lemma OneInstant()
    ensures ToMs(Moment(2000, 2, 29, 12, 30, 15, 250)) == 951827415250
  {
    YearsCounted(2000);
    assert DaysBeforeMonth(2000, 2) == 31;
    hide DaysBeforeYear, DaysBeforeMonth;
    assert DayNumber(2000, 2, 29) == 11016;
  }

  /** What the platform's UTC clock conversion yields for an instant. */
  function FromMs(ms: nat): (t: Moment)
    ensures ValidMoment(t)
  {
    var (year, dayOfYear) := FindYear(ms / MS_PER_DAY, 1970);
    YearLength(year);
    var (month, day) := FindMonth(dayOfYear, year, 1);
    var rest := ms % MS_PER_DAY;
    Moment(year, month, day + 1, rest / 3_600_000, rest / 60_000 % 60, rest / 1000 % 60, rest % 1000)
  }

  lemma SplitClock(rest: nat)
    requires rest < MS_PER_DAY
    ensures ((rest / 3_600_000 * 60 + rest / 60_000 % 60) * 60 + rest / 1000 % 60) * 1000 + rest % 1000 == rest
  {
    var s := rest / 1000;
    assert rest == s * 1000 + rest % 1000;
    var m := s / 60;
    assert s == m * 60 + s % 60 && rest / 60_000 == m;
    assert m == m / 60 * 60 + m % 60 && rest / 3_600_000 == m / 60;
  }

  lemma ToMsOfFromMs(ms: nat)
    ensures ToMs(FromMs(ms)) == ms
  {
    SplitClock(ms % MS_PER_DAY);
  }

  // ---- order of moments ---------------------------------------------------

  lemma {:induction false} YearsGrow(y: nat, z: nat)
    requires 1970 <= y < z
    ensures DaysBeforeYear(y) + DaysInYear(y) <= DaysBeforeYear(z)
  {
    if y + 1 < z { YearsGrow(y, z - 1); }
  }

  lemma {:induction false} MonthsGrow(year: nat, m: nat, n: nat)
    requires 1 <= m < n <= 13
    ensures DaysBeforeMonth(year, m) + DaysInMonth(year, m) <= DaysBeforeMonth(year, n)
  {
    if m + 1 < n { MonthsGrow(year, m, n - 1); }
  }

  predicate DateLess(a: Moment, b: Moment) {
    a.year < b.year || (a.year == b.year && (a.month < b.month || (a.month == b.month && a.day < b.day)))
  }

  lemma DayNumbersGrow(a: Moment, b: Moment)
    requires ValidMoment(a) && ValidMoment(b) && DateLess(a, b)
    ensures DayNumber(a.year, a.month, a.day) < DayNumber(b.year, b.month, b.day)
  {
    if a.year < b.year {
      YearsGrow(a.year, b.year);
      MonthsGrow(a.year, a.month, 13);
      YearLength(a.year);
    } else if a.month < b.month {
      MonthsGrow(a.year, a.month, b.month);
    }
  }

  function Fields(t: Moment): (f: seq<nat>)
    ensures |f| == 7
  {
    [t.year, t.month, t.day, t.hour, t.minute, t.second, t.milli]
  }

  predicate TupleLess(f: seq<nat>, g: seq<nat>)
    requires |f| == |g|
  {
    f != [] && (f[0] < g[0] || (f[0] == g[0] && TupleLess(f[1..], g[1..])))
  }

  /** One step of the tuple order. */
  lemma TupleStep(x: nat, f: seq<nat>, y: nat, g: seq<nat>)
    requires |f| == |g|
    ensures TupleLess([x] + f, [y] + g) <==> x < y || (x == y && TupleLess(f, g))
  {
    assert ([x] + f)[1..] == f && ([y] + g)[1..] == g;
  }

  lemma ClockTupleOrder(a: Moment, b: Moment)
    ensures TupleLess([a.hour, a.minute, a.second, a.milli], [b.hour, b.minute, b.second, b.milli]) <==> ClockLess(a, b)
  {
    hide TupleLess;
    TupleStep(a.milli, [], b.milli, []);
    assert [a.milli] + [] == [a.milli] && [b.milli] + [] == [b.milli];
    assert !TupleLess([], []) by { NothingBeforeEmpty(); }
    TupleStep(a.second, [a.milli], b.second, [b.milli]);
    assert [a.second] + [a.milli] == [a.second, a.milli] && [b.second] + [b.milli] == [b.second, b.milli];
    TupleStep(a.minute, [a.second, a.milli], b.minute, [b.second, b.milli]);
    assert [a.minute] + [a.second, a.milli] == [a.minute, a.second, a.milli];
    assert [b.minute] + [b.second, b.milli] == [b.minute, b.second, b.milli];
    TupleStep(a.hour, [a.minute, a.second, a.milli], b.hour, [b.minute, b.second, b.milli]);
    assert [a.hour] + [a.minute, a.second, a.milli] == [a.hour, a.minute, a.second, a.milli];
    assert [b.hour] + [b.minute, b.second, b.milli] == [b.hour, b.minute, b.second, b.milli];
  }

  lemma NothingBeforeEmpty()
    ensures !TupleLess([], [])
  {
  }

  lemma TupleLessIsFieldOrder(a: Moment, b: Moment)
    ensures TupleLess(Fields(a), Fields(b)) <==>
            DateLess(a, b) || (a.year == b.year && a.month == b.month && a.day == b.day && ClockLess(a, b))
  {
    hide TupleLess, ClockLess;
    ClockTupleOrder(a, b);
    var fc, gc := [a.hour, a.minute, a.second, a.milli], [b.hour, b.minute, b.second, b.milli];
    TupleStep(a.day, fc, b.day, gc);
    var fd, gd := [a.day] + fc, [b.day] + gc;
    TupleStep(a.month, fd, b.month, gd);
    var fm, gm := [a.month] + fd, [b.month] + gd;
    TupleStep(a.year, fm, b.year, gm);
    assert Fields(a) == [a.year] + fm;
    assert Fields(b) == [b.year] + gm;
  }

  predicate ClockLess(a: Moment, b: Moment) {
    a.hour < b.hour || (a.hour == b.hour && (a.minute < b.minute || (a.minute == b.minute
      && (a.second < b.second || (a.second == b.second && a.milli < b.milli)))))
  }

  /** Instants and calendar tuples are ordered alike. */
  lemma MomentsKeepOrder(a: Moment, b: Moment)
    requires ValidMoment(a) && ValidMoment(b)
    ensures ToMs(a) < ToMs(b) <==> TupleLess(Fields(a), Fields(b))
    ensures ToMs(a) == ToMs(b) ==> a == b
  {
    TupleLessIsFieldOrder(a, b);
    ClockBounds(a, b);
    if DateLess(a, b) { DayNumbersGrow(a, b); }
    if DateLess(b, a) { DayNumbersGrow(b, a); }
  }

  lemma ClockBounds(a: Moment, b: Moment)
    requires ValidMoment(a) && ValidMoment(b)
    ensures MsOfDay(a) < MS_PER_DAY && MsOfDay(b) < MS_PER_DAY
    ensures MsOfDay(a) < MsOfDay(b) <==> ClockLess(a, b)
  {
  }

  lemma FromMsOfToMs(t: Moment)
    requires ValidMoment(t)
    ensures FromMs(ToMs(t)) == t
  {
    ToMsOfFromMs(ToMs(t));
    MomentsKeepOrder(FromMs(ToMs(t)), t);
  }

  // ---- the text form ------------------------------------------------------

  const WIDTHS: seq<nat> := [4, 2, 2, 2, 2, 2, 3]
  const MARKS: string := "--T::.Z"

  predicate Fits(fields: seq<nat>, widths: seq<nat>, marks: string) {
    |fields| == |widths| == |marks| && forall i :: 0 <= i < |fields| ==> fields[i] < Pow10(widths[i])
  }

  function Render(fields: seq<nat>, widths: seq<nat>, marks: string): (s: string)
    requires Fits(fields, widths, marks)
  {
    if fields == [] then ""
    else Digits(fields[0], widths[0]) + ([marks[0]] + Render(fields[1..], widths[1..], marks[1..]))
  }

  /** One numeral of width `w` and its mark, and what follows them. */
  function ScanField(s: string, w: nat, mark: char): (r: Option<(nat, string)>) {
    if |s| <= w || !AllDigits(s[..w]) || s[w] != mark then None else Some((DigitsValue(s[..w]), s[w + 1..]))
  }

  /** Fixed-width scan: each numeral, then its mark, and nothing left over. */
  function Scan(s: string, widths: seq<nat>, marks: string): (r: Option<seq<nat>>)
    requires |widths| == |marks|
    ensures r.Some? ==> |r.value| == |widths|
    decreases |widths|
  {
    if widths == [] then (if s == "" then Some([]) else None)
    else match ScanField(s, widths[0], marks[0])
      case None => None
      case Some((field, after)) =>
        match Scan(after, widths[1..], marks[1..])
        case None => None
        case Some(rest) => Some([field] + rest)
  }

  lemma ScanFieldOfDigits(field: nat, w: nat, mark: char, rest: string)
    requires field < Pow10(w)
    ensures ScanField(Digits(field, w) + ([mark] + rest), w, mark) == Some((field, rest))
  {
    var s := Digits(field, w) + ([mark] + rest);
    DigitsRoundTrip(field, w);
    assert s[..w] == Digits(field, w) && s[w] == mark && s[w + 1..] == rest;
  }

  lemma {:induction false} ScanOfRender(fields: seq<nat>, widths: seq<nat>, marks: string)
    requires Fits(fields, widths, marks)
    ensures Scan(Render(fields, widths, marks), widths, marks) == Some(fields)
  {
    hide Digits, Pow10, ScanField;
    if fields != [] {
      ScanOfRender(fields[1..], widths[1..], marks[1..]);
      ScanFieldOfDigits(fields[0], widths[0], marks[0], Render(fields[1..], widths[1..], marks[1..]));
      assert fields == [fields[0]] + fields[1..];
    }
  }

  lemma {:induction false} RenderKeepsOrder(f: seq<nat>, g: seq<nat>, widths: seq<nat>, marks: string)
    requires Fits(f, widths, marks) && Fits(g, widths, marks)
    ensures Less(Render(f, widths, marks), Render(g, widths, marks)) <==> TupleLess(f, g)
  {
    if f != [] {
      var w := widths[0];
      var rf, rg := Render(f[1..], widths[1..], marks[1..]), Render(g[1..], widths[1..], marks[1..]);
      RenderKeepsOrder(f[1..], g[1..], widths[1..], marks[1..]);
      DigitsKeepOrder(f[0], g[0], w);
      DigitsRoundTrip(f[0], w);
      DigitsRoundTrip(g[0], w);
      LessByPrefix(Digits(f[0], w), [marks[0]] + rf, Digits(g[0], w), [marks[0]] + rg);
      LessByPrefix([marks[0]], rf, [marks[0]], rg);
      assert !Less([marks[0]], [marks[0]]);
    }
  }

  /** Four year digits reach to the end of the year 9999. */
  predicate Printable(ms: nat) { FromMs(ms).year <= 9999 }

  lemma FieldsFit(t: Moment)
    requires ValidMoment(t) && t.year <= 9999
    ensures Fits(Fields(t), WIDTHS, MARKS)
  {
    assert Pow10(2) == 100 && Pow10(3) == 1000 && Pow10(4) == 10000;
  }

  function MsToIso(ms: nat): (s: string)
    requires Printable(ms)
  {
    FieldsFit(FromMs(ms));
    Render(Fields(FromMs(ms)), WIDTHS, MARKS)
  }

  /** The text of an instant: its seven numerals and the marks between. */
  lemma IsoText(ms: nat)
    requires Printable(ms)
    ensures var t := FromMs(ms);
            && t.year < Pow10(4) && t.month < Pow10(2) && t.day < Pow10(2) && t.hour < Pow10(2) && t.minute < Pow10(2) && t.second < Pow10(2)
            && t.milli < Pow10(3)
            && MsToIso(ms) == Digits(t.year, 4) + ("-" + (Digits(t.month, 2) + ("-" + (Digits(t.day, 2) + ("T" + (Digits(t.hour, 2)
                              + (":" + (Digits(t.minute, 2) + (":" + (Digits(t.second, 2) + ("." + (Digits(t.milli, 3) + "Z"))))))))))))
  {
    hide FromMs, Digits, DaysInMonth, Render;
    var t := FromMs(ms);
    FieldsFit(t);
    var f := Fields(t);
    PartsFit(f);
    hide Pow10;
    Parted(f, WIDTHS, MARKS);
    Parted(f[1..], WIDTHS[1..], MARKS[1..]);
    PartOf(f, 1);
    Parted(f[2..], WIDTHS[2..], MARKS[2..]);
    PartOf(f, 2);
    Parted(f[3..], WIDTHS[3..], MARKS[3..]);
    PartOf(f, 3);
    Parted(f[4..], WIDTHS[4..], MARKS[4..]);
    PartOf(f, 4);
    Parted(f[5..], WIDTHS[5..], MARKS[5..]);
    PartOf(f, 5);
    Parted(f[6..], WIDTHS[6..], MARKS[6..]);
    PartOf(f, 6);
  }

  lemma PartOf(f: seq<nat>, i: nat)
    requires |f| == 7 && i < 7
    ensures f[i..][0] == f[i] && WIDTHS[i..][0] == WIDTHS[i] && MARKS[i..][0] == MARKS[i]
    ensures f[i..][1..] == f[i + 1..] && WIDTHS[i..][1..] == WIDTHS[i + 1..] && MARKS[i..][1..] == MARKS[i + 1..]
  {}

  lemma PartsFit(f: seq<nat>)
    requires Fits(f, WIDTHS, MARKS)
    ensures forall i :: 0 <= i <= 7 ==> Fits(f[i..], WIDTHS[i..], MARKS[i..])
  {}

  lemma Parted(fields: seq<nat>, widths: seq<nat>, marks: string)
    requires Fits(fields, widths, marks) && fields != []
    ensures Fits(fields[1..], widths[1..], marks[1..])
    ensures Render(fields, widths, marks) == Digits(fields[0], widths[0]) + ([marks[0]] + Render(fields[1..], widths[1..], marks[1..]))
    ensures |fields| == 1 ==> Render(fields, widths, marks) == Digits(fields[0], widths[0]) + [marks[0]]
  {
    hide Digits, Pow10;
    if |fields| == 1 { assert Render(fields[1..], widths[1..], marks[1..]) == ""; }
  }

  function MomentOfFields(f: seq<nat>): (t: Moment)
    requires |f| == 7
  {
    Moment(f[0], f[1], f[2], f[3], f[4], f[5], f[6])
  }

  /** `_iso_to_ms`: the whole text against one format. */
  function IsoToMs(s: string): (r: Option<nat>) {
    match Scan(s, WIDTHS, MARKS)
    case None => None
    case Some(f) => var t := MomentOfFields(f); if ValidMoment(t) then Some(ToMs(t)) else None
  }

  /** `_parse_iso_ms`: the first nineteen characters against the date format, the
      milliseconds cut out by position. The scan of the nineteen characters ends
      at a '.', which stands for the end of the cut text. */
  function ParseIsoMs(s: string): (r: Option<nat>) {
    if |s| < 24 || s[|s| - 1] != 'Z' then None
    else match Scan(s[..19] + ".", WIDTHS[..6], MARKS[..6])
      case None => None
      case Some(f) =>
        var t := MomentOfFields(f + [0]);
        if !ValidMoment(t) then None
        else if s[19] != '.' then Some(ToMs(t))
        else if !AllDigits(s[20..23]) then None
        else Some(ToMs(t) + DigitsValue(s[20..23]))
  }

  lemma IsoRoundTrip(ms: nat)
    requires Printable(ms)
    ensures |MsToIso(ms)| == 24
    ensures IsoToMs(MsToIso(ms)) == Some(ms)
    ensures ParseIsoMs(MsToIso(ms)) == Some(ms)
  {
    hide FromMs, Scan, Render, Pow10, Digits, DigitsValue;
    var t := FromMs(ms);
    FieldsFit(t);
    ToMsOfFromMs(ms);
    ScanOfRender(Fields(t), WIDTHS, MARKS);
    IsoLayout(t);
    assert t.milli < Pow10(3) by { assert Fields(t)[6] < Pow10(WIDTHS[6]); }
    DigitsRoundTrip(t.milli, 3);
    HeadScan(t);
    var s := MsToIso(ms);
    assert MomentOfFields(Fields(t)) == t;
    var whole := t.(milli := 0);
    assert MomentOfFields(Fields(t)[..6] + [0]) == whole && ValidMoment(whole);
    assert ToMs(whole) + t.milli == ToMs(t);
    assert AllDigits(s[20..23]) && DigitsValue(s[20..23]) == t.milli;
  }

  lemma HeadScan(t: Moment)
    requires ValidMoment(t) && Fits(Fields(t), WIDTHS, MARKS)
    ensures Fits(Fields(t)[..6], WIDTHS[..6], MARKS[..6])
    ensures Scan(Render(Fields(t)[..6], WIDTHS[..6], MARKS[..6]), WIDTHS[..6], MARKS[..6]) == Some(Fields(t)[..6])
  {
    ScanOfRender(Fields(t)[..6], WIDTHS[..6], MARKS[..6]);
  }

  /** `_iso_to_ms` as it computes: the seconds and their product with a thousand are doubles,
      and the product is cut off at the point. */
  ghost predicate ReadsOnDoubles(s: string, r: int) {
    exists seconds, product ::
      IsoToMs(s).Some? && Doubles.ThereAndBack(IsoToMs(s).value, seconds, product) && r == product.Floor
  }

  /** The whole-format parser, floats and all, gives the printed instant back on whole
      seconds and on every millisecond between November 2004 and January 2038. */
  lemma RoundTripOnDoubles(ms: nat, r: int)
    requires Printable(ms) && ReadsOnDoubles(MsToIso(ms), r)
    ensures (ms % 1000 == 0 && ms <= Doubles.TWO53) || 1099511627776 < ms <= 2147483648000 ==> r == ms
  {
    hide MsToIso, IsoToMs, Printable, Doubles.ThereAndBack;
    IsoRoundTrip(ms);
    var seconds, product :| Doubles.ThereAndBack(ms, seconds, product) && r == product.Floor;
    if ms % 1000 == 0 && ms <= Doubles.TWO53 {
      Doubles.WholeSecondsComeBack(ms, seconds, product);
    } else if 1099511627776 < ms <= 2147483648000 {
      Doubles.RecentInstantsComeBack(ms, seconds, product);
    }
  }

  lemma SecondOfTheEpoch()
    ensures Printable(1001)
  {
    var t := Moment(1970, 1, 1, 0, 0, 1, 1);
    assert ToMs(t) == 1001;
    FromMsOfToMs(t);
  }

  /** Elsewhere it need not: the millisecond after the first second of 1970 is read as that
      second. */
  lemma OneMillisecondShort(r: int)
    ensures Printable(1001)
    ensures ReadsOnDoubles(MsToIso(1001), r) <==> r == 1000
  {
    SecondOfTheEpoch();
    hide MsToIso, IsoToMs, Printable, Doubles.ThereAndBack;
    IsoRoundTrip(1001);
    Doubles.ShortInstantExists();
    if ReadsOnDoubles(MsToIso(1001), r) {
      var seconds, product :| Doubles.ThereAndBack(1001, seconds, product) && r == product.Floor;
      Doubles.OneShort(seconds, product);
    }
    Doubles.OneShort(Doubles.SECONDS_1001, Doubles.PRODUCT_1001);
  }

  /** The printed form cut at the positions `_parse_iso_ms` cuts it at. */
  lemma IsoLayout(t: Moment)
    requires ValidMoment(t) && t.year <= 9999
    requires Fits(Fields(t), WIDTHS, MARKS)
    ensures var s := Render(Fields(t), WIDTHS, MARKS);
            && |s| == 24 && s[19] == '.' && s[23] == 'Z' && s[20..23] == Digits(t.milli, 3)
            && s[..19] + "." == Render(Fields(t)[..6], WIDTHS[..6], MARKS[..6])
  {
    hide Digits, Pow10, ValidMoment;
    var f := Fields(t);
    RenderSplits(f, WIDTHS, MARKS, 6);
    var tail := Render(f[6..], WIDTHS[6..], MARKS[6..]);
    assert f[6..] == [t.milli] && WIDTHS[6..] == [3] && MARKS[6..] == "Z";
    assert tail == Digits(t.milli, 3) + ("Z" + Render(f[6..][1..], WIDTHS[6..][1..], MARKS[6..][1..]));
    assert tail == Digits(t.milli, 3) + "Z";
    RenderLength(f[..6], WIDTHS[..6], MARKS[..6]);
    assert WIDTHS[..6] == [4, 2, 2, 2, 2, 2];
    assert Total(WIDTHS[..6]) == 20 by {
      assert [4, 2, 2, 2, 2, 2][1..] == [2, 2, 2, 2, 2] && [2, 2, 2, 2, 2][1..] == [2, 2, 2, 2];
      assert [2, 2, 2, 2][1..] == [2, 2, 2] && [2, 2, 2][1..] == [2, 2] && [2, 2][1..] == [2];
    }
  }

  function Total(widths: seq<nat>): nat {
    if widths == [] then 0 else widths[0] + 1 + Total(widths[1..])
  }

  lemma {:induction false} RenderLength(f: seq<nat>, widths: seq<nat>, marks: string)
    requires Fits(f, widths, marks)
    ensures |Render(f, widths, marks)| == Total(widths)
    ensures f != [] ==> |Render(f, widths, marks)| > 0 && Render(f, widths, marks)[Total(widths) - 1] == marks[|marks| - 1]
  {
    if f != [] { RenderLength(f[1..], widths[1..], marks[1..]); }
  }

  lemma {:induction false} RenderSplits(f: seq<nat>, widths: seq<nat>, marks: string, k: nat)
    requires Fits(f, widths, marks) && k <= |f|
    ensures Render(f, widths, marks) == Render(f[..k], widths[..k], marks[..k]) + Render(f[k..], widths[k..], marks[k..])
  {
    hide Digits, Pow10;
    if k > 0 {
      RenderSplits(f[1..], widths[1..], marks[1..], k - 1);
      assert f[..k][1..] == f[1..][..k - 1] && widths[..k][1..] == widths[1..][..k - 1] && marks[..k][1..] == marks[1..][..k - 1];
      assert f[1..][k - 1..] == f[k..] && widths[1..][k - 1..] == widths[k..] && marks[1..][k - 1..] == marks[k..];
    }
  }

  /** The printer is an order embedding: text order is time order. */
  lemma IsoKeepsOrder(x: nat, y: nat)
    requires Printable(x) && Printable(y)
    ensures x < y <==> Less(MsToIso(x), MsToIso(y))
    ensures x == y <==> MsToIso(x) == MsToIso(y)
  {
    var a, b := FromMs(x), FromMs(y);
    FieldsFit(a);
    FieldsFit(b);
    ToMsOfFromMs(x);
    ToMsOfFromMs(y);
    MomentsKeepOrder(a, b);
    RenderKeepsOrder(Fields(a), Fields(b), WIDTHS, MARKS);
    IsoRoundTrip(x);
    IsoRoundTrip(y);
  }

  /** SQL MAX over a text column. */
  function TextMax(column: seq<string>): (m: string)
    requires column != []
  {
    if |column| == 1 then column[0]
    else var rest := TextMax(column[1..]); if Less(rest, column[0]) then column[0] else rest
  }

  function MaxOf(times: seq<nat>): (m: nat)
    requires times != []
    ensures m in times && forall i :: 0 <= i < |times| ==> times[i] <= m
  {
    if |times| == 1 then times[0]
    else var rest := MaxOf(times[1..]); if rest < times[0] then times[0] else rest
  }

  function Printed(times: seq<nat>): (column: seq<string>)
    requires forall i :: 0 <= i < |times| ==> Printable(times[i])
    ensures |column| == |times|
  {
    if times == [] then [] else [MsToIso(times[0])] + Printed(times[1..])
  }

  lemma {:induction false} TextMaxIsTimeMax(times: seq<nat>)
    requires times != [] && forall i :: 0 <= i < |times| ==> Printable(times[i])
    ensures IsoToMs(TextMax(Printed(times))) == Some(MaxOf(times))
    ensures TextMax(Printed(times)) == MsToIso(MaxOf(times))
  {
    IsoRoundTrip(MaxOf(times));
    if |times| > 1 {
      TextMaxIsTimeMax(times[1..]);
      IsoKeepsOrder(MaxOf(times[1..]), times[0]);
      assert Printed(times)[1..] == Printed(times[1..]);
    }
  }

  // ---- the closed-bar law -------------------------------------------------

  datatype TimeError = UnknownTimeframe(name: string)

  /** How long a bar of one timeframe lasts: a fixed time, or one calendar month. */
  datatype Span = Fixed(millis: nat) | CalendarMonth

  predicate ProperSpan(span: Span) { span.Fixed? ==> span.millis > 0 }

  /** The fourteen timeframes; one month is deliberately not a fixed length. */
  function SpanOf(timeframe: string): (r: Option<Span>)
    ensures r.Some? ==> ProperSpan(r.value)
  {
    match timeframe
    case "1m" => Some(Fixed(60_000))
    case "3m" => Some(Fixed(180_000))
    case "5m" => Some(Fixed(300_000))
    case "15m" => Some(Fixed(900_000))
    case "30m" => Some(Fixed(1_800_000))
    case "1h" => Some(Fixed(3_600_000))
    case "2h" => Some(Fixed(7_200_000))
    case "4h" => Some(Fixed(14_400_000))
    case "6h" => Some(Fixed(21_600_000))
    case "8h" => Some(Fixed(28_800_000))
    case "12h" => Some(Fixed(43_200_000))
    case "1d" => Some(Fixed(86_400_000))
    case "1w" => Some(Fixed(604_800_000))
    case "1mo" => Some(CalendarMonth)
    case _ => None
  }

  function UnitMs(c: char): (ms: nat) {
    if c == 'm' then 60_000 else if c == 'h' then 3_600_000 else if c == 'd' then 86_400_000 else if c == 'w' then 604_800_000 else 0
  }

  /** A known timeframe lasts as long as its name says: so many minutes, hours, days or
      weeks, or one calendar month. */
  lemma SpanMeans(timeframe: string)
    ensures SpanOf(timeframe).Some? <==>
              timeframe in {"1m", "3m", "5m", "15m", "30m", "1h", "2h", "4h", "6h", "8h", "12h", "1d", "1w", "1mo"}
    ensures SpanOf(timeframe) == Some(CalendarMonth) <==> timeframe == "1mo"
    ensures SpanOf(timeframe).Some? && timeframe != "1mo" ==>
              var n := |timeframe| - 1;
              n > 0 && AllDigits(timeframe[..n]) && SpanOf(timeframe) == Some(Fixed(DigitsValue(timeframe[..n]) * UnitMs(timeframe[n])))
  {
    if SpanOf(timeframe).Some? && timeframe != "1mo" {
      var front := timeframe[..|timeframe| - 1];
      if |front| == 1 { OneDigit(front); } else { TwoDigits(front); }
    }
  }

  lemma OneDigit(s: string)
    requires |s| == 1 && AllDigits(s)
    ensures DigitsValue(s) == s[0] as int - '0' as int
  {
    assert s[..0] == "";
  }

  lemma TwoDigits(s: string)
    requires |s| == 2 && AllDigits(s)
    ensures DigitsValue(s) == 10 * (s[0] as int - '0' as int) + (s[1] as int - '0' as int)
  {
    OneDigit(s[..1]);
  }

  function MonthFloor(t: Moment): (first: Moment)
    requires ValidMoment(t)
    ensures ValidMoment(first)
  {
    Moment(t.year, t.month, 1, 0, 0, 0, 0)
  }

  function NextMonth(t: Moment): (first: Moment)
    requires ValidMoment(t)
    ensures ValidMoment(first)
  {
    if t.month == 12 then Moment(t.year + 1, 1, 1, 0, 0, 0, 0) else Moment(t.year, t.month + 1, 1, 0, 0, 0, 0)
  }

  function CloseOf(open: nat, span: Span): (close: nat) {
    match span
    case Fixed(millis) => open + millis
    case CalendarMonth => ToMs(NextMonth(FromMs(open)))
  }

  function CloseTimeMs(open: nat, timeframe: string): (r: Result<nat, TimeError>) {
    match SpanOf(timeframe)
    case Some(span) => Ok(CloseOf(open, span))
    case None => Err(UnknownTimeframe(timeframe))
  }

  /** The month holding `t` ends exactly where the next one begins. */
  lemma MonthBrackets(t: Moment)
    requires ValidMoment(t)
    ensures ToMs(MonthFloor(t)) <= ToMs(t) < ToMs(NextMonth(t))
    ensures ToMs(NextMonth(t)) == ToMs(MonthFloor(t)) + DaysInMonth(t.year, t.month) * MS_PER_DAY
  {
    assert ToMs(NextMonth(t)) == ToMs(MonthFloor(t)) + DaysInMonth(t.year, t.month) * MS_PER_DAY by {
      MonthSpan(t);
    }
    hide ToMs, DaysInMonth, TupleLess;
    MomentsKeepOrder(t, NextMonth(t));
    TupleLessIsFieldOrder(t, NextMonth(t));
    MomentsKeepOrder(t, MonthFloor(t));
    TupleLessIsFieldOrder(t, MonthFloor(t));
  }

  lemma MonthSpan(t: Moment)
    requires ValidMoment(t)
    ensures DayNumber(NextMonth(t).year, NextMonth(t).month, 1) == DayNumber(t.year, t.month, 1) + DaysInMonth(t.year, t.month)
  {
    YearLength(t.year);
  }

  lemma CloseAfterOpen(open: nat, span: Span)
    requires ProperSpan(span)
    ensures open < CloseOf(open, span)
  {
    if span.CalendarMonth? {
      MonthBrackets(FromMs(open));
      ToMsOfFromMs(open);
    }
  }

  lemma CloseIsMonotone(x: nat, y: nat, span: Span)
    requires x <= y
    ensures CloseOf(x, span) <= CloseOf(y, span)
  {
    if span.CalendarMonth? && x < y {
      hide ToMs, FromMs, NextMonth, ValidMoment;
      ToMsOfFromMs(x);
      ToMsOfFromMs(y);
      NextMonthsKeepOrder(FromMs(x), FromMs(y));
    }
  }

  lemma NextMonthsKeepOrder(a: Moment, b: Moment)
    requires ValidMoment(a) && ValidMoment(b) && ToMs(a) < ToMs(b)
    ensures ToMs(NextMonth(a)) <= ToMs(NextMonth(b))
  {
    MomentsKeepOrder(a, b);
    TupleLessIsFieldOrder(a, b);
    MomentsKeepOrder(NextMonth(b), NextMonth(a));
    TupleLessIsFieldOrder(NextMonth(b), NextMonth(a));
    hide ToMs, TupleLess, Fields, DaysInMonth;
  }

  /** Months tile the line: every instant of a month closes at the same instant,
      which is the first instant of the following month, and the length is the
      real one of the calendar, 28 to 31 days. */
  lemma MonthsTile(x: nat, y: nat)
    requires ToMs(MonthFloor(FromMs(x))) <= y < CloseOf(x, CalendarMonth)
    ensures CloseOf(y, CalendarMonth) == CloseOf(x, CalendarMonth)
    ensures ToMs(MonthFloor(FromMs(CloseOf(x, CalendarMonth)))) == CloseOf(x, CalendarMonth)
    ensures CloseOf(x, CalendarMonth) - ToMs(MonthFloor(FromMs(x)))
            == DaysInMonth(FromMs(x).year, FromMs(x).month) * MS_PER_DAY
  {
    hide ToMs, FromMs;
    var a := FromMs(x);
    ToMsOfFromMs(y);
    MonthBrackets(a);
    FromMsOfToMs(NextMonth(a));
    SameMonth(a, FromMs(y));
  }

  lemma SameMonth(a: Moment, b: Moment)
    requires ValidMoment(a) && ValidMoment(b)
    requires ToMs(MonthFloor(a)) <= ToMs(b) < ToMs(NextMonth(a))
    ensures a.year == b.year && a.month == b.month
  {
    hide ToMs;
    MomentsKeepOrder(b, MonthFloor(a));
    TupleLessIsFieldOrder(b, MonthFloor(a));
    MomentsKeepOrder(b, NextMonth(a));
    TupleLessIsFieldOrder(b, NextMonth(a));
  }

  predicate Ascending(opens: seq<nat>) {
    forall i, j :: 0 <= i < j < |opens| ==> opens[i] < opens[j]
  }

  /** The bars closed at any instant are a prefix of the history. */
  lemma {:induction false} ClosedBarsArePrefix(opens: seq<nat>, span: Span, end: int) returns (k: nat)
    requires Ascending(opens)
    ensures k <= |opens|
    ensures forall i :: 0 <= i < |opens| ==> (CloseOf(opens[i], span) <= end <==> i < k)
  {
    hide CloseOf;
    k := 0;
    while k < |opens| && CloseOf(opens[k], span) <= end
      invariant k <= |opens|
      invariant forall i :: 0 <= i < k ==> CloseOf(opens[i], span) <= end
    {
      k := k + 1;
    }
    if k < |opens| {
      forall i | k < i < |opens| ensures CloseOf(opens[i], span) > end {
        CloseIsMonotone(opens[k], opens[i], span);
      }
    }
  }
}
