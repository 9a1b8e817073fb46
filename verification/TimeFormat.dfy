/**
 * infrastructure/time_format.py: the TEXT form of every stored timestamp.
 *
 * An Instant counts microseconds from 0001-01-01T00:00:00 UTC to the end of
 * year 9999, the range of a UTC datetime. SQLite compares the TEXT values
 * character by character, so the order it sees is StrLt on Iso, not `<`.
 */
module TimeFormat {
  import opened Wrappers

  const MICROS_PER_SECOND: int := 1_000_000
  const SECONDS_PER_DAY: int := 86_400

  // ---------------------------------------------------------------- calendar

  predicate IsLeap(year: int) {
    year % 4 == 0 && (year % 100 != 0 || year % 400 == 0)
  }

  function DaysInMonth(year: int, month: int): (d: int)
    ensures 28 <= d <= 31
  {
    if month == 2 then (if IsLeap(year) then 29 else 28)
    else if month in {4, 6, 9, 11} then 30
    else 31
  }

  /** Days of `year` before the first of `month`. */
  function DaysBeforeMonth(year: int, month: nat): nat
    requires 1 <= month <= 13
  {
    if month == 1 then 0 else DaysBeforeMonth(year, month - 1) + DaysInMonth(year, month - 1)
  }

  /** Days before the first of January of `year`. */
  function DaysBeforeYear(year: nat): (d: nat)
    requires year >= 1
    ensures d >= 365 * (year - 1)
  {
    if year == 1 then 0 else DaysBeforeYear(year - 1) + (if IsLeap(year - 1) then 366 else 365)
  }

  /** The days of years 1 to 9999. */
  const DAYS: int := DaysBeforeYear(10000)
  const SECONDS: int := DAYS * SECONDS_PER_DAY

  type Instant = t: int | 0 <= t < SECONDS * MICROS_PER_SECOND

  lemma MonthsOfYear(year: int)
    ensures DaysBeforeMonth(year, 13) == (if IsLeap(year) then 366 else 365)
  {
    assert DaysBeforeMonth(year, 2) == 31;
    assert DaysBeforeMonth(year, 3) == 31 + DaysInMonth(year, 2);
    assert DaysBeforeMonth(year, 5) == DaysBeforeMonth(year, 3) + 61;
    assert DaysBeforeMonth(year, 7) == DaysBeforeMonth(year, 5) + 61;
    assert DaysBeforeMonth(year, 9) == DaysBeforeMonth(year, 7) + 62;
    assert DaysBeforeMonth(year, 11) == DaysBeforeMonth(year, 9) + 61;
    assert DaysBeforeMonth(year, 13) == DaysBeforeMonth(year, 11) + 61;
  }

  /** A civil year is as long as its months. */
  lemma YearLength(year: nat)
    requires year >= 1
    ensures DaysBeforeYear(year + 1) == DaysBeforeYear(year) + DaysBeforeMonth(year, 13)
  {
    MonthsOfYear(year);
  }

  /** The civil year holding day number `n`, searching upwards from `year`. */
  function YearFrom(n: nat, year: nat): (y: nat)
    requires 1 <= year <= 9999 && DaysBeforeYear(year) <= n < DAYS
    ensures 1 <= y <= 9999
    ensures DaysBeforeYear(y) <= n < DaysBeforeYear(y + 1)
    decreases 10000 - year
  {
    if n < DaysBeforeYear(year + 1) then year else YearFrom(n, year + 1)
  }

  /** The month of `year` holding its day number `n`, searching upwards. */
  function MonthFrom(year: int, n: int, month: nat): (m: nat)
    requires 1 <= month <= 12 && DaysBeforeMonth(year, month) <= n < DaysBeforeMonth(year, 13)
    ensures 1 <= m <= 12
    ensures DaysBeforeMonth(year, m) <= n < DaysBeforeMonth(year, m + 1)
    decreases 13 - month
  {
    if n < DaysBeforeMonth(year, month + 1) then month else MonthFrom(year, n, month + 1)
  }

  // ------------------------------------------------- fields of a whole second

  /** Year, month, day, hour, minute, second: the fields before the fraction. */
  type Fields = seq<nat>

  predicate ValidFields(f: Fields) {
    && |f| == 6
    && 1 <= f[0] <= 9999 && 1 <= f[1] <= 12 && 1 <= f[2] <= DaysInMonth(f[0], f[1])
    && f[3] < 24 && f[4] < 60 && f[5] < 60
  }

  function DayNumber(f: Fields): int
    requires ValidFields(f)
  {
    DaysBeforeYear(f[0]) + DaysBeforeMonth(f[0], f[1]) + f[2] - 1
  }

  function SecondNumber(f: Fields): int
    requires ValidFields(f)
  {
    DayNumber(f) * SECONDS_PER_DAY + f[3] * 3600 + f[4] * 60 + f[5]
  }

  lemma ClockFields(rest: nat)
    requires rest < SECONDS_PER_DAY
    ensures rest / 3600 < 24 && rest / 60 % 60 < 60 && rest % 60 < 60
    ensures rest == rest / 3600 * 3600 + rest / 60 % 60 * 60 + rest % 60
  {
    var minutes := rest / 60;
    assert rest == minutes * 60 + rest % 60;
    assert minutes == minutes / 60 * 60 + minutes % 60;
    assert minutes / 60 == rest / 3600;
  }

  function FieldsOf(second: int): (f: Fields)
    requires 0 <= second < SECONDS
    ensures ValidFields(f) && SecondNumber(f) == second
  {
    var day := second / SECONDS_PER_DAY;
    var rest := second % SECONDS_PER_DAY;
    var year := YearFrom(day, 1);
    YearLength(year);
    var month := MonthFrom(year, day - DaysBeforeYear(year), 1);
    ClockFields(rest);
    var f := [year, month, day - DaysBeforeYear(year) - DaysBeforeMonth(year, month) + 1,
              rest / 3600, rest / 60 % 60, rest % 60];
    assert DayNumber(f) == day;
    f
  }

  /** A datetime as Python keeps it: the civil fields and the microseconds. */
  datatype DateTime = DateTime(fields: Fields, micros: nat)

  predicate ValidDateTime(d: DateTime) {
    ValidFields(d.fields) && d.micros < MICROS_PER_SECOND
  }

  function InstantOf(d: DateTime): Instant
    requires ValidDateTime(d)
  {
    SecondRange(d.fields);
    Scale(SecondNumber(d.fields), d.micros);
    SecondNumber(d.fields) * MICROS_PER_SECOND + d.micros
  }

  function DateTimeOf(t: Instant): (d: DateTime)
    ensures ValidDateTime(d) && InstantOf(d) == t
    ensures SecondNumber(d.fields) == t / MICROS_PER_SECOND && d.micros == t % MICROS_PER_SECOND
  {
    DateTime(FieldsOf(t / MICROS_PER_SECOND), t % MICROS_PER_SECOND)
  }

  lemma Scale(second: int, micros: nat)
    requires 0 <= second < SECONDS && micros < MICROS_PER_SECOND
    ensures 0 <= second * MICROS_PER_SECOND + micros < SECONDS * MICROS_PER_SECOND
    ensures (second * MICROS_PER_SECOND + micros) / MICROS_PER_SECOND == second
    ensures (second * MICROS_PER_SECOND + micros) % MICROS_PER_SECOND == micros
  {
  }

  /** First difference decides: the order of two field lists of one length. */
  predicate LexLt(a: Fields, b: Fields)
    requires |a| == |b|
  {
    a != [] && (a[0] < b[0] || (a[0] == b[0] && LexLt(a[1..], b[1..])))
  }

  lemma {:induction false} YearsIncrease(y: nat, z: nat)
    requires 1 <= y <= z
    ensures DaysBeforeYear(y) <= DaysBeforeYear(z)
    decreases z - y
  {
    if y < z {
      YearLength(y);
      YearsIncrease(y + 1, z);
    }
  }

  lemma {:induction false} MonthsIncrease(year: int, m: nat, n: nat)
    requires 1 <= m <= n <= 13
    ensures DaysBeforeMonth(year, m) <= DaysBeforeMonth(year, n)
    decreases n - m
  {
    if m < n {
      MonthsIncrease(year, m, n - 1);
    }
  }

  lemma DayRange(f: Fields)
    requires ValidFields(f)
    ensures DaysBeforeYear(f[0]) <= DayNumber(f) < DaysBeforeYear(f[0] + 1)
  {
    MonthsIncrease(f[0], f[1] + 1, 13);
    YearLength(f[0]);
  }

  lemma SecondRange(f: Fields)
    requires ValidFields(f)
    ensures 0 <= SecondNumber(f) < SECONDS
  {
    DayRange(f);
    YearsIncrease(f[0] + 1, 10000);
    DayScale(DayNumber(f), f[3] * 3600 + f[4] * 60 + f[5]);
  }

  lemma DayScale(day: int, clock: nat)
    requires 0 <= day < DAYS && clock < SECONDS_PER_DAY
    ensures 0 <= day * SECONDS_PER_DAY + clock < SECONDS
  {
  }

  /** Earlier fields are an earlier second. */
  lemma FieldOrder(a: Fields, b: Fields)
    requires ValidFields(a) && ValidFields(b) && LexLt(a, b)
    ensures SecondNumber(a) < SecondNumber(b)
  {
    DayRange(a);
    DayRange(b);
    if a[0] < b[0] {
      YearsIncrease(a[0] + 1, b[0]);
    } else if a[1] < b[1] {
      MonthsIncrease(a[0], a[1] + 1, b[1]);
    } else if a[2] == b[2] && a[3] == b[3] && a[4] == b[4] {
      LexSkip(a, b, 5);
    } else {
      LexSkip(a, b, if a[2] != b[2] then 2 else if a[3] != b[3] then 3 else 4);
    }
  }

  /** Equal leading fields do not decide. */
  lemma {:induction false} LexSkip(a: Fields, b: Fields, k: nat)
    requires |a| == |b| && k < |a| && a[..k] == b[..k] && LexLt(a, b)
    ensures a[k] <= b[k] && (k == |a| - 1 ==> a[k] < b[k])
  {
    if k > 0 {
      assert a[0] == a[..k][0] == b[..k][0] == b[0];
      assert a[1..][..k - 1] == a[..k][1..] && b[1..][..k - 1] == b[..k][1..];
      LexSkip(a[1..], b[1..], k - 1);
    }
  }

  lemma {:induction false} LexTotal(a: Fields, b: Fields)
    requires |a| == |b|
    ensures LexLt(a, b) || a == b || LexLt(b, a)
  {
    if a != [] && a[0] == b[0] {
      LexTotal(a[1..], b[1..]);
      assert a == [a[0]] + a[1..] && b == [b[0]] + b[1..];
    }
  }

  // ---------------------------------------------------------------- rendering

  /** Character order, as SQLite compares TEXT. */
  predicate StrLt(a: string, b: string) {
    b != [] && (a == [] || a[0] < b[0] || (a[0] == b[0] && StrLt(a[1..], b[1..])))
  }

  function Pow10(w: nat): (p: nat)
    ensures p >= 1
  {
    if w == 0 then 1 else 10 * Pow10(w - 1)
  }

  function Digit(d: nat): char
    requires d < 10
  {
    '0' + d as char
  }

  predicate IsDigit(c: char) { '0' <= c <= '9' }

  /** `n` in exactly `w` decimal digits, zero padded. */
  function Decimal(n: nat, w: nat): (s: string)
    requires n < Pow10(w)
    ensures |s| == w
  {
    if w == 0 then "" else Decimal(n / 10, w - 1) + [Digit(n % 10)]
  }

  /** The inverse: None unless every character is a digit. */
  function ParseDecimal(s: string): Option<nat> {
    if s == "" then Some(0)
    else
      var last := s[|s| - 1];
      match ParseDecimal(s[..|s| - 1])
      case None => None
      case Some(n) => if IsDigit(last) then Some(10 * n + (last - '0') as nat) else None
  }

  /** A fixed-width layout: each field's number of digits and the separator after it. */
  datatype Layout = End | Field(width: nat, separator: string, rest: Layout)

  /** YYYY-MM-DDTHH:MM:SS */
  const LAYOUT: Layout :=
    Field(4, "-", Field(2, "-", Field(2, "T", Field(2, ":", Field(2, ":", Field(2, "", End))))))

  predicate Fits(f: Fields, l: Layout) {
    match l
    case End => f == []
    case Field(w, _, rest) => f != [] && f[0] < Pow10(w) && Fits(f[1..], rest)
  }

  function Render(f: Fields, l: Layout): (s: string)
    requires Fits(f, l)
    ensures |s| == Length(l)
  {
    match l
    case End => ""
    case Field(w, sep, rest) => Decimal(f[0], w) + sep + Render(f[1..], rest)
  }

  function Length(l: Layout): nat {
    match l
    case End => 0
    case Field(w, sep, rest) => w + |sep| + Length(rest)
  }

  function ParseFields(s: string, l: Layout): Option<Fields> {
    match l
    case End => if s == "" then Some([]) else None
    case Field(w, sep, rest) =>
      var k := w + |sep|;
      if |s| < k || s[w..k] != sep then None
      else
        match (ParseDecimal(s[..w]), ParseFields(s[k..], rest))
        case (Some(n), Some(f)) => Some([n] + f)
        case _ => None
  }

  lemma LayoutFits(f: Fields)
    requires ValidFields(f)
    ensures Fits(f, LAYOUT)
  {
    assert Pow10(2) == 100 && Pow10(4) == 10000 by {
      assert Pow10(1) == 10;
      assert Pow10(3) == 1000;
    }
    assert Fits(f[6..], End);
    Drop(f, 5);
    assert Fits(f[5..], Field(2, "", End));
    Drop(f, 4);
    assert Fits(f[4..], Field(2, ":", Field(2, "", End)));
    Drop(f, 3);
    assert Fits(f[3..], LAYOUT.rest.rest.rest);
    Drop(f, 2);
    assert Fits(f[2..], LAYOUT.rest.rest);
    Drop(f, 1);
  }

  lemma Drop(f: Fields, k: nat)
    requires k < |f|
    ensures f[k..][0] == f[k] && f[k..][1..] == f[k + 1..]
  {
  }

  /** A layout of 19 characters that has room for every valid second. */
  ghost predicate Covers(l: Layout) {
    Length(l) == 19 && forall f :: ValidFields(f) ==> Fits(f, l)
  }

  lemma LayoutCovers()
    ensures Covers(LAYOUT)
  {
    forall f | ValidFields(f) ensures Fits(f, LAYOUT) {
      LayoutFits(f);
    }
    assert Length(LAYOUT.rest.rest.rest) == 8;
    assert Length(LAYOUT.rest) == 14;
  }

  /** isoformat's fraction: absent when there are no microseconds, six digits otherwise. */
  function Fraction(micros: nat): string
    requires micros < MICROS_PER_SECOND
  {
    ZeroDigits();
    if micros == 0 then "Z" else "." + Decimal(micros, 6) + "Z"
  }

  /** isoformat: the whole second in the layout, then the fraction. */
  function StampOf(d: DateTime, l: Layout): string
    requires ValidDateTime(d) && Covers(l)
  {
    Render(d.fields, l) + Fraction(d.micros)
  }

  function ReadStamp(s: string, l: Layout): (r: Option<DateTime>)
    ensures r.Some? ==> ValidDateTime(r.value)
  {
    if |s| < 20 then None
    else
      match (ParseFields(s[..19], l), ParseFraction(s[19..]))
      case (Some(f), Some(us)) => if ValidFields(f) then Some(DateTime(f, us)) else None
      case _ => None
  }

  function Iso(t: Instant): string {
    LayoutCovers();
    StampOf(DateTimeOf(t), LAYOUT)
  }

  /** parse_iso on the two shapes iso writes; any other text is not a timestamp here. */
  function ParseIso(s: string): Option<Instant> {
    match ReadStamp(s, LAYOUT)
    case None => None
    case Some(d) => Some(InstantOf(d))
  }

  function ParseFraction(s: string): (r: Option<nat>)
    ensures r.Some? ==> r.value < MICROS_PER_SECOND
  {
    if s == "Z" then Some(0)
    else if |s| == 8 && s[0] == '.' && s[7] == 'Z' then
      (match ParseDecimal(s[1..7])
       case None => None
       case Some(n) =>
         ParseDecimalBound(s[1..7]);
         assert Pow10(6) == MICROS_PER_SECOND by { assert Pow10(3) == 1000; }
         Some(n))
    else None
  }

  // --------------------------------------------------------------- round trip

  lemma {:induction false} ParseDecimalBound(s: string)
    ensures ParseDecimal(s).Some? ==> ParseDecimal(s).value < Pow10(|s|)
  {
    if s != "" {
      ParseDecimalBound(s[..|s| - 1]);
    }
  }

  lemma {:induction false} DecimalRoundTrip(n: nat, w: nat)
    requires n < Pow10(w)
    ensures ParseDecimal(Decimal(n, w)) == Some(n)
  {
    if w != 0 {
      DecimalRoundTrip(n / 10, w - 1);
      var s := Decimal(n, w);
      assert s[..|s| - 1] == Decimal(n / 10, w - 1);
    }
  }

  /** The other way round: digits read as a number print as the same digits. */
  lemma {:induction false} ParseDecimalRoundTrip(s: string)
    requires ParseDecimal(s).Some?
    ensures ParseDecimal(s).value < Pow10(|s|)
    ensures Decimal(ParseDecimal(s).value, |s|) == s
  {
    ParseDecimalBound(s);
    if s != "" {
      ParseDecimalRoundTrip(s[..|s| - 1]);
      assert s == s[..|s| - 1] + [s[|s| - 1]];
    }
  }

  lemma {:induction false} FieldsRoundTrip(f: Fields, l: Layout)
    requires Fits(f, l)
    ensures ParseFields(Render(f, l), l) == Some(f)
  {
    if l.Field? {
      var head, tail := Decimal(f[0], l.width), Render(f[1..], l.rest);
      FieldsRoundTrip(f[1..], l.rest);
      DecimalRoundTrip(f[0], l.width);
      SplitAt(head, l.separator, tail);
      assert f == [f[0]] + f[1..];
    }
  }

  lemma SplitAt(a: string, b: string, c: string)
    ensures (a + b + c)[..|a|] == a
    ensures (a + b + c)[|a|..|a| + |b|] == b
    ensures (a + b + c)[|a| + |b|..] == c
  {
  }

  lemma {:induction false} ParseFieldsRoundTrip(s: string, l: Layout)
    requires ParseFields(s, l).Some?
    ensures Fits(ParseFields(s, l).value, l)
    ensures Render(ParseFields(s, l).value, l) == s
  {
    if l.Field? {
      var k := l.width + |l.separator|;
      var n, f := ParseDecimal(s[..l.width]).value, ParseFields(s[k..], l.rest).value;
      ParseFieldsRoundTrip(s[k..], l.rest);
      ParseDecimalRoundTrip(s[..l.width]);
      assert ([n] + f)[1..] == f;
      assert s == s[..l.width] + s[l.width..k] + s[k..];
    }
  }

  lemma {:induction false} FieldsUnique(a: Fields, b: Fields)
    requires ValidFields(a) && ValidFields(b) && SecondNumber(a) == SecondNumber(b)
    ensures a == b
  {
    LexTotal(a, b);
    if LexLt(a, b) {
      FieldOrder(a, b);
    } else if LexLt(b, a) {
      FieldOrder(b, a);
    }
  }

  lemma FractionParses(micros: nat)
    requires micros < MICROS_PER_SECOND
    ensures ParseFraction(Fraction(micros)) == Some(micros)
  {
    if micros != 0 {
      ZeroDigits();
      assert Fraction(micros)[1..7] == Decimal(micros, 6);
      DecimalRoundTrip(micros, 6);
    }
  }

  lemma StampParses(d: DateTime, l: Layout)
    requires ValidDateTime(d) && Covers(l)
    ensures ReadStamp(StampOf(d, l), l) == Some(d)
  {
    var p, q := Render(d.fields, l), Fraction(d.micros);
    FieldsRoundTrip(d.fields, l);
    FractionParses(d.micros);
    assert (p + q)[..19] == p && (p + q)[19..] == q;
  }

  lemma StampRoundTrip(s: string, l: Layout)
    requires Covers(l) && ReadStamp(s, l).Some?
    ensures StampOf(ReadStamp(s, l).value, l) == s <==> s[19..] != ".000000Z"
  {
    var d := ReadStamp(s, l).value;
    ParseFieldsRoundTrip(s[..19], l);
    FractionRoundTrip(s[19..]);
    assert s == s[..19] + s[19..];
    assert (s[..19] + Fraction(d.micros))[19..] == Fraction(d.micros);
  }

  /** A datetime is determined by its instant. */
  lemma DateTimeUnique(d: DateTime)
    requires ValidDateTime(d)
    ensures DateTimeOf(InstantOf(d)) == d
  {
    SecondRange(d.fields);
    Scale(SecondNumber(d.fields), d.micros);
    FieldsUnique(d.fields, DateTimeOf(InstantOf(d)).fields);
  }

  /** parse_iso undoes iso on every instant. */
  lemma IsoRoundTrip(t: Instant)
    ensures ParseIso(Iso(t)) == Some(t)
  {
    LayoutCovers();
    StampParses(DateTimeOf(t), LAYOUT);
  }

  /** The texts iso writes: a stamp of either shape, unless it spells out a zero fraction. */
  predicate Stored(s: string) {
    ParseIso(s).Some? && s[19..] != ".000000Z"
  }

  /** iso undoes parse_iso on exactly those, and writes no other text. */
  lemma ParseIsoRoundTrip(s: string)
    ensures ParseIso(s).Some? ==> (Iso(ParseIso(s).value) == s <==> Stored(s))
    ensures (exists t: Instant :: Iso(t) == s) <==> Stored(s)
  {
    if ParseIso(s).Some? {
      LayoutCovers();
      DateTimeUnique(ReadStamp(s, LAYOUT).value);
      StampRoundTrip(s, LAYOUT);
    }
    forall t: Instant | Iso(t) == s ensures ParseIso(s) == Some(t) {
      IsoRoundTrip(t);
    }
  }

  lemma FractionRoundTrip(s: string)
    requires ParseFraction(s).Some?
    ensures Fraction(ParseFraction(s).value) == s <==> s != ".000000Z"
  {
    ZeroDigits();
    if s != "Z" {
      var d := s[1..7];
      ParseDecimalRoundTrip(d);
      assert s == "." + d + "Z";
      DecimalRoundTrip(0, 6);
      assert d == "000000" ==> s == ".000000Z";
      assert ".000000Z"[1..7] == "000000";
    }
  }

  lemma ZeroDigits()
    ensures Pow10(6) == MICROS_PER_SECOND && Decimal(0, 6) == "000000"
  {
  }

  // ------------------------------------------------ this calendar is the Gregorian one

  const MONTH_LENGTHS: seq<nat> := [31, 28, 31, 30, 31, 30, 31, 31, 30, 31, 30, 31]

  /** The seconds that exist: the twelve month lengths, 29 February by the 4, 100 and 400 year rule, no leap second. */
  lemma GregorianFields(f: Fields)
    ensures ValidFields(f) <==>
            && |f| == 6 && 1 <= f[0] <= 9999 && 1 <= f[1] <= 12 && 1 <= f[2]
            && (f[2] <= MONTH_LENGTHS[f[1] - 1]
                || (f[1] == 2 && f[2] == 29 && (f[0] % 400 == 0 || (f[0] % 4 == 0 && f[0] % 100 != 0))))
            && f[3] <= 23 && f[4] <= 59 && f[5] <= 59
  {
  }

  /** The same time on the next date: the next day of the month if it exists, else the first of the next month. */
  function Tomorrow(f: Fields): Fields
    requires ValidFields(f)
  {
    if ValidFields(f[2 := f[2] + 1]) then f[2 := f[2] + 1]
    else if f[1] < 12 then f[1 := f[1] + 1][2 := 1]
    else f[0 := f[0] + 1][1 := 1][2 := 1]
  }

  lemma NextDayNumber(f: Fields)
    requires ValidFields(f) && !(f[0] == 9999 && f[1] == 12 && f[2] == 31)
    ensures ValidFields(Tomorrow(f)) && DayNumber(Tomorrow(f)) == DayNumber(f) + 1
    ensures Tomorrow(f)[3..] == f[3..]
  {
    if !ValidFields(f[2 := f[2] + 1]) {
      assert f[2] == DaysInMonth(f[0], f[1]);
      if f[1] == 12 {
        YearLength(f[0]);
      }
    }
  }

  /** One date later is 86400 seconds later, over the ends of months and years. */
  lemma NextDay(f: Fields)
    requires ValidFields(f) && !(f[0] == 9999 && f[1] == 12 && f[2] == 31)
    ensures ValidFields(Tomorrow(f)) && SecondNumber(Tomorrow(f)) == SecondNumber(f) + 86_400
  {
    NextDayNumber(f);
    assert forall i :: 3 <= i < 6 ==> Tomorrow(f)[i] == Tomorrow(f)[3..][i - 3] == f[3..][i - 3] == f[i];
    hide DayNumber;
    hide Tomorrow;
  }

  /** The first second is the first of January of year 1, and the clock counts seconds, minutes and hours. */
  lemma FirstDay(h: nat, m: nat, s: nat)
    requires h < 24 && m < 60 && s < 60
    ensures SecondNumber([1, 1, 1, h, m, s]) == 3600 * h + 60 * m + s
  {
  }

  /** How often a multiple of 4, 100 and 400 is passed. */
  lemma MultiplesPassed(y: nat)
    requires y >= 1
    ensures y / 4 == (y - 1) / 4 + (if y % 4 == 0 then 1 else 0)
    ensures y / 100 == (y - 1) / 100 + (if y % 100 == 0 then 1 else 0)
    ensures y / 400 == (y - 1) / 400 + (if y % 400 == 0 then 1 else 0)
  {
  }

  lemma MultiplesNested(y: nat)
    ensures y % 400 == 0 ==> y % 100 == 0
    ensures y % 100 == 0 ==> y % 4 == 0
  {
    assert y % 400 == 0 ==> y == 100 * (4 * (y / 400));
    assert y % 100 == 0 ==> y == 4 * (25 * (y / 100));
  }

  /** The days before a year in closed form. */
  function ClosedForm(y: nat): int
    requires y >= 1
  {
    365 * (y - 1) + (y - 1) / 4 - (y - 1) / 100 + (y - 1) / 400
  }

  lemma {:induction false} YearsInClosedForm(y: nat)
    requires y >= 1
    ensures DaysBeforeYear(y) == ClosedForm(y)
  {
    if y > 1 {
      YearsInClosedForm(y - 1);
      MultiplesPassed(y - 1);
      MultiplesNested(y - 1);
    }
  }

  lemma FourCenturiesOf(n: nat)
    ensures (n + 400) / 4 == n / 4 + 100 && (n + 400) / 100 == n / 100 + 4 && (n + 400) / 400 == n / 400 + 1
  {
  }

  lemma FourCenturies(y: nat)
    requires y >= 1
    ensures DaysBeforeYear(y + 400) == DaysBeforeYear(y) + 146_097
  {
    YearsInClosedForm(y);
    YearsInClosedForm(y + 400);
    hide DaysBeforeYear;
    FourCenturiesOf(y - 1);
  }

  /** Two digits, four, six. */
  function Two(n: nat): string
    requires n < 100
  {
    ["0123456789"[n / 10], "0123456789"[n % 10]]
  }

  function Four(n: nat): string
    requires n < 10_000
  {
    Two(n / 100) + Two(n % 100)
  }

  function Six(n: nat): string
    requires n < 1_000_000
  {
    Four(n / 100) + Two(n % 100)
  }

  lemma DigitIs(d: nat)
    requires d < 10
    ensures Digit(d) == "0123456789"[d]
  {
  }

  lemma TwoMore(n: nat, w: nat)
    requires n < Pow10(w + 2)
    ensures n / 100 < Pow10(w) && Decimal(n, w + 2) == Decimal(n / 100, w) + Two(n % 100)
  {
    assert n / 10 / 10 == n / 100 && n / 10 % 10 == n % 100 / 10 && n % 10 == n % 100 % 10;
    assert Pow10(w + 2) == 10 * Pow10(w + 1) && Pow10(w + 1) == 10 * Pow10(w);
    DigitIs(n / 10 % 10);
    DigitIs(n % 10);
    DecimalStep(n, w + 2);
    DecimalStep(n / 10, w + 1);
    hide Decimal;
    hide Pow10;
    hide Digit;
  }

  lemma SmallPowers()
    ensures Pow10(0) == 1 && Pow10(2) == 100 && Pow10(4) == 10_000 && Pow10(6) == 1_000_000
  {
    assert Pow10(1) == 10 && Pow10(3) == 1000 && Pow10(5) == 100_000;
  }

  lemma TwoDigits(n: nat)
    requires n < 100
    ensures n < Pow10(2) && Decimal(n, 2) == Two(n)
  {
    SmallPowers();
    assert n / 100 == 0 && n % 100 == n;
    hide Two;
    hide Pow10;
    TwoMore(n, 0);
    assert Decimal(0, 0) == "" && "" + Two(n) == Two(n);
  }

  lemma FourDigits(n: nat)
    requires n < 10_000
    ensures n < Pow10(4) && Decimal(n, 4) == Four(n)
  {
    SmallPowers();
    TwoMore(n, 2);
    TwoDigits(n / 100);
  }

  lemma SixDigits(n: nat)
    requires n < 1_000_000
    ensures n < Pow10(6) && Decimal(n, 6) == Six(n)
  {
    SmallPowers();
    TwoMore(n, 4);
    FourDigits(n / 100);
  }

  /** HH:MM:SS */
  function ClockText(f: Fields): string
    requires ValidFields(f)
  {
    Two(f[3]) + ":" + (Two(f[4]) + ":" + Two(f[5]))
  }

  /** YYYY-MM-DDTHH:MM:SS */
  function DateText(f: Fields): string
    requires ValidFields(f)
  {
    Four(f[0]) + "-" + (Two(f[1]) + "-" + (Two(f[2]) + "T" + ClockText(f)))
  }

  /** One field, its separator, and the rest. */
  lemma RenderOne(f: Fields, k: nat, w: nat, sep: string, rest: Layout)
    requires k < |f| && Fits(f[k..], Field(w, sep, rest))
    ensures f[k] < Pow10(w) && Fits(f[k + 1..], rest)
    ensures Render(f[k..], Field(w, sep, rest)) == Decimal(f[k], w) + sep + Render(f[k + 1..], rest)
  {
    Drop(f, k);
    hide Decimal;
    hide Pow10;
  }

  lemma RenderClock(f: Fields)
    requires ValidFields(f) && Fits(f[3..], Field(2, ":", Field(2, ":", Field(2, "", End))))
    ensures Render(f[3..], Field(2, ":", Field(2, ":", Field(2, "", End)))) == ClockText(f)
  {
    RenderOne(f, 3, 2, ":", Field(2, ":", Field(2, "", End)));
    RenderOne(f, 4, 2, ":", Field(2, "", End));
    RenderOne(f, 5, 2, "", End);
    assert Render(f[6..], End) == "";
    TwoDigits(f[3]);
    TwoDigits(f[4]);
    TwoDigits(f[5]);
    hide Render;
    hide Fits;
    hide Two;
    hide Decimal;
    hide Pow10;
    assert Two(f[5]) + "" + "" == Two(f[5]);
  }

  lemma RenderDate(f: Fields, clock: Layout)
    requires ValidFields(f) && Fits(f, Field(4, "-", Field(2, "-", Field(2, "T", clock))))
    ensures Fits(f[3..], clock)
    ensures Render(f, Field(4, "-", Field(2, "-", Field(2, "T", clock))))
         == Four(f[0]) + "-" + (Two(f[1]) + "-" + (Two(f[2]) + "T" + Render(f[3..], clock)))
  {
    assert f[0..] == f;
    RenderOne(f, 0, 4, "-", Field(2, "-", Field(2, "T", clock)));
    RenderOne(f, 1, 2, "-", Field(2, "T", clock));
    RenderOne(f, 2, 2, "T", clock);
    FourDigits(f[0]);
    TwoDigits(f[1]);
    TwoDigits(f[2]);
    hide Render;
    hide Fits;
    hide Two;
    hide Four;
    hide Decimal;
    hide Pow10;
  }

  lemma RenderIsDateText(f: Fields)
    requires ValidFields(f)
    ensures Fits(f, LAYOUT) && Render(f, LAYOUT) == DateText(f)
  {
    LayoutFits(f);
    hide Render;
    hide Fits;
    hide Two;
    hide Four;
    RenderDate(f, Field(2, ":", Field(2, ":", Field(2, "", End))));
    RenderClock(f);
    hide ClockText;
  }

  function FractionText(micros: nat): string
    requires micros < 1_000_000
  {
    if micros == 0 then "Z" else "." + Six(micros) + "Z"
  }

  /** The text of every datetime, digit by digit. */
  lemma IsoText(d: DateTime)
    requires ValidDateTime(d)
    ensures Iso(InstantOf(d)) == DateText(d.fields) + FractionText(d.micros)
  {
    DateTimeUnique(d);
    LayoutCovers();
    RenderIsDateText(d.fields);
    SixDigits(d.micros);
    hide DateText;
    hide Render;
    hide InstantOf;
  }

  /** The text of every Gregorian datetime is read as that datetime. */
  lemma DateTextParses(d: DateTime)
    requires ValidDateTime(d)
    ensures ParseIso(DateText(d.fields) + FractionText(d.micros)) == Some(InstantOf(d))
  {
    IsoText(d);
    IsoRoundTrip(InstantOf(d));
    hide Iso;
    hide ParseIso;
    hide DateText;
    hide FractionText;
    hide InstantOf;
  }

  lemma EpochSecond(f: Fields)
    requires f == [1970, 1, 1, 0, 0, 0]
    ensures ValidFields(f) && SecondNumber(f) == 62_135_596_800
  {
    YearsInClosedForm(1970);
    assert ClosedForm(1970) == 719_162;
    hide DaysBeforeYear;
  }

  lemma EpochText(f: Fields)
    requires f == [1970, 1, 1, 0, 0, 0]
    ensures ValidFields(f) && DateText(f) == "1970-01-01T00:00:00"
  {
    assert Four(f[0]) == "1970" && Two(f[1]) == Two(f[2]) == "01" && Two(f[3]) == Two(f[4]) == Two(f[5]) == "00";
    hide Two;
    hide Four;
  }

  lemma EpochInstant(f: Fields, micros: nat)
    requires f == [1970, 1, 1, 0, 0, 0] && micros < 1_000_000
    ensures ValidFields(f) && InstantOf(DateTime(f, micros)) == 62_135_596_800_000_000 + micros
  {
    EpochSecond(f);
    hide SecondNumber;
  }

  lemma EpochAt(f: Fields, t: Instant, micros: nat)
    requires f == [1970, 1, 1, 0, 0, 0] && micros < 1_000_000 && t == 62_135_596_800_000_000 + micros
    ensures Iso(t) == "1970-01-01T00:00:00" + FractionText(micros)
  {
    hide *;
    EpochInstant(f, micros);
    EpochText(f);
    assert ValidDateTime(DateTime(f, micros)) by {
      EpochValid(f, micros);
    }
    IsoText(DateTime(f, micros));
  }

  lemma EpochValid(f: Fields, micros: nat)
    requires ValidFields(f) && micros < 1_000_000
    ensures ValidDateTime(DateTime(f, micros))
  {
  }

  /** 1970 starts 62135596800 seconds in. */
  lemma Epoch(t: Instant, micros: nat)
    requires micros < 1_000_000 && t == 62_135_596_800_000_000 + micros
    ensures Iso(t) == "1970-01-01T00:00:00" + FractionText(micros)
  {
    hide *;
    var f: Fields :| f == [1970, 1, 1, 0, 0, 0];
    EpochAt(f, t, micros);
  }

  // ------------------------------------------------------------- string order

  lemma {:induction false} ConcatOrder(p: string, q: string, s: string, t: string)
    requires |p| == |q|
    ensures StrLt(p + s, q + t) <==> StrLt(p, q) || (p == q && StrLt(s, t))
  {
    if p == "" {
      assert p + s == s && q + t == t;
    } else {
      assert (p + s)[1..] == p[1..] + s && (q + t)[1..] == q[1..] + t;
      assert p == [p[0]] + p[1..] && q == [q[0]] + q[1..];
      ConcatOrder(p[1..], q[1..], s, t);
    }
  }

  lemma {:induction false} StrIrreflexive(s: string)
    ensures !StrLt(s, s)
  {
    if s != "" {
      StrIrreflexive(s[1..]);
    }
  }

  lemma DigitOrder(d: nat, e: nat)
    requires d < 10 && e < 10
    ensures StrLt([Digit(d)], [Digit(e)]) <==> d < e
    ensures [Digit(d)] == [Digit(e)] <==> d == e
  {
  }

  lemma DecimalStep(n: nat, w: nat)
    requires 0 < w && n < Pow10(w)
    ensures n / 10 < Pow10(w - 1) && Decimal(n, w) == Decimal(n / 10, w - 1) + [Digit(n % 10)]
  {
  }

  lemma {:induction false} DecimalOrder(m: nat, n: nat, w: nat)
    requires m < Pow10(w) && n < Pow10(w)
    ensures StrLt(Decimal(m, w), Decimal(n, w)) <==> m < n
    ensures Decimal(m, w) == Decimal(n, w) <==> m == n
  {
    if w != 0 {
      DecimalStep(m, w);
      DecimalStep(n, w);
      hide Decimal;
      hide StrLt;
      hide Pow10;
      DecimalOrder(m / 10, n / 10, w - 1);
      DigitOrder(m % 10, n % 10);
      hide Digit;
      ConcatOrder(Decimal(m / 10, w - 1), Decimal(n / 10, w - 1), [Digit(m % 10)], [Digit(n % 10)]);
      assert m == 10 * (m / 10) + m % 10 && n == 10 * (n / 10) + n % 10;
      SplitEqual(Decimal(m / 10, w - 1), Digit(m % 10), Decimal(n / 10, w - 1), Digit(n % 10));
    }
  }

  lemma SplitEqual(a: string, c: char, b: string, d: char)
    requires |a| == |b|
    ensures a + [c] == b + [d] <==> a == b && [c] == [d]
  {
    assert (a + [c])[..|a|] == a && (b + [d])[..|b|] == b;
    assert (a + [c])[|a|] == c && (b + [d])[|b|] == d;
  }

  lemma {:induction false} RenderOrder(f: Fields, g: Fields, l: Layout)
    requires Fits(f, l) && Fits(g, l) && |f| == |g|
    ensures StrLt(Render(f, l), Render(g, l)) <==> LexLt(f, g)
  {
    if l.Field? {
      var df, dg := Decimal(f[0], l.width), Decimal(g[0], l.width);
      RenderOrder(f[1..], g[1..], l.rest);
      DecimalOrder(f[0], g[0], l.width);
      ConcatOrder(df + l.separator, dg + l.separator, Render(f[1..], l.rest), Render(g[1..], l.rest));
      ConcatOrder(df, dg, l.separator, l.separator);
      StrIrreflexive(l.separator);
      SplitAt(df, l.separator, "");
      SplitAt(dg, l.separator, "");
    }
  }

  lemma RenderedSecondOrder(f: Fields, g: Fields, l: Layout)
    requires ValidFields(f) && ValidFields(g) && Fits(f, l) && Fits(g, l)
    ensures StrLt(Render(f, l), Render(g, l)) <==> SecondNumber(f) < SecondNumber(g)
    ensures Render(f, l) == Render(g, l) <==> SecondNumber(f) == SecondNumber(g)
  {
    RenderOrder(f, g, l);
    LexTotal(f, g);
    StrIrreflexive(Render(f, l));
    if LexLt(f, g) {
      FieldOrder(f, g);
    } else if LexLt(g, f) {
      RenderOrder(g, f, l);
      FieldOrder(g, f);
    }
  }

  predicate Whole(t: Instant) { t % MICROS_PER_SECOND == 0 }

  function Second(t: Instant): int { t / MICROS_PER_SECOND }

  /**
   * The order SQLite sees, exactly: time decides between different seconds and
   * between two stamps of one second that both carry a fraction; but a stamp
   * without a fraction comes after every fractional stamp of its own second.
   */
  lemma IsoOrder(a: Instant, b: Instant)
    ensures StrLt(Iso(a), Iso(b)) <==>
            if Second(a) == Second(b) && (Whole(a) || Whole(b)) then !Whole(a) && Whole(b) else a < b
  {
    LayoutCovers();
    StampOrder(DateTimeOf(a), DateTimeOf(b), LAYOUT);
  }

  lemma StampOrder(d: DateTime, e: DateTime, l: Layout)
    requires ValidDateTime(d) && ValidDateTime(e) && Covers(l)
    ensures StrLt(StampOf(d, l), StampOf(e, l)) <==>
            SecondNumber(d.fields) < SecondNumber(e.fields)
            || (SecondNumber(d.fields) == SecondNumber(e.fields) && StrLt(Fraction(d.micros), Fraction(e.micros)))
    ensures StrLt(Fraction(d.micros), Fraction(e.micros)) <==>
            if d.micros == 0 || e.micros == 0 then d.micros != 0 && e.micros == 0 else d.micros < e.micros
  {
    RenderedSecondOrder(d.fields, e.fields, l);
    ConcatOrder(Render(d.fields, l), Render(e.fields, l), Fraction(d.micros), Fraction(e.micros));
    FractionOrder(d.micros, e.micros);
  }

  lemma FractionOrder(m: nat, n: nat)
    requires m < MICROS_PER_SECOND && n < MICROS_PER_SECOND
    ensures StrLt(Fraction(m), Fraction(n)) <==> if m == 0 || n == 0 then m != 0 && n == 0 else m < n
  {
    if m == 0 && n == 0 {
      StrIrreflexive("Z");
    } else if m != 0 && n != 0 {
      ZeroDigits();
      var d, e := Decimal(m, 6), Decimal(n, 6);
      DecimalOrder(m, n, 6);
      assert "." + d + "Z" == "." + (d + "Z") && "." + e + "Z" == "." + (e + "Z");
      ConcatOrder(".", ".", d + "Z", e + "Z");
      StrIrreflexive(".");
      ConcatOrder(d, e, "Z", "Z");
      StrIrreflexive("Z");
    }
  }

  // --------------------------------------------------- comparisons used in SQL

  /** `a <= b` as SQLite evaluates it on the stored texts; see SqlLeIsTextOrder. */
  predicate SqlLe(a: Instant, b: Instant) {
    if Second(a) == Second(b) && (Whole(a) || Whole(b)) then Whole(b) else a <= b
  }

  /** SqlLe is the character order of the stored texts. */
  lemma SqlLeIsTextOrder(a: Instant, b: Instant)
    ensures SqlLe(a, b) <==> !StrLt(Iso(b), Iso(a))
  {
    IsoOrder(b, a);
  }

  /** datetime + timedelta; None where Python raises OverflowError. */
  function Plus(t: Instant, delta: int): Option<Instant> {
    if 0 <= t + delta < SECONDS * MICROS_PER_SECOND then Some(t + delta) else None
  }

  /**
   * What an SQL deadline test means in time: it passes early by less than one
   * second exactly for a fractional deadline read at its own whole second, and
   * late by less than one second exactly the other way round.
   */
  lemma SqlDeadline(deadline: Instant, now: Instant)
    ensures !StrLt(Iso(now), Iso(deadline)) ==> now > deadline - MICROS_PER_SECOND
    ensures StrLt(Iso(now), Iso(deadline)) ==> now < deadline + MICROS_PER_SECOND
    ensures !StrLt(Iso(now), Iso(deadline)) && now < deadline <==>
            Second(now) == Second(deadline) && Whole(now) && !Whole(deadline)
    ensures StrLt(Iso(now), Iso(deadline)) && deadline <= now <==>
            Second(now) == Second(deadline) && Whole(deadline) && !Whole(now)
  {
    SqlLeIsTextOrder(deadline, now);
  }

  /** The order of the texts is total and transitive, as ORDER BY needs. */
  lemma SqlLeIsTotalOrder(a: Instant, b: Instant, c: Instant)
    ensures SqlLe(a, b) || SqlLe(b, a)
    ensures SqlLe(a, b) && SqlLe(b, c) ==> SqlLe(a, c)
    ensures SqlLe(a, b) && SqlLe(b, a) ==> a == b
  {
  }
}
