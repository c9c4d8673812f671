/** The billing periods of the service-charge engine: the four quarters
    (`QuarterlyServiceChargeDateRange`) and the whole year
    (`YearlyServiceChargeDateRange`). Each period is a fixed pair of
    "dd Mon " boundary templates completed with a year. The Java enum
    constants each carry a mutable `year` field; here those fields are the
    explicit `StoredYears` value that selection returns updated. */
module ServiceChargeDateRange {
  import opened Results
  import opened Calendar
  import Numerals

  datatype Quarter = Q1 | Q2 | Q3 | Q4

  datatype DateRange = Quarterly(quarter: Quarter) | Yearly

  datatype CalculationMethod = QUARTERLY | YEARLY

  datatype ServiceChargeError = InvalidMonthCode

  /** Number of a period: 1..4 for the quarters, 1 for the year. */
  function Id(r: DateRange): int
  {
    match r
    case Quarterly(Q1) => 1
    case Quarterly(Q2) => 2
    case Quarterly(Q3) => 3
    case Quarterly(Q4) => 4
    case Yearly => 1
  }

  function Name(r: DateRange): string
  {
    match r
    case Quarterly(Q1) => "Q1"
    case Quarterly(Q2) => "Q2"
    case Quarterly(Q3) => "Q3"
    case Quarterly(Q4) => "Q4"
    case Yearly => "YEARLY"
  }

  /** The start-boundary template of a period. */
  function FromTemplate(r: DateRange): string
  {
    match r
    case Quarterly(Q1) => "01 Jan "
    case Quarterly(Q2) => "01 Apr "
    case Quarterly(Q3) => "01 Jul "
    case Quarterly(Q4) => "01 Oct "
    case Yearly => "01 Jan "
  }

  /** The end-boundary template of a period. */
  function ToTemplate(r: DateRange): string
  {
    match r
    case Quarterly(Q1) => "31 Mar "
    case Quarterly(Q2) => "30 Jun "
    case Quarterly(Q3) => "30 Sep "
    case Quarterly(Q4) => "31 Dec "
    case Yearly => "31 Dec "
  }

  /** `getFromDateString(year)`: the template followed by the year's digits. */
  function FromDateString(r: DateRange, year: int): (s: string)
    ensures |s| == |FromTemplate(r)| + |Numerals.IntToString(year)|
    ensures s[..|FromTemplate(r)|] == FromTemplate(r)
    ensures s[|FromTemplate(r)|..] == Numerals.IntToString(year)
  {
    FromTemplate(r) + Numerals.IntToString(year)
  }

  /** `getToDateString(year)`. */
  function ToDateString(r: DateRange, year: int): (s: string)
    ensures |s| == |ToTemplate(r)| + |Numerals.IntToString(year)|
    ensures s[..|ToTemplate(r)|] == ToTemplate(r)
    ensures s[|ToTemplate(r)|..] == Numerals.IntToString(year)
  {
    ToTemplate(r) + Numerals.IntToString(year)
  }

  /** The first day of a period in a given year. */
  function FromDate(r: DateRange, year: int): (d: Date)
    ensures ValidDate(d) && d.year == year
  {
    match r
    case Quarterly(Q1) => Date(year, 1, 1)
    case Quarterly(Q2) => Date(year, 4, 1)
    case Quarterly(Q3) => Date(year, 7, 1)
    case Quarterly(Q4) => Date(year, 10, 1)
    case Yearly => Date(year, 1, 1)
  }

  /** The last day of a period in a given year. */
  function ToDate(r: DateRange, year: int): (d: Date)
    ensures ValidDate(d) && d.year == year
    ensures d.day == DaysInMonth(d.year, d.month)
  {
    match r
    case Quarterly(Q1) => Date(year, 3, 31)
    case Quarterly(Q2) => Date(year, 6, 30)
    case Quarterly(Q3) => Date(year, 9, 30)
    case Quarterly(Q4) => Date(year, 12, 31)
    case Yearly => Date(year, 12, 31)
  }

  /** The `year` field of each enum constant. */
  datatype StoredYears = StoredYears(q1: int, q2: int, q3: int, q4: int, yearly: int)

  /** Each constant's constructor stores the wall-clock year. */
  function InitialYears(clockYear: int): (ys: StoredYears)
    ensures forall r: DateRange :: YearOf(ys, r) == clockYear
  {
    StoredYears(clockYear, clockYear, clockYear, clockYear, clockYear)
  }

  /** `getYear()` of a constant. */
  function YearOf(ys: StoredYears, r: DateRange): int
  {
    match r
    case Quarterly(Q1) => ys.q1
    case Quarterly(Q2) => ys.q2
    case Quarterly(Q3) => ys.q3
    case Quarterly(Q4) => ys.q4
    case Yearly => ys.yearly
  }

  /** `setYear(year)` on one constant; the other constants keep theirs. */
  function SetYear(ys: StoredYears, r: DateRange, year: int): (ys': StoredYears)
    ensures YearOf(ys', r) == year
    ensures forall o: DateRange :: o != r ==> YearOf(ys', o) == YearOf(ys, o)
  {
    match r
    case Quarterly(Q1) => ys.(q1 := year)
    case Quarterly(Q2) => ys.(q2 := year)
    case Quarterly(Q3) => ys.(q3 := year)
    case Quarterly(Q4) => ys.(q4 := year)
    case Yearly => ys.(yearly := year)
  }

  /** `getFromDateForCurrentYear()`: despite its name it uses the stored
      year. The first day of a quarter's first month, or 1 January. */
  function FromDateForCurrentYear(r: DateRange, ys: StoredYears): (d: Date)
    ensures ValidDate(d) && d.year == YearOf(ys, r) && d.day == 1
    ensures r.Quarterly? ==> d.month % 3 == 1
    ensures r.Yearly? ==> d.month == 1
  {
    FromDate(r, YearOf(ys, r))
  }

  /** `getToDateForCurrentYear()`: the stored year's last day of the
      period, in the period's third month for a quarter, its twelfth for
      the year. */
  function ToDateForCurrentYear(r: DateRange, ys: StoredYears): (d: Date)
    ensures ValidDate(d) && d.year == YearOf(ys, r) && d.day == DaysInMonth(d.year, d.month)
    ensures d.month == FromDateForCurrentYear(r, ys).month + (if r.Quarterly? then 2 else 11)
  {
    ToDate(r, YearOf(ys, r))
  }

  /** `getFromDateStringForCurrentYear()`: the wall-clock year, whatever is
      stored; for a year `Integer.toString` writes as such, the string reads
      back to the period's first day in that year. */
  function FromDateStringForCurrentYear(r: DateRange, clockYear: int): (s: string)
    ensures Numerals.LONG_MIN <= clockYear <= Numerals.LONG_MAX ==> ReadBoundary(s) == Some(FromDate(r, clockYear))
  {
    var s := FromDateString(r, clockYear);
    if Numerals.LONG_MIN <= clockYear <= Numerals.LONG_MAX then FromBoundaryReadsBack(r, clockYear); s else s
  }

  /** `getToDateStringForCurrentYear()`: reads back to the period's last day
      in the wall-clock year. */
  function ToDateStringForCurrentYear(r: DateRange, clockYear: int): (s: string)
    ensures Numerals.LONG_MIN <= clockYear <= Numerals.LONG_MAX ==> ReadBoundary(s) == Some(ToDate(r, clockYear))
  {
    var s := ToDateString(r, clockYear);
    if Numerals.LONG_MIN <= clockYear <= Numerals.LONG_MAX then ToBoundaryReadsBack(r, clockYear); s else s
  }

  /** `getChargeCalculationMethodEnum()`. */
  function Method(r: DateRange): (m: CalculationMethod)
    ensures r.Quarterly? <==> m == QUARTERLY
  {
    match r
    case Quarterly(_) => QUARTERLY
    case Yearly => YEARLY
  }

  /** `getDateRangeDurationMonths()`: the yearly period says 12; the quarters
      inherit theirs from the interface, given here as `quarterlyMonths`. */
  function DurationMonths(r: DateRange, quarterlyMonths: int): (n: int)
    ensures r.Yearly? ==> n == 12
    ensures r.Quarterly? ==> n == quarterlyMonths
  {
    match r
    case Quarterly(_) => quarterlyMonths
    case Yearly => 12
  }

  // ---------------------------------------------------------------------------
  // Selecting the period

  function UpperChar(c: char): (u: char)
    ensures 'a' <= c <= 'z' ==> 'A' <= u <= 'Z' && u as int == c as int - 32
    ensures !('a' <= c <= 'z') ==> u == c
  {
    if 'a' <= c <= 'z' then (c as int - 32) as char else c
  }

  /** `String.toUpperCase()` on ASCII letters. */
  function Upper(s: string): (u: string)
    ensures |u| == |s|
    ensures forall i :: 0 <= i < |s| ==> u[i] == UpperChar(s[i])
  {
    if |s| == 0 then [] else [UpperChar(s[0])] + Upper(s[1..])
  }

  lemma UpperIdempotent(s: string)
    ensures Upper(Upper(s)) == Upper(s)
  {
  }

  /** Position of the first month token equal to `code`, as the switch's case
      labels are tried: JANUARY..DECEMBER are `tokens[0]..tokens[11]`. */
  function TokenIndex(code: string, tokens: seq<string>): (r: Option<nat>)
    ensures r.Some? ==> r.value < |tokens| && tokens[r.value] == code
    ensures r.Some? ==> forall j :: 0 <= j < r.value ==> tokens[j] != code
    ensures forall j :: 0 <= j < |tokens| && tokens[j] == code ==> r.Some? && r.value <= j
  {
    if |tokens| == 0 then None
    else if tokens[0] == code then Some(0)
    else match TokenIndex(code, tokens[1..])
      case None => None
      case Some(k) => Some(k + 1)
  }

  /** The quarter a month belongs to, months counted 0..11 from January. */
  function QuarterOfMonth(m: int): Quarter
  {
    if 0 <= m <= 2 then Q1
    else if 3 <= m <= 5 then Q2
    else if 6 <= m <= 8 then Q3
    else Q4
  }

  /** The switch of `getCurrentQuarter`: token positions 0..2, 3..5, 6..8, 9..11. */
  function QuarterOfToken(i: nat): Quarter
    requires i < 12
  {
    if i < 3 then Q1 else if i < 6 then Q2 else if i < 9 then Q3 else Q4
  }

  /** The wall-clock branch: `Calendar.MONTH` (0-based) through the chained
      conditional; any value past September falls to Q4. */
  function QuarterOfClockMonth(month: int): Quarter
  {
    if 0 <= month && month <= 2 then Q1
    else if 3 <= month && month <= 5 then Q2
    else if 6 <= month && month <= 8 then Q3
    else Q4
  }

  predicate IsEmpty(code: Option<string>)
  {
    code.None? || code.value == ""
  }

  /** `getCurrentQuarter(monthCode, year)`: the quarter named by the month
      code (or by the clock month when no code is given), its stored year
      overwritten when `year` is non-zero. */
  function GetCurrentQuarter(monthCode: Option<string>, year: int, clockMonth: int,
                             tokens: seq<string>, ys: StoredYears)
    : (r: Result<(DateRange, StoredYears), ServiceChargeError>)
    requires |tokens| == 12
    ensures r.Err? <==> !IsEmpty(monthCode) && TokenIndex(Upper(monthCode.value), tokens).None?
    ensures r.Err? ==> r.error == InvalidMonthCode
    ensures r.Ok? ==> r.value.0.Quarterly?
    ensures r.Ok? && IsEmpty(monthCode) ==> r.value.0 == Quarterly(QuarterOfClockMonth(clockMonth))
    ensures r.Ok? && year != 0 ==> YearOf(r.value.1, r.value.0) == year
    ensures r.Ok? ==> forall o: DateRange :: o != r.value.0 ==> YearOf(r.value.1, o) == YearOf(ys, o)
    ensures r.Ok? && year == 0 ==> r.value.1 == ys
  {
    var q :- if IsEmpty(monthCode) then Ok(QuarterOfClockMonth(clockMonth))
             else match TokenIndex(Upper(monthCode.value), tokens)
               case None => Err(InvalidMonthCode)
               case Some(i) => Ok(QuarterOfToken(i));
    var range := Quarterly(q);
    Ok((range, if year != 0 then SetYear(ys, range, year) else ys))
  }

  /** `getCurrentYear(monthCode, year)`: always the yearly period; the month
      code is not looked at. */
  function GetCurrentYear(monthCode: Option<string>, year: int, ys: StoredYears)
    : (r: (DateRange, StoredYears))
    ensures r.0 == Yearly
    ensures year != 0 ==> r.1 == SetYear(ys, Yearly, year)
    ensures year == 0 ==> r.1 == ys
  {
    (Yearly, if year != 0 then SetYear(ys, Yearly, year) else ys)
  }

  // ---------------------------------------------------------------------------
  // Properties

  /** A month code selects the quarter containing that month, whatever its
      letter case, provided the month tokens are upper-case and distinct. */
  lemma MonthCodeSelectsContainingQuarter(code: string, i: nat, year: int, clockMonth: int,
                                          tokens: seq<string>, ys: StoredYears)
    requires |tokens| == 12 && i < 12
    requires forall j, k :: 0 <= j < k < 12 ==> tokens[j] != tokens[k]
    requires Upper(code) == tokens[i] && code != ""
    ensures GetCurrentQuarter(Some(code), year, clockMonth, tokens, ys).Ok?
    ensures var (r, _) := GetCurrentQuarter(Some(code), year, clockMonth, tokens, ys).value;
            r == Quarterly(QuarterOfMonth(i))
            && FromDate(r, year).month <= i + 1 <= ToDate(r, year).month
  {
    var t := TokenIndex(Upper(code), tokens);
    assert t.Some? && t.value == i;
  }

  /** The code is compared after upper-casing, so its case does not matter. */
  lemma MonthCodeCaseInsensitive(code: string, year: int, clockMonth: int,
                                 tokens: seq<string>, ys: StoredYears)
    requires |tokens| == 12
    ensures GetCurrentQuarter(Some(code), year, clockMonth, tokens, ys)
         == GetCurrentQuarter(Some(Upper(code)), year, clockMonth, tokens, ys)
  {
    UpperIdempotent(code);
  }

  /** The switch on tokens and the clock-month conditional agree month for month. */
  lemma TokenAndClockQuartersAgree(i: nat)
    requires i < 12
    ensures QuarterOfToken(i) == QuarterOfClockMonth(i) == QuarterOfMonth(i)
  {
  }

  /** The quarters tile the year in id order: Q1 starts on 1 January, each
      quarter ends the day before the next one starts, Q4 ends on
      31 December, and the yearly period spans exactly the same days. */
  lemma QuartersTileYear(year: int)
    ensures FromDate(Quarterly(Q1), year) == Date(year, 1, 1)
    ensures NextDay(ToDate(Quarterly(Q1), year)) == FromDate(Quarterly(Q2), year)
    ensures NextDay(ToDate(Quarterly(Q2), year)) == FromDate(Quarterly(Q3), year)
    ensures NextDay(ToDate(Quarterly(Q3), year)) == FromDate(Quarterly(Q4), year)
    ensures ToDate(Quarterly(Q4), year) == Date(year, 12, 31)
    ensures NextDay(ToDate(Quarterly(Q4), year)) == FromDate(Quarterly(Q1), year + 1)
    ensures FromDate(Yearly, year) == FromDate(Quarterly(Q1), year)
    ensures ToDate(Yearly, year) == ToDate(Quarterly(Q4), year)
    ensures Id(Quarterly(Q1)) == 1 && Id(Quarterly(Q2)) == 2
    ensures Id(Quarterly(Q3)) == 3 && Id(Quarterly(Q4)) == 4
    ensures forall r: DateRange :: Before(FromDate(r, year), ToDate(r, year))
  {
  }

  // ---------------------------------------------------------------------------
  // Reading the boundary strings back

  const MonthAbbreviations: seq<string> :=
    ["Jan", "Feb", "Mar", "Apr", "May", "Jun", "Jul", "Aug", "Sep", "Oct", "Nov", "Dec"]

  function MonthOfAbbreviation(s: string): (m: Option<int>)
    ensures m.Some? ==> 1 <= m.value <= 12 && MonthAbbreviations[m.value - 1] == s
  {
    if s == "Jan" then Some(1) else if s == "Feb" then Some(2)
    else if s == "Mar" then Some(3) else if s == "Apr" then Some(4)
    else if s == "May" then Some(5) else if s == "Jun" then Some(6)
    else if s == "Jul" then Some(7) else if s == "Aug" then Some(8)
    else if s == "Sep" then Some(9) else if s == "Oct" then Some(10)
    else if s == "Nov" then Some(11) else if s == "Dec" then Some(12)
    else None
  }

  /** Reading a "dd Mon yyyy" boundary string: a two-digit day, an English
      month abbreviation and a year numeral. */
  function ReadBoundary(s: string): (d: Option<Date>)
    ensures d.Some? ==> 1 <= d.value.month <= 12
  {
    if |s| < 8 || !Numerals.IsDigit(s[0]) || !Numerals.IsDigit(s[1]) || s[2] != ' ' || s[6] != ' ' then None
    else match MonthOfAbbreviation(s[3..6])
      case None => None
      case Some(m) =>
        match Numerals.ParseLong(s[7..])
        case Err(_) => None
        case Ok(y) => Some(Date(y, m, Numerals.DigitsValue(s[..2])))
  }

  lemma ReadTemplate(t: string, year: int, d: Date)
    requires |t| == 7 && Numerals.IsDigit(t[0]) && Numerals.IsDigit(t[1]) && t[2] == ' ' && t[6] == ' '
    requires MonthOfAbbreviation(t[3..6]) == Some(d.month)
    requires Numerals.DigitsValue(t[..2]) == d.day && d.year == year
    requires Numerals.LONG_MIN <= year <= Numerals.LONG_MAX
    ensures ReadBoundary(t + Numerals.IntToString(year)) == Some(d)
  {
    var s := t + Numerals.IntToString(year);
    assert s[3..6] == t[3..6];
    assert s[..2] == t[..2];
    assert s[7..] == Numerals.IntToString(year);
    Numerals.ParseLongIntToString(year);
  }

  lemma TwoDigitsValue(s: string)
    requires |s| == 2 && Numerals.AllDigits(s)
    ensures Numerals.DigitsValue(s) == 10 * Numerals.DigitValue(s[0]) + Numerals.DigitValue(s[1])
  {
    var a := s[..1];
    assert a[..0] == [] && a[0] == s[0];
    assert Numerals.DigitsValue(a) == Numerals.DigitValue(s[0]);
    assert s[..|s| - 1] == a;
  }

  lemma ReadLiteral(t: string, year: int, d: Date)
    requires |t| == 7 && Numerals.IsDigit(t[0]) && Numerals.IsDigit(t[1]) && t[2] == ' ' && t[6] == ' '
    requires MonthOfAbbreviation(t[3..6]) == Some(d.month)
    requires 10 * Numerals.DigitValue(t[0]) + Numerals.DigitValue(t[1]) == d.day && d.year == year
    requires Numerals.LONG_MIN <= year <= Numerals.LONG_MAX
    ensures ReadBoundary(t + Numerals.IntToString(year)) == Some(d)
  {
    TwoDigitsValue(t[..2]);
    ReadTemplate(t, year, d);
  }

  /** The start-boundary string, read back as a date, is the period's first day. */
  lemma FromBoundaryReadsBack(r: DateRange, year: int)
    requires Numerals.LONG_MIN <= year <= Numerals.LONG_MAX
    ensures ReadBoundary(FromDateString(r, year)) == Some(FromDate(r, year))
  {
    var f := FromTemplate(r);
    match r {
      case Quarterly(Q1) => assert f[3..6] == "Jan";
      case Quarterly(Q2) => assert f[3..6] == "Apr";
      case Quarterly(Q3) => assert f[3..6] == "Jul";
      case Quarterly(Q4) => assert f[3..6] == "Oct";
      case Yearly => assert f[3..6] == "Jan";
    }
    ReadLiteral(f, year, FromDate(r, year));
  }

  /** After `setYear(year)` on a freshly initialised constant, the date
      variants resolve `year` while the string variants, read back, resolve
      the wall-clock year: the two disagree whenever the years differ. */
  lemma CurrentYearVariantsDiverge(r: DateRange, clockYear: int, year: int)
    requires Numerals.LONG_MIN <= clockYear <= Numerals.LONG_MAX
    ensures var ys := SetYear(InitialYears(clockYear), r, year);
            && FromDateForCurrentYear(r, ys) == FromDate(r, year)
            && ToDateForCurrentYear(r, ys) == ToDate(r, year)
            && ReadBoundary(FromDateStringForCurrentYear(r, clockYear)) == Some(FromDate(r, clockYear))
            && ReadBoundary(ToDateStringForCurrentYear(r, clockYear)) == Some(ToDate(r, clockYear))
            && (year != clockYear ==> FromDateForCurrentYear(r, ys) != FromDate(r, clockYear))
  {
    FromBoundaryReadsBack(r, clockYear);
    ToBoundaryReadsBack(r, clockYear);
  }

  /** The end-boundary string, read back as a date, is the period's last day. */
  lemma ToBoundaryReadsBack(r: DateRange, year: int)
    requires Numerals.LONG_MIN <= year <= Numerals.LONG_MAX
    ensures ReadBoundary(ToDateString(r, year)) == Some(ToDate(r, year))
  {
    var t := ToTemplate(r);
    match r {
      case Quarterly(Q1) => assert t[3..6] == "Mar";
      case Quarterly(Q2) => assert t[3..6] == "Jun";
      case Quarterly(Q3) => assert t[3..6] == "Sep";
      case Quarterly(Q4) => assert t[3..6] == "Dec";
      case Yearly => assert t[3..6] == "Dec";
    }
    ReadLiteral(t, year, ToDate(r, year));
  }
}
