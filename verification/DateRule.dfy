/** Month and year sharding: texts such as 201511-201602 parsed into periods. */
module DateRule {
  import opened Common

  datatype Kind = Month | Year

  // ------------------------------------------------------------------------- numbers

  predicate IsDigit(c: char) {
    '0' <= c <= '9'
  }

  function Digit(c: char): int {
    c as int - '0' as int
  }

  predicate Digits(s: string) {
    forall i :: 0 <= i < |s| ==> IsDigit(s[i])
  }

  // The decimal number read after `acc`.
  function NumberAfter(acc: int, s: string): int
    decreases s
  {
    if s == "" then acc else NumberAfter(10 * acc + Digit(s[0]), s[1..])
  }

  function Number(s: string): int {
    NumberAfter(0, s)
  }

  // The order of two strings, byte by byte.
  predicate Less(a: string, b: string) {
    if b == "" then false
    else if a == "" then true
    else if a[0] != b[0] then a[0] < b[0]
    else Less(a[1..], b[1..])
  }

  lemma {:induction false} LargerStaysLarger(x: int, a: string, y: int, b: string)
    requires |a| == |b| && Digits(a) && Digits(b) && x < y
    ensures NumberAfter(x, a) < NumberAfter(y, b)
    decreases a
  {
    if a != "" {
      LargerStaysLarger(10 * x + Digit(a[0]), a[1..], 10 * y + Digit(b[0]), b[1..]);
    }
  }

  /** Comparing digit strings of one length as text compares them as numbers. */
  lemma {:induction false} LessIsNumeric(acc: int, a: string, b: string)
    requires |a| == |b| && Digits(a) && Digits(b)
    ensures Less(a, b) <==> NumberAfter(acc, a) < NumberAfter(acc, b)
    decreases a
  {
    if a != "" {
      var x, y := 10 * acc + Digit(a[0]), 10 * acc + Digit(b[0]);
      if a[0] == b[0] {
        LessIsNumeric(x, a[1..], b[1..]);
      } else if a[0] < b[0] {
        LargerStaysLarger(x, a[1..], y, b[1..]);
      } else {
        LargerStaysLarger(y, b[1..], x, a[1..]);
      }
    }
  }

  lemma {:induction false} NumberSplits(acc: int, a: string, b: string)
    ensures NumberAfter(acc, a + b) == NumberAfter(NumberAfter(acc, a), b)
    decreases a
  {
    if a == "" {
      assert a + b == b;
    } else {
      NumberSplits(10 * acc + Digit(a[0]), a[1..], b);
      assert (a + b)[1..] == a[1..] + b;
    }
  }

  lemma {:induction false} NumberIsNatural(acc: nat, s: string)
    requires Digits(s)
    ensures NumberAfter(acc, s) >= 0
    decreases s
  {
    if s != "" { NumberIsNatural(10 * acc + Digit(s[0]), s[1..]); }
  }

  // ----------------------------------------------------------------- what a text means

  function Width(kind: Kind): nat {
    if kind.Month? then 6 else 4
  }

  // yyyymm with mm from 1 to 12, or any year.
  predicate IsPeriod(kind: Kind, n: int) {
    0 <= n && (kind.Month? ==> 1 <= n % 100 <= 12)
  }

  predicate IsDate(kind: Kind, s: string) {
    |s| == Width(kind) && Digits(s) && IsPeriod(kind, Number(s))
  }

  // The place of the first dash, or the length.
  function Dash(s: string): (k: nat)
    ensures k <= |s| && (k < |s| ==> s[k] == '-') && forall i :: 0 <= i < k ==> s[i] != '-'
  {
    if s == "" || s[0] == '-' then 0 else 1 + Dash(s[1..])
  }

  // The two ends as written; a text without a dash names one period.
  function Ends(s: string): (string, string) {
    var k := Dash(s);
    if k == |s| then (s, s) else (s[..k], s[k + 1..])
  }

  ghost predicate WellFormed(kind: Kind, s: string) {
    IsDate(kind, Ends(s).0) && IsDate(kind, Ends(s).1)
  }

  function Min(a: int, b: int): int { if a <= b then a else b }

  function Max(a: int, b: int): int { if a <= b then b else a }

  function Low(s: string): int { Min(Number(Ends(s).0), Number(Ends(s).1)) }

  function High(s: string): int { Max(Number(Ends(s).0), Number(Ends(s).1)) }

  /** The periods a text stands for: all between its two ends, in whichever order. */
  ghost predicate Covers(kind: Kind, s: string, n: int) {
    IsPeriod(kind, n) && Low(s) <= n <= High(s)
  }

  /** A text with a dash stands for the periods between its ends, whichever is written first; one
      without stands for itself. */
  lemma RangeMeans(kind: Kind, a: string, b: string, n: int)
    requires '-' !in a
    ensures Ends(a + "-" + b) == (a, b) && Ends(a) == (a, a)
    ensures Covers(kind, a + "-" + b, n) <==>
      IsPeriod(kind, n) && (Number(a) <= n <= Number(b) || Number(b) <= n <= Number(a))
    ensures Covers(kind, a, n) <==> IsPeriod(kind, n) && n == Number(a)
  {
    var s := a + "-" + b;
    assert s[|a|] == '-' && forall i :: 0 <= i < |a| ==> s[i] == a[i];
    assert Dash(s) == |a| && Dash(a) == |a|;
    assert s[..|a|] == a && s[|a| + 1..] == b;
  }

  ghost predicate Increasing(a: seq<int>) {
    forall i, j :: 0 <= i < j < |a| ==> a[i] < a[j]
  }

  ghost predicate Lists(kind: Kind, s: string, periods: seq<int>) {
    && Increasing(periods) && periods != []
    && periods[0] == Low(s) && periods[|periods| - 1] == High(s)
    && forall n :: n in periods <==> Covers(kind, s, n)
  }

  // ------------------------------------------------------------------------ months

  // Months counted from year 0.
  function Ordinal(n: int): int {
    n / 100 * 12 + n % 100 - 1
  }

  function YearMonth(year: int, month: int): int {
    year * 100 + month
  }

  lemma SplitMonth(s: string)
    requires |s| == 6 && Digits(s)
    ensures Number(s) == YearMonth(Number(s[..4]), Number(s[4..]))
    ensures 0 <= Number(s[..4]) && 0 <= Number(s[4..]) < 100
    ensures Number(s) / 100 == Number(s[..4]) && Number(s) % 100 == Number(s[4..])
  {
    var a, b := s[..4], s[4..];
    assert s == a + b;
    NumberSplits(0, a, b);
    NumberIsNatural(0, a);
    assert b == [b[0], b[1]];
    TwoDigits(Number(a), b);
    TwoDigits(0, b);
  }

  lemma TwoDigits(acc: int, b: string)
    requires |b| == 2 && Digits(b)
    ensures NumberAfter(acc, b) == 100 * acc + 10 * Digit(b[0]) + Digit(b[1])
  {
    assert b[1..][1..] == "";
    assert NumberAfter(10 * acc + Digit(b[0]), b[1..]) == 10 * (10 * acc + Digit(b[0])) + Digit(b[1]);
  }

  predicate Decimal(s: string) {
    forall i :: 0 <= i < |s| ==> s[i] in "0123456789"
  }

  // The last two characters of a month.
  predicate NamesMonth(s: string) {
    || s == "01" || s == "02" || s == "03" || s == "04" || s == "05" || s == "06"
    || s == "07" || s == "08" || s == "09" || s == "10" || s == "11" || s == "12"
  }

  lemma DecimalIsDigits(s: string)
    ensures Decimal(s) <==> Digits(s)
  {
    forall i | 0 <= i < |s| ensures s[i] in "0123456789" <==> IsDigit(s[i]) {
      if IsDigit(s[i]) { assert s[i] == "0123456789"[Digit(s[i])]; }
    }
  }

  lemma MonthNamed(b: string)
    requires |b| == 2 && Digits(b)
    ensures NamesMonth(b) <==> 1 <= Number(b) <= 12
  {
    TwoDigits(0, b);
    assert b == [b[0], b[1]];
  }

  /** A month is four digits and one of 01 to 12; a year is any four digits. */
  lemma DateMeans(s: string)
    ensures IsDate(Month, s) <==> |s| == 6 && Decimal(s) && NamesMonth(s[4..])
    ensures IsDate(Year, s) <==> |s| == 4 && Decimal(s)
  {
    DecimalIsDigits(s);
    if Digits(s) {
      NumberIsNatural(0, s);
      if |s| == 6 {
        SplitMonth(s);
        MonthNamed(s[4..]);
      }
    }
  }

  lemma OrdinalKeepsOrder(a: int, b: int)
    requires IsPeriod(Month, a) && IsPeriod(Month, b)
    ensures a < b <==> Ordinal(a) < Ordinal(b)
  {
  }

  // Month after month from `low`, with no gap at the turn of a year.
  ghost predicate Consecutive(months: seq<int>, low: int) {
    forall j :: 0 <= j < |months| ==> IsPeriod(Month, months[j]) && Ordinal(months[j]) == Ordinal(low) + j
  }

  lemma ConsecutiveLists(months: seq<int>, s: string)
    requires WellFormed(Month, s) && Consecutive(months, Low(s))
    requires |months| == Ordinal(High(s)) - Ordinal(Low(s)) + 1
    ensures Lists(Month, s, months)
  {
    var low, high := Low(s), High(s);
    OrdinalKeepsOrder(high, low);
    forall i, j | 0 <= i < j < |months| ensures months[i] < months[j] {
      OrdinalKeepsOrder(months[i], months[j]);
    }
    forall n ensures n in months <==> Covers(Month, s, n) {
      if Covers(Month, s, n) {
        OrdinalKeepsOrder(n, low);
        OrdinalKeepsOrder(high, n);
        SameOrdinal(n, months[Ordinal(n) - Ordinal(low)]);
      } else if n in months {
        var j :| 0 <= j < |months| && months[j] == n;
        OrdinalKeepsOrder(n, low);
        OrdinalKeepsOrder(high, n);
      }
    }
    SameOrdinal(months[0], low);
    SameOrdinal(months[|months| - 1], high);
  }

  lemma SameOrdinal(a: int, b: int)
    requires IsPeriod(Month, a) && IsPeriod(Month, b) && Ordinal(a) == Ordinal(b)
    ensures a == b
  {
    OrdinalKeepsOrder(a, b);
    OrdinalKeepsOrder(b, a);
  }

  lemma YearMonthOrdinal(year: nat, month: int)
    requires 1 <= month <= 12
    ensures IsPeriod(Month, YearMonth(year, month)) && Ordinal(YearMonth(year, month)) == year * 12 + month - 1
  {
    var n := YearMonth(year, month);
    assert n / 100 == year && n % 100 == month;
  }

  method MonthsBetween(beginYear: int, beginMonth: int, endYear: int, endMonth: int) returns (months: seq<int>)
    requires 0 <= beginYear && 1 <= beginMonth <= 12
    requires beginYear * 12 + beginMonth <= endYear * 12 + endMonth
    ensures Consecutive(months, YearMonth(beginYear, beginMonth))
    ensures |months| == endYear * 12 + endMonth - (beginYear * 12 + beginMonth) + 1
  {
    months := [];
    var monthCount := (endYear - beginYear) * 12 + endMonth - beginMonth + 1;
    var year, monthTmp := beginYear, beginMonth;
    YearMonthOrdinal(beginYear, beginMonth);
    for i := 0 to monthCount
      invariant |months| == i && 0 <= year && 1 <= monthTmp <= 13
      invariant year * 12 + monthTmp == beginYear * 12 + beginMonth + i
      invariant Consecutive(months, YearMonth(beginYear, beginMonth))
    {
      if 12 < monthTmp {
        monthTmp := monthTmp % 12;
        year := year + 1;
      }
      YearMonthOrdinal(year, monthTmp);
      months := months + [YearMonth(year, monthTmp)];
      monthTmp := monthTmp + 1;
    }
  }

  method ParseMonthRange(dateRange: string) returns (r: Option<seq<int>>)
    ensures r.Some? <==> WellFormed(Month, dateRange)
    ensures r.Some? ==> Lists(Month, dateRange, r.value)
  {
    var k := Dash(dateRange);
    if k == |dateRange| {
      if |dateRange| != 6 || !IsDate(Month, dateRange) {
        return None;
      }
      return Some([Number(dateRange)]);
    }
    var begin, end := dateRange[..k], dateRange[k + 1..];
    if |begin| != 6 || |end| != 6 {
      return None;
    }
    ghost var first, second := begin, end;
    if Less(end, begin) {
      begin, end := end, begin;
    }
    if !IsDate(Month, begin) || !IsDate(Month, end) {
      return None;
    }
    SplitMonth(begin);
    SplitMonth(end);
    LessIsNumeric(0, second, first);
    OrdinalKeepsOrder(Number(end), Number(begin));
    var months := MonthsBetween(Number(begin[..4]), Number(begin[4..]), Number(end[..4]), Number(end[4..]));
    ConsecutiveLists(months, dateRange);
    return Some(months);
  }

  method ParseYearRange(dateRange: string) returns (r: Option<seq<int>>)
    ensures r.Some? <==> WellFormed(Year, dateRange)
    ensures r.Some? ==> Lists(Year, dateRange, r.value)
  {
    var k := Dash(dateRange);
    if k == |dateRange| {
      if |dateRange| != 4 || !IsDate(Year, dateRange) {
        return None;
      }
      return Some([Number(dateRange)]);
    }
    var begin, end := dateRange[..k], dateRange[k + 1..];
    ghost var first, second := begin, end;
    if Less(end, begin) {
      begin, end := end, begin;
    }
    if !IsDate(Year, begin) || !IsDate(Year, end) {
      return None;
    }
    LessIsNumeric(0, second, first);
    var beginYear, endYear := Number(begin), Number(end);
    var years: seq<int> := [];
    for i := beginYear to endYear + 1
      invariant |years| == i - beginYear
      invariant forall j :: 0 <= j < |years| ==> years[j] == beginYear + j
    {
      years := years + [i];
    }
    forall n | Covers(Year, dateRange, n) ensures n in years {
      assert years[n - beginYear] == n;
    }
    return Some(years);
  }

  // -------------------------------------------------------------------- the slice check

  // The first k ranges follow one another, each above the last.
  ghost predicate InOrderTo(dateRange: seq<string>, k: nat)
    requires k <= |dateRange|
  {
    forall i, j :: 0 <= i < j < k ==> High(dateRange[i]) < Low(dateRange[j])
  }

  ghost predicate InOrder(dateRange: seq<string>) {
    InOrderTo(dateRange, |dateRange|)
  }

  ghost predicate CoveredBefore(kind: Kind, dateRange: seq<string>, i: nat, n: int)
    requires i <= |dateRange|
  {
    exists j :: 0 <= j < i && Covers(kind, dateRange[j], n)
  }

  // All periods of the first i ranges, in order.
  ghost predicate ListsAll(kind: Kind, dateRange: seq<string>, i: nat, periods: seq<int>)
    requires i <= |dateRange|
  {
    Increasing(periods) && forall n :: n in periods <==> CoveredBefore(kind, dateRange, i, n)
  }

  lemma ListsOneMore(kind: Kind, dateRange: seq<string>, i: nat, periods: seq<int>, more: seq<int>)
    requires i < |dateRange| && ListsAll(kind, dateRange, i, periods) && Lists(kind, dateRange[i], more)
    requires periods != [] ==> periods[|periods| - 1] < more[0]
    ensures ListsAll(kind, dateRange, i + 1, periods + more)
  {
    forall n ensures n in periods + more <==> CoveredBefore(kind, dateRange, i + 1, n) {
      assert n in periods + more <==> n in periods || n in more;
      if n in more { assert Covers(kind, dateRange[i], n); }
    }
    assert forall a :: 0 <= a < |periods| ==> periods[a] <= periods[|periods| - 1];
    assert forall b :: 0 <= b < |more| ==> more[0] <= more[b];
  }

  // The first i ranges have passed, and their periods are listed.
  ghost predicate Checked(kind: Kind, dateRange: seq<string>, i: nat, subTables: seq<int>)
    requires i <= |dateRange|
  {
    && (forall j :: 0 <= j < i ==> WellFormed(kind, dateRange[j]))
    && InOrderTo(dateRange, i) && ListsAll(kind, dateRange, i, subTables)
    && (if i == 0 then subTables == [] else subTables != [] && subTables[|subTables| - 1] == High(dateRange[i - 1]))
  }

  lemma ChainGrows(dateRange: seq<string>, i: nat)
    requires i < |dateRange| && InOrderTo(dateRange, i)
    requires i > 0 ==> High(dateRange[i - 1]) < Low(dateRange[i])
    ensures InOrderTo(dateRange, i + 1)
  {
    forall a | 0 <= a < i ensures High(dateRange[a]) < Low(dateRange[i]) {
      if a < i - 1 {
        assert High(dateRange[a]) < Low(dateRange[i - 1]);
        assert Low(dateRange[i - 1]) <= High(dateRange[i - 1]);
      }
    }
  }

  lemma CheckedOneMore(kind: Kind, dateRange: seq<string>, i: nat, subTables: seq<int>, more: seq<int>)
    requires i < |dateRange| && Checked(kind, dateRange, i, subTables)
    requires WellFormed(kind, dateRange[i]) && Lists(kind, dateRange[i], more)
    requires subTables != [] ==> subTables[|subTables| - 1] < more[0]
    ensures Checked(kind, dateRange, i + 1, subTables + more)
  {
    ChainGrows(dateRange, i);
    ListsOneMore(kind, dateRange, i, subTables, more);
  }

  // One turn of the loop: the next range parsed and compared with the last period so far.
  method CheckRange(kind: Kind, dateRange: seq<string>, i: nat, subTables: seq<int>)
    returns (r: Option<seq<int>>)
    requires i < |dateRange| && Checked(kind, dateRange, i, subTables)
    ensures r.Some? <==> WellFormed(kind, dateRange[i]) && (i > 0 ==> High(dateRange[i - 1]) < Low(dateRange[i]))
    ensures r.Some? ==> Checked(kind, dateRange, i + 1, r.value)
  {
    var numbers;
    if kind.Month? { numbers := ParseMonthRange(dateRange[i]); } else { numbers := ParseYearRange(dateRange[i]); }
    if numbers.None? {
      return None;
    }
    if |subTables| > 0 && numbers.value[0] <= subTables[|subTables| - 1] {
      return None;
    }
    CheckedOneMore(kind, dateRange, i, subTables, numbers.value);
    return Some(subTables + numbers.value);
  }

  /** Accepts exactly well-formed ranges that follow one another; then the periods of all
      slices together are strictly increasing. */
  method VerifyDateRule(kind: Kind, dateRange: seq<string>, slices: seq<string>)
    returns (ok: bool, subTables: seq<int>)
    ensures ok <==>
      && |dateRange| == |slices| && InOrder(dateRange)
      && forall i :: 0 <= i < |dateRange| ==> WellFormed(kind, dateRange[i])
    ensures ok ==> ListsAll(kind, dateRange, |dateRange|, subTables)
  {
    subTables := [];
    if |dateRange| != |slices| {
      return false, [];
    }
    for i := 0 to |dateRange|
      invariant Checked(kind, dateRange, i, subTables)
    {
      var next := CheckRange(kind, dateRange, i, subTables);
      if next.None? {
        assert !WellFormed(kind, dateRange[i]) || !(High(dateRange[i - 1]) < Low(dateRange[i]));
        return false, [];
      }
      subTables := next.value;
    }
    return true, subTables;
  }

  /** Under an accepted rule no period belongs to two slices. */
  lemma OneSlicePerPeriod(kind: Kind, dateRange: seq<string>, n: int, i: nat, j: nat)
    requires InOrder(dateRange) && i < j < |dateRange|
    ensures !(Covers(kind, dateRange[i], n) && Covers(kind, dateRange[j], n))
  {
    assert High(dateRange[i]) < Low(dateRange[j]);
  }
}
