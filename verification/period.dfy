/**
 * The period keyer: the grouping bucket ("March 2024", "Winter 2024", "2024")
 * under which a saved track is filed, chosen by the request's grouping mode.
 */
module Period {
  import opened Calendar

  datatype Season = Winter | Spring | Summer | Fall

  function SeasonName(s: Season): (name: string)
    ensures name != "" && ' ' !in name
  {
    match s
    case Winter => "Winter"
    case Spring => "Spring"
    case Summer => "Summer"
    case Fall => "Fall"
  }

  /**
   * Meteorological season of a month. The chain of tests is equivalent to
   * cutting the year, shifted so that December comes first, into blocks of
   * three months; December keeps its own year (no winter roll-over).
   */
  function SeasonOf(month: Month): (s: Season)
    ensures s == [Winter, Spring, Summer, Fall][(month % 12) / 3]
    ensures s == Fall <==> month == 9 || month == 10 || month == 11
  {
    if month == 12 || month == 1 || month == 2 then Winter
    else if month == 3 || month == 4 || month == 5 then Spring
    else if month == 6 || month == 7 || month == 8 then Summer
    else Fall
  }

  /** English month names, as `%B` prints them in the C locale. */
  const MonthNames: seq<string> := [
    "January", "February", "March", "April", "May", "June",
    "July", "August", "September", "October", "November", "December"
  ]

  function MonthName(m: Month): (name: string)
    ensures name != "" && ' ' !in name
  {
    MonthNames[m - 1]
  }

  lemma MonthNameInjective(a: Month, b: Month)
    requires MonthName(a) == MonthName(b)
    ensures a == b
  {
  }

  function DigitChar(d: int): (c: char)
    requires 0 <= d < 10
    ensures '0' <= c <= '9'
  {
    ('0' as int + d) as char
  }

  /** Decimal digits of a natural number, most significant first, without leading zeros. */
  function Digits(n: nat): (s: string)
    ensures |s| >= 1
    ensures forall i :: 0 <= i < |s| ==> '0' <= s[i] <= '9'
    ensures |s| > 1 ==> s[0] != '0'
  {
    if n < 10 then [DigitChar(n)] else Digits(n / 10) + [DigitChar(n % 10)]
  }

  /** Reads a string of decimal digits back as a number. */
  function ParseDigits(s: string): nat {
    if s == [] then 0
    else
      var d := s[|s| - 1] as int - '0' as int;
      ParseDigits(s[..|s| - 1]) * 10 + (if 0 <= d < 10 then d else 0)
  }

  lemma {:induction false} ParseDigitsOfDigits(n: nat)
    ensures ParseDigits(Digits(n)) == n
  {
    if n >= 10 {
      var s := Digits(n);
      assert s[..|s| - 1] == Digits(n / 10);
      ParseDigitsOfDigits(n / 10);
    }
  }

  /** `str(year)` and strftime's `%Y`: the year in decimal, with a sign before year 0. */
  function YearString(y: int): (s: string)
    ensures s != [] && ' ' !in s
  {
    if y < 0 then "-" + Digits(-y) else Digits(y)
  }

  function ParseYear(s: string): int {
    if |s| > 0 && s[0] == '-' then -(ParseDigits(s[1..]) as int) else ParseDigits(s)
  }

  lemma YearStringRoundTrip(y: int)
    ensures ParseYear(YearString(y)) == y
  {
    if y < 0 {
      assert YearString(y)[1..] == Digits(-y);
      ParseDigitsOfDigits(-y);
    } else {
      ParseDigitsOfDigits(y);
    }
  }

  lemma YearStringInjective(a: int, b: int)
    requires YearString(a) == YearString(b)
    ensures a == b
  {
    YearStringRoundTrip(a);
    YearStringRoundTrip(b);
  }

  /** The grouping mode names recognised by the keyer; any other string means yearly. */
  const Monthly: string := "monthly"
  const Seasonal: string := "seasonal"

  /** The key under which a track saved on date `d` is filed for grouping mode `groupBy`. */
  function KeyOfDate(d: Date, groupBy: string): (key: string)
    ensures key != []
  {
    if groupBy == Monthly then MonthName(d.month) + " " + YearString(d.year)
    else if groupBy == Seasonal then SeasonName(SeasonOf(d.month)) + " " + YearString(d.year)
    else YearString(d.year)
  }

  /** The key of the save time `t`. */
  function PeriodKey(t: int, groupBy: string): (key: string)
    ensures key != []
  {
    KeyOfDate(DateOf(t), groupBy)
  }

  lemma SpaceAfterWord(w: string, rest: string)
    ensures (w + " " + rest)[|w|] == ' '
    ensures forall i :: 0 <= i < |w| ==> (w + " " + rest)[i] == w[i]
  {
  }

  /** A key of the form `word + " " + rest` determines its word and its rest. */
  lemma SplitAtFirstSpace(a: string, b: string, c: string, d: string)
    requires ' ' !in a && ' ' !in c
    requires a + " " + b == c + " " + d
    ensures a == c && b == d
  {
    var s := a + " " + b;
    if |a| < |c| {
      SpaceAfterWord(a, b);
      SpaceAfterWord(c, d);
      assert false;
    } else if |c| < |a| {
      SpaceAfterWord(a, b);
      SpaceAfterWord(c, d);
      assert false;
    }
    assert a == s[..|a|] == c;
    assert b == s[|a| + 1..] == d;
  }

  /** Monthly keys are equal exactly when the two save times share calendar month and year. */
  lemma MonthlyKeysEqual(t1: int, t2: int)
    ensures PeriodKey(t1, Monthly) == PeriodKey(t2, Monthly) <==>
      DateOf(t1).year == DateOf(t2).year && DateOf(t1).month == DateOf(t2).month
  {
    var d1, d2 := DateOf(t1), DateOf(t2);
    if PeriodKey(t1, Monthly) == PeriodKey(t2, Monthly) {
      SplitAtFirstSpace(MonthName(d1.month), YearString(d1.year), MonthName(d2.month), YearString(d2.year));
      MonthNameInjective(d1.month, d2.month);
      YearStringInjective(d1.year, d2.year);
    }
  }

  /** Seasonal keys are equal exactly when the two save times share season and calendar year. */
  lemma SeasonalKeysEqual(t1: int, t2: int)
    ensures PeriodKey(t1, Seasonal) == PeriodKey(t2, Seasonal) <==>
      DateOf(t1).year == DateOf(t2).year && SeasonOf(DateOf(t1).month) == SeasonOf(DateOf(t2).month)
  {
    var d1, d2 := DateOf(t1), DateOf(t2);
    if PeriodKey(t1, Seasonal) == PeriodKey(t2, Seasonal) {
      var s1, s2 := SeasonOf(d1.month), SeasonOf(d2.month);
      SplitAtFirstSpace(SeasonName(s1), YearString(d1.year), SeasonName(s2), YearString(d2.year));
      YearStringInjective(d1.year, d2.year);
    }
  }

  /**
   * Any grouping mode other than "monthly" and "seasonal" silently falls back to
   * yearly keys, which are equal exactly when the calendar years are.
   */
  lemma FallbackKeysEqual(t1: int, t2: int, groupBy: string)
    requires groupBy != Monthly && groupBy != Seasonal
    ensures PeriodKey(t1, groupBy) == PeriodKey(t1, "yearly")
    ensures PeriodKey(t1, groupBy) == PeriodKey(t2, groupBy) <==> DateOf(t1).year == DateOf(t2).year
  {
    if PeriodKey(t1, groupBy) == PeriodKey(t2, groupBy) {
      YearStringInjective(DateOf(t1).year, DateOf(t2).year);
    }
  }

  /**
   * December is keyed with its own year: it shares "Winter Y" with January and
   * February of the same year Y, not with the January that follows it.
   */
  lemma DecemberKeepsItsYear(dec: int, jan: int)
    requires DateOf(dec).month == 12 && DateOf(jan).month == 1
    ensures PeriodKey(dec, Seasonal) == PeriodKey(jan, Seasonal) <==> DateOf(dec).year == DateOf(jan).year
  {
    SeasonalKeysEqual(dec, jan);
  }

  lemma KeyExamples()
    ensures KeyOfDate(Date(2024, 3, 15), Monthly) == "March 2024"
    ensures KeyOfDate(Date(2024, 1, 10), Seasonal) == "Winter 2024"
    ensures KeyOfDate(Date(2024, 12, 10), Seasonal) == "Winter 2024"
    ensures KeyOfDate(Date(2024, 7, 4), Seasonal) == "Summer 2024"
    ensures KeyOfDate(Date(2024, 11, 1), "yearly") == "2024"
    ensures KeyOfDate(Date(2024, 11, 1), "weekly") == "2024"
  {
    YearString2024();
  }

  lemma YearString2024()
    ensures YearString(2024) == "2024"
  {
    assert Digits(20) == "20";
    assert Digits(202) == "202";
  }
}
