/** The inputs of the table-driven test in relatives_test.go, and a few more that
    reach the error paths, each stated as a fact about `Parse`. */
module Cases {
  import opened Chars
  import opened Durations
  import opened Results
  import Quantity
  import Units
  import Scanner
  import opened Relatives
  import opened Phrases
  import opened PhraseParse

  // ---------------------------------------------------------------------
  // The values of the quantities and units the cases use
  // ---------------------------------------------------------------------

  lemma Quantities()
    ensures Quantity.Atoi("0") == Ok(0) && Quantity.Atoi("1") == Ok(1)
    ensures Quantity.Atoi("2") == Ok(2) && Quantity.Atoi("3") == Ok(3)
    ensures Quantity.Atoi("10") == Ok(10) && Quantity.Atoi("30") == Ok(30)
  {
  }

  lemma YearUnits()
    ensures Units.ParseUnit("y") == Ok(OneYear()) && Units.ParseUnit("Y") == Ok(OneYear())
    ensures Units.ParseUnit("year") == Ok(OneYear()) && Units.ParseUnit("years") == Ok(OneYear())
    ensures Units.ParseUnit("Year") == Ok(OneYear()) && Units.ParseUnit("Years") == Ok(OneYear())
  {
  }

  lemma MonthUnits()
    ensures Units.ParseUnit("M") == Ok(OneMonth())
    ensures Units.ParseUnit("month") == Ok(OneMonth()) && Units.ParseUnit("months") == Ok(OneMonth())
    ensures Units.ParseUnit("Month") == Ok(OneMonth()) && Units.ParseUnit("Months") == Ok(OneMonth())
  {
  }

  lemma DayUnits()
    ensures Units.ParseUnit("d") == Ok(OneDay()) && Units.ParseUnit("day") == Ok(OneDay())
    ensures Units.ParseUnit("days") == Ok(OneDay())
  {
  }

  lemma HourUnits()
    ensures Units.ParseUnit("hour") == Ok(OneHour()) && Units.ParseUnit("hours") == Ok(OneHour())
    ensures Units.ParseUnit("Hours") == Ok(OneHour())
  {
  }

  lemma MinuteUnits()
    ensures Units.ParseUnit("m") == Ok(OneMinute())
  {
  }

  lemma SecondUnits()
    ensures Units.ParseUnit("s") == Ok(OneSecond())
  {
  }

  /** The lookup has no capital "D". */
  lemma CapitalDUnit()
    ensures Units.ParseUnit("D") == Err(BadUnit("D"))
  {
    Units.CapitalIsNoSpelling("D");
    Units.ParseUnitAcceptsSpellings("D");
  }

  // ---------------------------------------------------------------------
  // Phrase facts that do not mention `Parse`
  // ---------------------------------------------------------------------

  /** An amount with known quantity and unit is a valid token worth their
      product. */
  lemma Worth(q: string, w: string, u: string, n: int, unit: Duration)
    requires |q| > 0 && AllDigits(q) && AllSpaces(w)
    requires Quantity.Atoi(q) == Ok(n) && Units.ParseUnit(u) == Ok(unit)
    ensures Amount(q, w, u).Valid(Units.UnitPattern)
    ensures AmountValue(Amount(q, w, u)) == Ok(n * unit)
  {
    Units.ParseUnitAgreesWithPattern(u);
  }

  /** A one-amount phrase. */
  lemma Single(a: Token, x: int)
    requires a.Amount? && a.Valid(Units.UnitPattern) && AmountValue(a) == Ok(x)
    ensures AllValid([a], Units.UnitPattern) && AmountsOnly([a])
    ensures AmountsTotal([a]) == Ok(x) && Join([a]) == a.Text()
  {
    assert [a][1..] == [];
  }

  /** An amount put in front of a phrase of amounts. */
  lemma Cons(a: Token, ts: seq<Token>, x: int, r: int)
    requires a.Amount? && a.Valid(Units.UnitPattern) && AmountValue(a) == Ok(x)
    requires ts != [] && AllValid(ts, Units.UnitPattern) && AmountsOnly(ts) && AmountsTotal(ts) == Ok(r)
    ensures AllValid([a] + ts, Units.UnitPattern) && AmountsOnly([a] + ts)
    ensures AmountsTotal([a] + ts) == Ok(x + r)
    ensures Join([a] + ts) == a.Text() + " " + Join(ts)
  {
    var xs := [a] + ts;
    assert xs[1..] == ts;
    TotalCons(a, ts, x, r);
    forall n | 0 <= n < |xs| ensures xs[n].Valid(Units.UnitPattern) {
      if n > 0 { assert xs[n] == ts[n - 1]; }
    }
  }

  lemma TotalCons(a: Token, ts: seq<Token>, x: int, r: int)
    requires a.Amount? && AmountValue(a) == Ok(x) && AmountsTotal(ts) == Ok(r)
    ensures AmountsTotal([a] + ts) == Ok(x + r)
  {
    assert ([a] + ts)[1..] == ts;
  }

  /** A phrase of amounts followed by "ago" reads as the amounts, a space
      and "ago". */
  lemma AgoText(ts: seq<Token>)
    requires ts != []
    ensures Join(ts + [Word("ago")]) == Join(ts) + " ago"
    decreases |ts|
  {
    var xs := ts + [Word("ago")];
    if |ts| == 1 {
      assert xs[1..] == [Word("ago")];
    } else {
      assert xs[1..] == ts[1..] + [Word("ago")];
      AgoText(ts[1..]);
    }
  }

  lemma DayTokens()
    ensures Amount("1", " ", "day").Valid(Units.UnitPattern)
    ensures AmountValue(Amount("1", " ", "day")) == Ok(OneDay())
    ensures Amount("2", " ", "hours").Valid(Units.UnitPattern)
    ensures AmountValue(Amount("2", " ", "hours")) == Ok(2 * OneHour())
  {
    Quantities();
    DayUnits();
    HourUnits();
    Worth("1", " ", "day", 1, OneDay());
    Worth("2", " ", "hours", 2, OneHour());
  }

  lemma DayAndHoursPhrase()
    ensures var ts := [Amount("1", " ", "day"), Amount("2", " ", "hours")];
      AllValid(ts, Units.UnitPattern) && AmountsOnly(ts) &&
      AmountsTotal(ts) == Ok(OneDay() + 2 * OneHour()) && Join(ts) == "1 day 2 hours"
  {
    var a, b := Amount("1", " ", "day"), Amount("2", " ", "hours");
    DayTokens();
    Single(b, 2 * OneHour());
    Cons(a, [b], OneDay(), 2 * OneHour());
    assert [a] + [b] == [a, b];
  }

  lemma YearAndSecondsTokens()
    ensures Amount("1", " ", "year").Valid(Units.UnitPattern)
    ensures AmountValue(Amount("1", " ", "year")) == Ok(OneYear())
    ensures Amount("30", "", "s").Valid(Units.UnitPattern)
    ensures AmountValue(Amount("30", "", "s")) == Ok(30 * OneSecond())
  {
    Quantities();
    YearUnits();
    SecondUnits();
    Worth("1", " ", "year", 1, OneYear());
    Worth("30", "", "s", 30, OneSecond());
  }

  /** "1 year 30s": a year and thirty seconds. */
  lemma YearAndSecondsPhrase()
    ensures var ts := [Amount("1", " ", "year"), Amount("30", "", "s")];
      AllValid(ts, Units.UnitPattern) && AmountsOnly(ts) &&
      AmountsTotal(ts) == Ok(OneYear() + 30 * OneSecond()) && Join(ts) == "1 year 30s"
  {
    var a, b := Amount("1", " ", "year"), Amount("30", "", "s");
    YearAndSecondsTokens();
    Single(b, 30 * OneSecond());
    Cons(a, [b], OneYear(), 30 * OneSecond());
    assert [a] + [b] == [a, b];
  }

  lemma MixedSpacingTokens()
    ensures Amount("10", " ", "y").Valid(Units.UnitPattern)
    ensures AmountValue(Amount("10", " ", "y")) == Ok(10 * OneYear())
    ensures Amount("1", "   ", "M").Valid(Units.UnitPattern)
    ensures AmountValue(Amount("1", "   ", "M")) == Ok(OneMonth())
    ensures Amount("1", "", "m").Valid(Units.UnitPattern)
    ensures AmountValue(Amount("1", "", "m")) == Ok(OneMinute())
  {
    Quantities();
    YearUnits();
    MonthUnits();
    MinuteUnits();
    Worth("10", " ", "y", 10, OneYear());
    Worth("1", "   ", "M", 1, OneMonth());
    Worth("1", "", "m", 1, OneMinute());
  }

  /** "10 y 1   M 1m": ten years, a month and a minute; the run of spaces
      inside the middle amount is allowed by `\s*`. */
  lemma MixedSpacingPhrase()
    ensures var ts := [Amount("10", " ", "y"), Amount("1", "   ", "M"), Amount("1", "", "m")];
      AllValid(ts, Units.UnitPattern) && AmountsOnly(ts) &&
      AmountsTotal(ts) == Ok(10 * OneYear() + (OneMonth() + OneMinute())) &&
      Join(ts) == "10 y 1   M 1m"
  {
    var a, b, c := Amount("10", " ", "y"), Amount("1", "   ", "M"), Amount("1", "", "m");
    MixedSpacingTokens();
    Single(c, OneMinute());
    Cons(b, [c], OneMonth(), OneMinute());
    Cons(a, [b] + [c], 10 * OneYear(), OneMonth() + OneMinute());
    assert [a] + ([b] + [c]) == [a, b, c];
  }

  /** One amount, with its text and value. */
  lemma SinglePhrase(s: string, q: string, w: string, u: string, n: int, unit: Duration)
    requires |q| > 0 && AllDigits(q) && AllSpaces(w) && s == q + w + u
    requires Quantity.Atoi(q) == Ok(n) && Units.ParseUnit(u) == Ok(unit)
    ensures var ts := [Amount(q, w, u)];
      AllValid(ts, Units.UnitPattern) && AmountsOnly(ts) &&
      AmountsTotal(ts) == Ok(n * unit) && Join(ts) == s
  {
    Worth(q, w, u, n, unit);
    Single(Amount(q, w, u), n * unit);
  }

  /** One amount followed by "ago", with its text. */
  lemma SingleAgoPhrase(s: string, q: string, w: string, u: string, n: int, unit: Duration)
    requires |q| > 0 && AllDigits(q) && AllSpaces(w) && s == q + w + u + " ago"
    requires Quantity.Atoi(q) == Ok(n) && Units.ParseUnit(u) == Ok(unit)
    ensures var ts := [Amount(q, w, u)];
      AllValid(ts, Units.UnitPattern) && AmountsOnly(ts) &&
      AmountsTotal(ts) == Ok(n * unit) && Join(ts + [Word("ago")]) == s
  {
    SinglePhrase(q + w + u, q, w, u, n, unit);
    AgoText([Amount(q, w, u)]);
  }

  /** An amount followed by a word. */
  lemma AmountThenWord(a: Token, x: int, w: string)
    requires a.Amount? && a.Valid(Units.UnitPattern) && AmountValue(a) == Ok(x)
    requires |w| > 0 && AllLetters(w)
    ensures AllValid([a, Word(w)], Units.UnitPattern)
    ensures AmountsTotal([a, Word(w)]) == Ok(x)
    ensures Join([a, Word(w)]) == a.Text() + " " + w
  {
    var ts := [a, Word(w)];
    assert ts[1..] == [Word(w)] && ts[1..][1..] == [];
    assert AmountsTotal(ts[1..]) == Ok(0);
    forall n | 0 <= n < |ts| ensures ts[n].Valid(Units.UnitPattern) {
    }
  }

  lemma HourToken()
    ensures Amount("1", " ", "hour").Valid(Units.UnitPattern)
    ensures AmountValue(Amount("1", " ", "hour")) == Ok(OneHour())
  {
    Quantities();
    HourUnits();
    Worth("1", " ", "hour", 1, OneHour());
  }

  /** "1 hour yesterday" as a phrase. */
  lemma HourThenYesterdayPhrase()
    ensures var ts := [Amount("1", " ", "hour"), Word("yesterday")];
      AllValid(ts, Units.UnitPattern) && Join(ts) == "1 hour yesterday" &&
      Word("yesterday") in ts && Word("ago") !in ts && AmountsTotal(ts).Ok?
  {
    HourToken();
    AmountThenWord(Amount("1", " ", "hour"), OneHour(), "yesterday");
    AgoIsNotYesterday();
  }

  // ---------------------------------------------------------------------
  // From a phrase to `Parse`
  // ---------------------------------------------------------------------

  /** A single amount parses to its value. */
  lemma ParsesTo(s: string, q: string, w: string, u: string, n: int, unit: Duration)
    requires |q| > 0 && AllDigits(q) && AllSpaces(w) && s == q + w + u
    requires Quantity.Atoi(q) == Ok(n) && Units.ParseUnit(u) == Ok(unit)
    ensures Parse(s) == Ok(n * unit)
  {
    SinglePhrase(s, q, w, u, n, unit);
    ParseAmounts([Amount(q, w, u)]);
  }

  /** A single amount followed by "ago" parses to its value negated. */
  lemma ParsesAgoTo(s: string, q: string, w: string, u: string, n: int, unit: Duration)
    requires |q| > 0 && AllDigits(q) && AllSpaces(w) && s == q + w + u + " ago"
    requires Quantity.Atoi(q) == Ok(n) && Units.ParseUnit(u) == Ok(unit)
    ensures Parse(s) == if n * unit == 0 then Err(DanglingAgo) else Ok(-(n * unit))
  {
    SingleAgoPhrase(s, q, w, u, n, unit);
    ParseAmountsAgo([Amount(q, w, u)], n * unit);
  }

  // ---------------------------------------------------------------------
  // The cases
  // ---------------------------------------------------------------------

  /** The empty input is a zero duration. */
  lemma EmptyInput()
    ensures Parse("") == Ok(0)
  {
    ParseReportsNoMatch("");
  }

  /** "1y" is a year. */
  lemma YearLetter()
    ensures Parse("1y") == Ok(OneYear())
  {
    Quantities();
    YearUnits();
    ParsesTo("1y", "1", "", "y", 1, OneYear());
  }

  /** "1year" is a year. */
  lemma YearWord()
    ensures Parse("1year") == Ok(OneYear())
  {
    Quantities();
    YearUnits();
    ParsesTo("1year", "1", "", "year", 1, OneYear());
  }

  /** "1years" is a year. */
  lemma YearsWord()
    ensures Parse("1years") == Ok(OneYear())
  {
    Quantities();
    YearUnits();
    ParsesTo("1years", "1", "", "years", 1, OneYear());
  }

  /** "1Year" is a year. */
  lemma YearCapitalWord()
    ensures Parse("1Year") == Ok(OneYear())
  {
    Quantities();
    YearUnits();
    ParsesTo("1Year", "1", "", "Year", 1, OneYear());
  }

  /** "1Years" is a year. */
  lemma YearsCapitalWord()
    ensures Parse("1Years") == Ok(OneYear())
  {
    Quantities();
    YearUnits();
    ParsesTo("1Years", "1", "", "Years", 1, OneYear());
  }

  /** Capital "M" is a month. */
  lemma MonthLetter()
    ensures Parse("1M") == Ok(OneMonth())
  {
    Quantities();
    MonthUnits();
    ParsesTo("1M", "1", "", "M", 1, OneMonth());
  }

  /** "1month" is a month. */
  lemma MonthWord()
    ensures Parse("1month") == Ok(OneMonth())
  {
    Quantities();
    MonthUnits();
    ParsesTo("1month", "1", "", "month", 1, OneMonth());
  }

  /** "1months" is a month. */
  lemma MonthsWord()
    ensures Parse("1months") == Ok(OneMonth())
  {
    Quantities();
    MonthUnits();
    ParsesTo("1months", "1", "", "months", 1, OneMonth());
  }

  /** "1Month" is a month. */
  lemma MonthCapitalWord()
    ensures Parse("1Month") == Ok(OneMonth())
  {
    Quantities();
    MonthUnits();
    ParsesTo("1Month", "1", "", "Month", 1, OneMonth());
  }

  /** "1Months" is a month. */
  lemma MonthsCapitalWord()
    ensures Parse("1Months") == Ok(OneMonth())
  {
    Quantities();
    MonthUnits();
    ParsesTo("1Months", "1", "", "Months", 1, OneMonth());
  }

  /** Lower-case "m" is a minute, not a month. */
  lemma MinuteLetter()
    ensures Parse("1m") == Ok(OneMinute())
  {
    Quantities();
    MinuteUnits();
    ParsesTo("1m", "1", "", "m", 1, OneMinute());
  }

  /** "3 Hours" is three hours. */
  lemma ThreeHours()
    ensures Parse("3 Hours") == Ok(3 * OneHour())
  {
    Quantities();
    HourUnits();
    ParsesTo("3 Hours", "3", " ", "Hours", 3, OneHour());
  }

  /** "1 day 2 hours" is a day and two hours. */
  lemma DayAndHours()
    ensures Parse("1 day 2 hours") == Ok(OneDay() + 2 * OneHour())
  {
    DayAndHoursPhrase();
    ParseAmounts([Amount("1", " ", "day"), Amount("2", " ", "hours")]);
  }

  /** "1 year 30s" is a year and thirty seconds. */
  lemma YearAndSeconds()
    ensures Parse("1 year 30s") == Ok(OneYear() + 30 * OneSecond())
  {
    YearAndSecondsPhrase();
    ParseAmounts([Amount("1", " ", "year"), Amount("30", "", "s")]);
  }

  /** "10 y 1   M 1m" is ten years, a month and a minute. */
  lemma MixedSpacing()
    ensures Parse("10 y 1   M 1m") == Ok(10 * OneYear() + OneMonth() + OneMinute())
  {
    MixedSpacingPhrase();
    ParseAmounts([Amount("10", " ", "y"), Amount("1", "   ", "M"), Amount("1", "", "m")]);
  }

  /** "1 day ago" is a day in the past. */
  lemma OneDayAgo()
    ensures Parse("1 day ago") == Ok(-OneDay())
  {
    Quantities();
    DayUnits();
    ParsesAgoTo("1 day ago", "1", " ", "day", 1, OneDay());
  }

  /** "2d ago" is two days in the past. */
  lemma TwoDAgo()
    ensures Parse("2d ago") == Ok(-2 * OneDay())
  {
    Quantities();
    DayUnits();
    ParsesAgoTo("2d ago", "2", "", "d", 2, OneDay());
  }

  /** "2 days ago" is two days in the past. */
  lemma TwoDaysAgo()
    ensures Parse("2 days ago") == Ok(-2 * OneDay())
  {
    Quantities();
    DayUnits();
    ParsesAgoTo("2 days ago", "2", " ", "days", 2, OneDay());
  }

  /** "yesterday" alone is minus one day. */
  lemma Yesterday()
    ensures Parse("yesterday") == Ok(-OneDay())
  {
    var ts := [Word("yesterday")];
    AgoIsNotYesterday();
    assert Join(ts) == "yesterday" && AllValid(ts, Units.UnitPattern);
    assert AmountsTotal(ts) == Ok(0) by { assert ts[1..] == []; }
    ParseYesterday(ts);
  }

  /** A "yesterday" replaces what the amounts before it added up to. */
  lemma AmountThenYesterday()
    ensures Parse("1 hour yesterday") == Ok(-OneDay())
  {
    HourThenYesterdayPhrase();
    ParseYesterday([Amount("1", " ", "hour"), Word("yesterday")]);
  }

  /** Two "yesterday"s are still minus one day. */
  lemma TwoYesterdays()
    ensures Parse("yesterday yesterday") == Ok(-OneDay())
  {
    var ts := [Word("yesterday"), Word("yesterday")];
    AgoIsNotYesterday();
    assert ts[1..] == [Word("yesterday")] && ts[1..][1..] == [];
    assert Join(ts) == "yesterday yesterday";
    assert AllValid(ts, Units.UnitPattern);
    assert AmountsTotal(ts) == Ok(0);
    ParseYesterday(ts);
  }

  /** An "ago" with nothing to negate is an error. */
  lemma AgoAlone()
    ensures Parse("ago") == Err(DanglingAgo)
  {
    var ts := [Word("ago")];
    AgoIsNotYesterday();
    assert ts[1..] == [];
    assert PhraseValue(ts) == Verdict("ago", Ok(0), 1, 0, true);
    ParsePhrase(ts);
  }

  /** An "ago" after amounts that add up to zero is an error too. */
  lemma ZeroDaysAgo()
    ensures Parse("0 days ago") == Err(DanglingAgo)
  {
    Quantities();
    DayUnits();
    ParsesAgoTo("0 days ago", "0", " ", "days", 0, OneDay());
  }

  /** A zero amount is a zero duration, not an error. */
  lemma ZeroDays()
    ensures Parse("0 days") == Ok(0)
  {
    Quantities();
    DayUnits();
    ParsesTo("0 days", "0", " ", "days", 0, OneDay());
  }

  /** Text none of the three rules matches is an error that carries it. */
  lemma NoRuleMatches()
    ensures Parse("banana") == Err(NoMatch("banana"))
  {
    var ts := [Word("banana")];
    assert Join(ts) == "banana" && AllValid(ts, Units.UnitPattern) && WordsOnly(ts);
    assert Word("ago") !in ts && Word("yesterday") !in ts;
    ParseOtherWords(ts);
  }

  /** The values of the leading digits of 2^63, four digits per lemma so
      that each proof stays small. */
  lemma Prefix4()
    ensures Quantity.DecimalValue("9223") == 9223
  {
    assert Quantity.DecimalValue("9") == 9;
    Quantity.DecimalValueSnoc("9", '2');
    assert "9" + ['2'] == "92";
    Quantity.DecimalValueSnoc("92", '2');
    assert "92" + ['2'] == "922";
    Quantity.DecimalValueSnoc("922", '3');
    assert "922" + ['3'] == "9223";
  }

  lemma Prefix8()
    ensures Quantity.DecimalValue("92233720") == 92233720
  {
    Prefix4();
    Quantity.DecimalValueSnoc("9223", '3');
    assert "9223" + ['3'] == "92233";
    Quantity.DecimalValueSnoc("92233", '7');
    assert "92233" + ['7'] == "922337";
    Quantity.DecimalValueSnoc("922337", '2');
    assert "922337" + ['2'] == "9223372";
    Quantity.DecimalValueSnoc("9223372", '0');
    assert "9223372" + ['0'] == "92233720";
  }

  lemma Prefix12()
    ensures Quantity.DecimalValue("922337203685") == 922337203685
  {
    Prefix8();
    Quantity.DecimalValueSnoc("92233720", '3');
    assert "92233720" + ['3'] == "922337203";
    Quantity.DecimalValueSnoc("922337203", '6');
    assert "922337203" + ['6'] == "9223372036";
    Quantity.DecimalValueSnoc("9223372036", '8');
    assert "9223372036" + ['8'] == "92233720368";
    Quantity.DecimalValueSnoc("92233720368", '5');
    assert "92233720368" + ['5'] == "922337203685";
  }

  lemma Prefix16()
    ensures Quantity.DecimalValue("9223372036854775") == 9223372036854775
  {
    Prefix12();
    Quantity.DecimalValueSnoc("922337203685", '4');
    assert "922337203685" + ['4'] == "9223372036854";
    Quantity.DecimalValueSnoc("9223372036854", '7');
    assert "9223372036854" + ['7'] == "92233720368547";
    Quantity.DecimalValueSnoc("92233720368547", '7');
    assert "92233720368547" + ['7'] == "922337203685477";
    Quantity.DecimalValueSnoc("922337203685477", '5');
    assert "922337203685477" + ['5'] == "9223372036854775";
  }

  lemma Prefix19()
    ensures Quantity.DecimalValue("9223372036854775808") == 9223372036854775808
  {
    Prefix16();
    Quantity.DecimalValueSnoc("9223372036854775", '8');
    assert "9223372036854775" + ['8'] == "92233720368547758";
    Quantity.DecimalValueSnoc("92233720368547758", '0');
    assert "92233720368547758" + ['0'] == "922337203685477580";
    Quantity.DecimalValueSnoc("922337203685477580", '8');
    assert "922337203685477580" + ['8'] == "9223372036854775808";
  }

  /** One past the largest int64 is out of `strconv.Atoi`'s range. */
  lemma QuantityOverflows()
    ensures AllDigits("9223372036854775808")
    ensures Quantity.Atoi("9223372036854775808") == Err(BadQuantity("9223372036854775808"))
  {
    Prefix19();
  }

  /** The amount "9223372036854775808 days": well formed, and worth a bad quantity. */
  lemma OverflowingAmount()
    ensures Amount("9223372036854775808", " ", "days").Text() == "9223372036854775808 days"
    ensures AmountValue(Amount("9223372036854775808", " ", "days")) == Err(BadQuantity("9223372036854775808"))
  {
    QuantityOverflows();
  }

  lemma OverflowingAmountIsValid()
    ensures Amount("9223372036854775808", " ", "days").Valid(Units.UnitPattern)
  {
    QuantityOverflows();
    DayUnits();
    Units.ParseUnitAgreesWithPattern("days");
  }

  /** A quantity too large for an int64 is a bad quantity, naming its
      text. */
  lemma QuantityTooBig()
    ensures Parse("9223372036854775808 days") == Err(BadQuantity("9223372036854775808"))
  {
    OverflowingAmount();
    OverflowingAmountIsValid();
    SingleAmount(Amount("9223372036854775808", " ", "days"));
  }

  /** The matcher accepts "D" but the lookup does not, so "1D" is a bad
      unit. */
  lemma CapitalD()
    ensures Parse("1D") == Err(BadUnit("D"))
  {
    var a := Amount("1", "", "D");
    Quantities();
    CapitalDUnit();
    Units.UnitPatternLanguage("D");
    assert a.Text() == "1D";
    SingleAmount(a);
  }

  /** "dayz" is none of the unit alternatives. */
  lemma DayzIsNoUnit()
    ensures !Units.UnitPattern("dayz")
  {
    Units.UnitPatternLanguage("dayz");
    assert "dayz"[3] == 'z';
  }

  /** No quantity+unit match starts at the digit of "1dayz": the word after
      it is "dayz". */
  lemma DayzNoMatchAtDigit()
    ensures Scanner.MatchAt("1dayz", 0, Units.UnitPattern) == None
  {
    var s := "1dayz";
    assert RunEnd(s, 0, IsDigit) == 1 by {
      assert RunEnd(s, 1, IsDigit) == 1;
    }
    assert RunEnd(s, 1, IsSpace) == 1;
    assert RunEnd(s, 1, IsWordChar) == 5;
    assert s[1..5] == "dayz";
    DayzIsNoUnit();
  }

  /** The quantity+unit scan finds nothing in "1dayz". */
  lemma DayzScan()
    ensures Scanner.ScanFrom("1dayz", 0, Units.UnitPattern) == []
  {
    DayzNoMatchAtDigit();
    Scanner.ScanSkipsNonDigits("1dayz", 1, 5, Units.UnitPattern);
  }

  lemma DayzWords()
    ensures Scanner.WordScanFrom("1dayz", "ago", 0) == []
    ensures Scanner.WordScanFrom("1dayz", "yesterday", 0) == []
  {
  }

  /** A unit must be the whole word after the quantity, so "1dayz"
      matches no rule. */
  lemma WholeWordUnit()
    ensures Parse("1dayz") == Err(NoMatch("1dayz"))
  {
    DayzFindsNothing();
    ParseReportsNoMatch("1dayz");
  }

  lemma DayzFindsNothing()
    ensures forall n :: 0 <= n < |ReRe| ==> ReRe[n].FindAll("1dayz") == []
  {
    DayzScan();
    DayzWords();
    assert ReRe == [QuantityAndUnit, Rule.Ago, Rule.Yesterday];
  }

  /** A lone amount parses to its value, or to the error of its value. */
  lemma SingleAmount(t: Token)
    requires t.Amount? && t.Valid(Units.UnitPattern)
    ensures Parse(t.Text()) == AmountValue(t)
  {
    assert [t][1..] == [];
    assert AllValid([t], Units.UnitPattern) && AmountsOnly([t]);
    ParseAmounts([t]);
  }
}
