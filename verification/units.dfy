/** The unit vocabulary, seen from two sides of relatives.go: the lookup
    `parseUnit` (a switch over fixed spellings) and the unit alternatives
    the quantity+unit regular expression accepts. The two are written
    independently and the lemmas here say exactly where they differ. */
module Units {
  import opened Durations
  import opened Results
  import opened Chars

  // ---------------------------------------------------------------------
  // The lookup: one set of case labels per unit
  // ---------------------------------------------------------------------

  const YearSpellings: set<string> := {"y", "Y", "year", "Year", "years", "Years"}
  const MonthSpellings: set<string> := {"M", "month", "Month", "months", "Months"}
  const WeekSpellings: set<string> := {"w", "week", "Week", "weeks", "Weeks"}
  const DaySpellings: set<string> := {"d", "day", "Day", "days", "Days"}
  const HourSpellings: set<string> := {"h", "hour", "Hour", "hours", "Hours"}
  const MinuteSpellings: set<string> := {"m", "minute", "Minute", "minutes", "Minutes"}
  const SecondSpellings: set<string> := {"s", "second", "Second", "seconds", "Seconds"}

  /** Every spelling the lookup accepts. */
  const Spellings: set<string> :=
    YearSpellings + MonthSpellings + WeekSpellings + DaySpellings
    + HourSpellings + MinuteSpellings + SecondSpellings

  /** Capital one-letter forms the regular expression accepts but the
      lookup does not. */
  const CapitalAbbreviations: set<string> := {"W", "D", "H", "S"}

  // ---------------------------------------------------------------------
  // The regular expression's unit alternatives
  // ---------------------------------------------------------------------

  /** The strings `stem` and `stem + "s"`: the regex `stems?`. */
  function Plural(stem: string): set<string> {
    {stem, stem + "s"}
  }

  /** One of `heads` followed by nothing or by one of `tails`:
      the regex `[heads](?:tails)?`. */
  predicate HeadThenOptional(u: string, heads: set<char>, tails: set<string>) {
    |u| > 0 && u[0] in heads && (u[1..] == "" || u[1..] in tails)
  }

  /** `[yY](?:ears?)?` */
  predicate YearPattern(u: string) {
    HeadThenOptional(u, {'y', 'Y'}, Plural("ear"))
  }

  /** `months?|M(?:onths?)?` */
  predicate MonthPattern(u: string) {
    u in Plural("month") || HeadThenOptional(u, {'M'}, Plural("onth"))
  }

  /** `[Ww](?:eeks?)?` */
  predicate WeekPattern(u: string) {
    HeadThenOptional(u, {'W', 'w'}, Plural("eek"))
  }

  /** `[Dd](?:ays?)?` */
  predicate DayPattern(u: string) {
    HeadThenOptional(u, {'D', 'd'}, Plural("ay"))
  }

  /** `[Hh](?:ours?)?` */
  predicate HourPattern(u: string) {
    HeadThenOptional(u, {'H', 'h'}, Plural("our"))
  }

  /** `m(?:inutes?)?|Minutes?` */
  predicate MinutePattern(u: string) {
    HeadThenOptional(u, {'m'}, Plural("inute")) || u in Plural("Minute")
  }

  /** `[Ss](?:econds?)?` */
  predicate SecondPattern(u: string) {
    HeadThenOptional(u, {'S', 's'}, Plural("econd"))
  }

  /** The unit group of the quantity+unit regex, as one alternation. */
  predicate UnitPattern(u: string) {
    || YearPattern(u) || MonthPattern(u) || WeekPattern(u) || DayPattern(u)
    || HourPattern(u) || MinutePattern(u) || SecondPattern(u)
  }

  // ---------------------------------------------------------------------
  // Each alternative denotes a finite set of spellings
  // ---------------------------------------------------------------------

  lemma YearPatternLanguage(u: string)
    ensures YearPattern(u) <==> u in YearSpellings
  {
    assert "ear" + "s" == "ears";
    if YearPattern(u) {
      assert u == [u[0]] + u[1..];
      assert ['y'] + "" == "y" && ['Y'] + "" == "Y";
      assert ['y'] + "ear" == "year" && ['y'] + "ears" == "years";
      assert ['Y'] + "ear" == "Year" && ['Y'] + "ears" == "Years";
    }
  }

  lemma WeekPatternLanguage(u: string)
    ensures WeekPattern(u) <==> u in WeekSpellings + {"W"}
  {
    assert "eek" + "s" == "eeks";
    if WeekPattern(u) {
      assert u == [u[0]] + u[1..];
      assert ['w'] + "" == "w" && ['W'] + "" == "W";
      assert ['w'] + "eek" == "week" && ['w'] + "eeks" == "weeks";
      assert ['W'] + "eek" == "Week" && ['W'] + "eeks" == "Weeks";
    }
  }

  lemma DayPatternLanguage(u: string)
    ensures DayPattern(u) <==> u in DaySpellings + {"D"}
  {
    assert "ay" + "s" == "ays";
    if DayPattern(u) {
      assert u == [u[0]] + u[1..];
      assert ['d'] + "" == "d" && ['D'] + "" == "D";
      assert ['d'] + "ay" == "day" && ['d'] + "ays" == "days";
      assert ['D'] + "ay" == "Day" && ['D'] + "ays" == "Days";
    }
  }

  lemma HourPatternLanguage(u: string)
    ensures HourPattern(u) <==> u in HourSpellings + {"H"}
  {
    assert "our" + "s" == "ours";
    if HourPattern(u) {
      assert u == [u[0]] + u[1..];
      assert ['h'] + "" == "h" && ['H'] + "" == "H";
      assert ['h'] + "our" == "hour" && ['h'] + "ours" == "hours";
      assert ['H'] + "our" == "Hour" && ['H'] + "ours" == "Hours";
    }
  }

  lemma SecondPatternLanguage(u: string)
    ensures SecondPattern(u) <==> u in SecondSpellings + {"S"}
  {
    assert "econd" + "s" == "econds";
    if SecondPattern(u) {
      assert u == [u[0]] + u[1..];
      assert ['s'] + "" == "s" && ['S'] + "" == "S";
      assert ['s'] + "econd" == "second" && ['s'] + "econds" == "seconds";
      assert ['S'] + "econd" == "Second" && ['S'] + "econds" == "Seconds";
    }
  }

  lemma MonthPatternLanguage(u: string)
    ensures MonthPattern(u) <==> u in MonthSpellings
  {
    assert "month" + "s" == "months" && "onth" + "s" == "onths";
    if HeadThenOptional(u, {'M'}, Plural("onth")) {
      assert u == [u[0]] + u[1..];
      assert ['M'] + "" == "M";
      assert ['M'] + "onth" == "Month" && ['M'] + "onths" == "Months";
    }
  }

  lemma MinutePatternLanguage(u: string)
    ensures MinutePattern(u) <==> u in MinuteSpellings
  {
    assert "Minute" + "s" == "Minutes" && "inute" + "s" == "inutes";
    if HeadThenOptional(u, {'m'}, Plural("inute")) {
      assert u == [u[0]] + u[1..];
      assert ['m'] + "" == "m";
      assert ['m'] + "inute" == "minute" && ['m'] + "inutes" == "minutes";
    }
  }

  /** The regex's unit alternation accepts exactly the lookup's spellings
      and the four capital abbreviations. */
  lemma UnitPatternLanguage(u: string)
    ensures UnitPattern(u) <==> u in Spellings + CapitalAbbreviations
  {
    YearPatternLanguage(u);
    MonthPatternLanguage(u);
    WeekPatternLanguage(u);
    DayPatternLanguage(u);
    HourPatternLanguage(u);
    MinutePatternLanguage(u);
    SecondPatternLanguage(u);
  }

  lemma FamilySizes()
    ensures |YearSpellings| == 6
    ensures |MonthSpellings| == 5 && |WeekSpellings| == 5 && |DaySpellings| == 5
    ensures |HourSpellings| == 5 && |MinuteSpellings| == 5 && |SecondSpellings| == 5
  {
  }

  /** No spelling of months is listed under an earlier unit. */
  lemma MonthSpellingsAreNew()
    ensures MonthSpellings !! YearSpellings
  {
  }

  /** No spelling of weeks is listed under an earlier unit. */
  lemma WeekSpellingsAreNew()
    ensures WeekSpellings !! YearSpellings && WeekSpellings !! MonthSpellings
  {
  }

  /** No spelling of days is listed under an earlier unit. */
  lemma DaySpellingsAreNew()
    ensures DaySpellings !! YearSpellings && DaySpellings !! MonthSpellings && DaySpellings !! WeekSpellings
  {
  }

  /** No spelling of hours is listed under an earlier unit. */
  lemma HourSpellingsAreNew()
    ensures HourSpellings !! YearSpellings && HourSpellings !! MonthSpellings && HourSpellings !! WeekSpellings && HourSpellings !! DaySpellings
  {
  }

  /** No spelling of minutes is listed under an earlier unit. */
  lemma MinuteSpellingsAreNew()
    ensures MinuteSpellings !! YearSpellings && MinuteSpellings !! MonthSpellings && MinuteSpellings !! WeekSpellings && MinuteSpellings !! DaySpellings && MinuteSpellings !! HourSpellings
  {
  }

  /** No spelling of seconds is listed under an earlier unit. */
  lemma SecondSpellingsAreNew()
    ensures SecondSpellings !! YearSpellings && SecondSpellings !! MonthSpellings && SecondSpellings !! WeekSpellings && SecondSpellings !! DaySpellings && SecondSpellings !! HourSpellings && SecondSpellings !! MinuteSpellings
  {
  }

  /** The lookup has 36 case labels, none repeated across units. */
  lemma SpellingCount()
    ensures |Spellings| == 36
  {
    FamilySizes();
    MonthSpellingsAreNew();
    WeekSpellingsAreNew();
    DaySpellingsAreNew();
    HourSpellingsAreNew();
    MinuteSpellingsAreNew();
    SecondSpellingsAreNew();
  }

  // ---------------------------------------------------------------------
  // The lookup itself, and what it means for the matcher's vocabulary
  // ---------------------------------------------------------------------

  /** `parseUnit`: the multiplier of a unit spelling, or `BadUnit` with
      the spelling itself as the culprit. */
  function ParseUnit(u: string): (r: Result<Duration>)
    ensures r.Err? ==> r.error == BadUnit(u)
  {
    if u in YearSpellings then Ok(OneYear())
    else if u in MonthSpellings then Ok(OneMonth())
    else if u in WeekSpellings then Ok(OneWeek())
    else if u in DaySpellings then Ok(OneDay())
    else if u in HourSpellings then Ok(OneHour())
    else if u in MinuteSpellings then Ok(OneMinute())
    else if u in SecondSpellings then Ok(OneSecond())
    else Err(BadUnit(u))
  }

  /** Each case label maps to the multiplier of its own unit: no label is
      caught by an earlier case of another unit. */
  lemma ParseUnitValues(u: string)
    ensures u in YearSpellings ==> ParseUnit(u) == Ok(OneYear())
    ensures u in MonthSpellings ==> ParseUnit(u) == Ok(OneMonth())
    ensures u in WeekSpellings ==> ParseUnit(u) == Ok(OneWeek())
    ensures u in DaySpellings ==> ParseUnit(u) == Ok(OneDay())
    ensures u in HourSpellings ==> ParseUnit(u) == Ok(OneHour())
    ensures u in MinuteSpellings ==> ParseUnit(u) == Ok(OneMinute())
    ensures u in SecondSpellings ==> ParseUnit(u) == Ok(OneSecond())
  {
    MonthSpellingsAreNew();
    WeekSpellingsAreNew();
    DaySpellingsAreNew();
    HourSpellingsAreNew();
    MinuteSpellingsAreNew();
    SecondSpellingsAreNew();
  }

  /** The lookup accepts exactly the 36 spellings. */
  lemma ParseUnitAcceptsSpellings(u: string)
    ensures ParseUnit(u).Ok? <==> u in Spellings
  {
  }

  /** The lookup against the regular expression's alternatives: it
      accepts exactly what the regex accepts except the capital one-letter
      forms of week, day, hour and second, and each regex alternative maps
      to its own unit. */
  lemma ParseUnitAgreesWithPattern(u: string)
    ensures ParseUnit(u).Ok? <==> UnitPattern(u) && u !in CapitalAbbreviations
  {
    UnitPatternLanguage(u);
    ParseUnitAcceptsSpellings(u);
    if u in CapitalAbbreviations {
      CapitalIsNoSpelling(u);
    }
  }

  lemma CapitalIsNoSpelling(u: string)
    requires u in CapitalAbbreviations
    ensures u !in Spellings
  {
    assert |u| == 1 && u[0] in {'W', 'D', 'H', 'S'};
    assert u !in YearSpellings && u !in MonthSpellings && u !in WeekSpellings;
    assert u !in DaySpellings && u !in HourSpellings;
    assert u !in MinuteSpellings && u !in SecondSpellings;
  }

  /** Each regex alternative that the lookup accepts maps to its own unit. */
  lemma ParseUnitFollowsPattern(u: string)
    ensures ParseUnit(u).Ok? && YearPattern(u) ==> ParseUnit(u).value == OneYear()
    ensures ParseUnit(u).Ok? && MonthPattern(u) ==> ParseUnit(u).value == OneMonth()
    ensures ParseUnit(u).Ok? && WeekPattern(u) ==> ParseUnit(u).value == OneWeek()
    ensures ParseUnit(u).Ok? && DayPattern(u) ==> ParseUnit(u).value == OneDay()
    ensures ParseUnit(u).Ok? && HourPattern(u) ==> ParseUnit(u).value == OneHour()
    ensures ParseUnit(u).Ok? && MinutePattern(u) ==> ParseUnit(u).value == OneMinute()
    ensures ParseUnit(u).Ok? && SecondPattern(u) ==> ParseUnit(u).value == OneSecond()
  {
    YearPatternLanguage(u);
    MonthPatternLanguage(u);
    WeekPatternLanguage(u);
    DayPatternLanguage(u);
    HourPatternLanguage(u);
    MinutePatternLanguage(u);
    SecondPatternLanguage(u);
  }

  lemma PluralLetters(stem: string)
    requires AllLetters(stem)
    ensures forall t :: t in Plural(stem) ==> AllLetters(t)
  {
    assert AllLetters(stem + "s");
  }

  lemma HeadThenOptionalLetters(u: string, heads: set<char>, stem: string)
    requires HeadThenOptional(u, heads, Plural(stem))
    requires forall c :: c in heads ==> IsLetter(c)
    requires AllLetters(stem)
    ensures AllLetters(u)
  {
    PluralLetters(stem);
    forall k | 0 <= k < |u|
      ensures IsLetter(u[k])
    {
      if k > 0 {
        assert u[k] == u[1..][k - 1];
      }
    }
  }

  /** Every unit the regex accepts is a non-empty run of ASCII letters, so
      it can neither start with a digit nor contain a space. */
  lemma UnitPatternIsLetters(u: string)
    requires UnitPattern(u)
    ensures |u| > 0 && AllLetters(u)
  {
    if YearPattern(u) {
      HeadThenOptionalLetters(u, {'y', 'Y'}, "ear");
    } else if HeadThenOptional(u, {'M'}, Plural("onth")) {
      HeadThenOptionalLetters(u, {'M'}, "onth");
    } else if MonthPattern(u) {
      PluralLetters("month");
    } else if WeekPattern(u) {
      HeadThenOptionalLetters(u, {'W', 'w'}, "eek");
    } else if DayPattern(u) {
      HeadThenOptionalLetters(u, {'D', 'd'}, "ay");
    } else if HourPattern(u) {
      HeadThenOptionalLetters(u, {'H', 'h'}, "our");
    } else if HeadThenOptional(u, {'m'}, Plural("inute")) {
      HeadThenOptionalLetters(u, {'m'}, "inute");
    } else if MinutePattern(u) {
      PluralLetters("Minute");
    } else {
      HeadThenOptionalLetters(u, {'S', 's'}, "econd");
    }
  }
}
