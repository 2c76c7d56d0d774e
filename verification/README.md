# relatives: a Dafny model of the relative-duration parser

`relatives` turns a loose English phrase such as "2 days ago",
"1 day 2 hours" or "yesterday" into a signed `time.Duration`. The whole
package is one pure function, `Parse`, and three pieces behind it:

- **The unit lookup `parseUnit`.** A switch over 36 fixed spellings. Each
  maps to one of seven fixed multipliers: year = 365 days, month = 30 days,
  week = 7 days, day = 24 hours, hour, minute, second.
- **The rule list `ReRe`.** Three rules, each pairing a regular expression
  with a combinator:
  - quantity+unit, `\b(\d+)\s*(unit)\b`, adds quantity times unit to the
    accumulator;
  - `\bago\b` negates a non-zero accumulator and fails on a zero one;
  - `\byesterday\b` replaces the accumulator with minus one day.
- **The fold in `Parse`.** The empty input is zero. Otherwise the rules
  run in order, each over the whole input. Every match of a rule is folded,
  left to right, into one accumulator. The first combinator error is
  returned, with no partial result. A non-empty input that no rule matches
  is an error.

## Modules

| module | file | what it holds |
|---|---|---|
| `Durations` | durations.dfy | `Duration` as an unbounded count of nanoseconds, and the seven unit constants |
| `Results` | results.dfy | the error kinds (`PartCount`, `BadQuantity`, `BadUnit`, `DanglingAgo`, `NoMatch`), `Option` and a `Result` usable with `:-` |
| `Chars` | chars.dfy | the RE2 ASCII classes: `\d`, `\s` = `[\t\n\f\r ]`, word characters `[0-9A-Za-z_]`, `\b`, and greedy runs |
| `Quantity` | quantity.dfy | `strconv.Atoi` with its int64 range check, and its inverse for the round trip |
| `Units` | units.dfy | `parseUnit` as seven spelling sets. The regex unit alternatives are transcribed separately, one predicate per constant. Lemmas say where the two agree and where they differ. |
| `Scanner` | scanner.dfy | a hand-written scanner that stands in for the three regexes and `FindAllStringSubmatch`. Each matcher is given twice: as a predicate that reads the regex literally, and as a scanning function. Lemmas prove the two agree. |
| `Relatives` | relatives.dfy | the combinators, the rule list and `Parse` |
| `Folds` | folds.dfy | what each pass of the fold computes, and `Parse` in closed form |
| `Phrases`, `PhraseParse` | phrases.dfy | phrases as token lists (amounts and words separated by single spaces). On such a phrase the three scanners find exactly the amounts, the "ago" words and the "yesterday" words, so `Parse` is a function of the tokens. |
| `Cases` | cases.dfy | the inputs of the table-driven test in relatives_test.go, and inputs that reach each error `Parse` can return (bad quantity, bad unit, dangling "ago", no match; the group-count error cannot occur, by `Folds.ParseNeverPartCount`), as facts about `Parse` |

The regex engine is replaced by the scanner:

- A quantity+unit match at position `i` is:
  - the maximal digit run starting at a word boundary;
  - then all the whitespace after it;
  - then the whole word-character run after that, which must be one of the
    unit alternatives.

  Because every unit alternative is a word of letters, `\b` after the
  unit forces the unit to be that whole run. `Scanner.MatchAtSound` and
  `Scanner.MatchAtComplete` prove that this is exactly a match of
  `\b(\d+)\s*(unit)\b`.
- The "ago" and "yesterday" rules are whole-word occurrences of the
  literal word.
- Both scans are leftmost-first and resume after each match, as
  `FindAllStringSubmatch(in, -1)` does.

### Behaviour worth knowing

- **"yesterday".** The combinator ignores the accumulator and returns
  minus one day (relatives.go:61): "yesterday" replaces the accumulator
  rather than adding to it. So "1 hour yesterday" is minus one day, not
  minus 23 hours. See `Relatives.YesterdayCombinator`,
  `Folds.FoldYesterday` and `Cases.AmountThenYesterday`.
- **Capital one-letter units.** The regex accepts "W", "D", "H" and "S",
  but the lookup does not list them. An input such as "1D" therefore
  matches the quantity+unit rule and then fails with a bad unit; it is not
  a no-match. `Units.ParseUnitAgreesWithPattern` states the exact
  difference; `Cases.CapitalD` shows its effect on `Parse`.

## Model

| member | source | states |
|---|---|---|
| Durations.OneSecond | relatives.go:22 | a constant: one second, 10^9 nanoseconds as in Go's `time.Second` |
| Durations.OneMinute | relatives.go:21 | a constant: 60 seconds |
| Durations.OneHour | relatives.go:20 | a constant: 60 minutes |
| Durations.OneDay | relatives.go:19 | a constant: 24 hours |
| Durations.OneWeek | relatives.go:18 | a constant: 7 days of 24 hours |
| Durations.OneMonth | relatives.go:17 | a constant: 30 days of 24 hours |
| Durations.OneYear | relatives.go:16 | a constant: 365 days of 24 hours |
| Units.ParseUnit | relatives.go:116-135 | an unknown spelling fails with a bad-unit error that names the spelling itself |
| Units.ParseUnitAcceptsSpellings | relatives.go:117-134 | the lookup succeeds exactly on the union of the seven case-label lists |
| Units.ParseUnitValues | relatives.go:117-131 | every case label maps to the multiplier of its own unit (year, month, week, day, hour, minute, second) |
| Units.FamilySizes | relatives.go:118-130 | six year labels and five labels for each other unit |
| Units.MonthSpellingsAreNew | relatives.go:118-120 | no month label repeats a year label |
| Units.WeekSpellingsAreNew | relatives.go:118-122 | no week label repeats an earlier unit's label |
| Units.DaySpellingsAreNew | relatives.go:118-124 | no day label repeats an earlier unit's label |
| Units.HourSpellingsAreNew | relatives.go:118-126 | no hour label repeats an earlier unit's label |
| Units.MinuteSpellingsAreNew | relatives.go:118-128 | no minute label repeats an earlier unit's label |
| Units.SecondSpellingsAreNew | relatives.go:118-130 | no second label repeats an earlier unit's label |
| Units.SpellingCount | relatives.go:117-134 | the lookup accepts exactly 36 distinct spellings |
| Units.YearPattern | relatives.go:26 | `[yY](?:ears?)?` read literally, as a predicate on words; `Units.YearPatternLanguage` states the words it accepts |
| Units.YearPatternLanguage | relatives.go:26 | `[yY](?:ears?)?` matches exactly the six year labels |
| Units.MonthPattern | relatives.go:27 | `months?\|M(?:onths?)?` read literally, as a predicate on words; `Units.MonthPatternLanguage` states the words it accepts |
| Units.MonthPatternLanguage | relatives.go:27 | `months?\|M(?:onths?)?` matches exactly the five month labels |
| Units.WeekPattern | relatives.go:28 | `[Ww](?:eeks?)?` read literally, as a predicate on words; `Units.WeekPatternLanguage` states the words it accepts |
| Units.WeekPatternLanguage | relatives.go:28 | `[Ww](?:eeks?)?` matches the five week labels and "W" |
| Units.DayPattern | relatives.go:29 | `[Dd](?:ays?)?` read literally, as a predicate on words; `Units.DayPatternLanguage` states the words it accepts |
| Units.DayPatternLanguage | relatives.go:29 | `[Dd](?:ays?)?` matches the five day labels and "D" |
| Units.HourPattern | relatives.go:30 | `[Hh](?:ours?)?` read literally, as a predicate on words; `Units.HourPatternLanguage` states the words it accepts |
| Units.HourPatternLanguage | relatives.go:30 | `[Hh](?:ours?)?` matches the five hour labels and "H" |
| Units.MinutePattern | relatives.go:31 | `m(?:inutes?)?\|Minutes?` read literally, as a predicate on words; `Units.MinutePatternLanguage` states the words it accepts |
| Units.MinutePatternLanguage | relatives.go:31 | `m(?:inutes?)?\|Minutes?` matches exactly the five minute labels |
| Units.SecondPattern | relatives.go:32 | `[Ss](?:econds?)?` read literally, as a predicate on words; `Units.SecondPatternLanguage` states the words it accepts |
| Units.SecondPatternLanguage | relatives.go:32 | `[Ss](?:econds?)?` matches the five second labels and "S" |
| Units.UnitPattern | relatives.go:37-44 | the unit group as one alternation of the seven constants; `Units.UnitPatternLanguage` states the language it denotes |
| Units.UnitPatternLanguage | relatives.go:37-44 | the unit group accepts exactly the lookup's 36 spellings plus "W", "D", "H" and "S" |
| Units.ParseUnitAgreesWithPattern | relatives.go:116-135 | the lookup succeeds exactly on what the regex's unit group accepts, minus the four capital one-letter forms |
| Units.ParseUnitFollowsPattern | relatives.go:117-131 | a spelling that the lookup accepts and that matches one regex alternative maps to that alternative's unit |
| Units.UnitPatternIsLetters | relatives.go:26-32 | every unit alternative is a non-empty word of ASCII letters |
| Quantity.Atoi | relatives.go:70-73 | on a digit string: succeeds exactly when the value fits in int64, and then returns that decimal value; any failure is a bad-quantity error naming the text; a success is always in the int64 range |
| Quantity.DecimalText | relatives.go:70 | the decimal text of `n` is a non-empty digit string whose value is `n`, with no leading zero |
| Quantity.AtoiFormatInt | relatives.go:70 | `Atoi` reads back the decimal text of every int64 |
| Scanner.IsQuantityUnitMatch | relatives.go:37-44 | `\b(\d+)\s*(unit)\b` read literally: word boundary, digits, whitespace, a unit word, word boundary; `Scanner.MatchAtSound` and `Scanner.MatchAtComplete` prove the scanner finds exactly these matches |
| Scanner.MatchAt | relatives.go:37-44 | a match found at `i` starts at `i` and is non-empty |
| Scanner.MatchAtSound | relatives.go:37-44 | whatever the scanner finds at `i` is a match of `\b(\d+)\s*(unit)\b` read literally |
| Scanner.MatchAtComplete | relatives.go:37-44 | every literal match of the regex is the one the scanner finds at its start, so a position has at most one match |
| Scanner.NoMatchInside | relatives.go:37-44 | no match starts strictly inside another |
| Scanner.ScanFrom | relatives.go:94 | no contract of its own: `Scanner.ScanFromSpec` states that it returns every match at or after `i`, in order and without overlap |
| Scanner.ScanFromSpec | relatives.go:94 | the scan returns matches that start at or after `i`, every such match, in order and without overlap |
| Scanner.ScanFromMatch | relatives.go:94 | where a match starts, the scan reports it and resumes at its end |
| Scanner.ScanSkipsNonDigits | relatives.go:94 | a stretch without digits contributes nothing to the scan |
| Scanner.AllSubmatches | relatives.go:94 | one entry per match: the matched text, the quantity group, the unit group |
| Scanner.IsWordMatch | relatives.go:49 | `\bw\b` read literally for a literal word `w` ("ago" here, "yesterday" at relatives.go:60); `Scanner.WordScanFromSpec` proves the word scan finds exactly these occurrences |
| Scanner.NoWordMatchInside | relatives.go:49 | no whole-word occurrence of a literal starts strictly inside another |
| Scanner.WordScanFrom | relatives.go:49 | no contract of its own: `Scanner.WordScanFromSpec` states that it returns every whole-word occurrence at or after `i`, in order and without overlap |
| Scanner.WordScanFromSpec | relatives.go:49 | the word scan returns whole-word occurrences at or after `i`, every one of them, in order and without overlap |
| Scanner.WordScanFromMatch | relatives.go:49 | where the word occurs, the scan reports it and resumes after it |
| Scanner.WordScanSkips | relatives.go:60 | a stretch with no whole-word occurrence contributes nothing |
| Scanner.OtherWordIsNoMatch | relatives.go:60 | a maximal word other than the literal is no occurrence of it |
| Relatives.AgoCombinator | relatives.go:50-56 | fails with a dangling-"ago" error exactly when the accumulator is zero; otherwise returns its non-zero negation |
| Relatives.YesterdayCombinator | relatives.go:61 | no contract of its own: `Folds.FoldYesterday` states that any run of "yesterday" matches leaves minus one day, whatever the accumulator held |
| Relatives.FoldRules | relatives.go:93-107 | no contract of its own: `Relatives.FoldRulesFound` states its found flag and errors; `Folds.FoldRulesUnrolled` states that over the rule list it is the three passes in order |
| Relatives.Parse | relatives.go:83-114 | no contract of its own: `Folds.ParseIsSpec` gives its closed form on every input, `Relatives.ParseReportsNoMatch` its no-match and empty-input cases, `Folds.ParseNeverPartCount` rules out the group-count error, and `PhraseParse.ParsePhrase` its value on every phrase |
| Relatives.UnitWordsAreLetters | relatives.go:37-44 | the unit group only accepts words of letters, which is all the scanner assumes of it |
| Relatives.ParseQuantityAndUnit | relatives.go:65-81 | the checks run in order: wrong group count, then bad quantity naming the quantity text, then bad unit naming the unit text; when all pass, the accumulator plus quantity times unit |
| Relatives.Rule.FindAll | relatives.go:94 | every quantity+unit entry holds three strings (the text and its two groups); every "ago" or "yesterday" entry holds only the text |
| Relatives.Rule.Combine | relatives.go:45-61 | each rule's `parse` field, applied to one match's groups at relatives.go:100; its three cases are stated by `Relatives.ParseQuantityAndUnit`, `Relatives.AgoCombinator` and `Folds.FoldYesterday`, and `Folds.FoldRulesUnrolled` puts them in rule order |
| Relatives.FoldMatches | relatives.go:99-106 | no matches leave the accumulator as it is; no combinator reports a no-match error |
| Relatives.FoldRulesFound | relatives.go:93-107 | the found flag is set exactly when some rule matched; a failure implies some rule matched and is never a no-match |
| Relatives.ParseReportsNoMatch | relatives.go:83-114 | the empty input is zero; the result is a no-match error exactly when the input is non-empty and none of the three rules matches |
| Folds.QuantityAndUnitShifts | relatives.go:65-81 | the combinator adds a term that does not depend on the accumulator, and fails the same way whatever the accumulator |
| Folds.FoldQuantityAndUnit | relatives.go:99-106 | the quantity+unit pass adds the sum of its terms to the accumulator, or fails with the first failing term's error |
| Folds.FoldAgo | relatives.go:48-57 | k >= 1 "ago" matches fail on a zero accumulator and otherwise leave (-1)^k times it |
| Folds.FoldYesterday | relatives.go:59-62 | k >= 1 "yesterday" matches leave exactly minus one day, whatever the accumulator held |
| Folds.FoldRulesUnrolled | relatives.go:93-107 | over the rule list `Relatives.ReRe` (the three rules of relatives.go:35-63, in that order) the rule loop is the quantity+unit pass, then the "ago" pass, then the "yesterday" pass, each over the whole input |
| Folds.ThreePassesOutcome | relatives.go:93-113 | the three passes and the found check give the closed form: error of the first bad term, dangling "ago", minus one day, no-match, or the sign-flipped total |
| Folds.ParseIsSpec | relatives.go:83-114 | `Parse` equals the closed form on every input |
| Folds.TermsTotalNoPartCount | relatives.go:66-68 | terms whose entries all carry both groups never fail the group-count check |
| Folds.ParseNeverPartCount | relatives.go:66-68 | `Parse` never returns the group-count error: the quantity+unit regex always captures two groups |
| Phrases.AmountSubmatches | relatives.go:94 | each amount of a phrase contributes one three-part submatch list |
| Phrases.ScanPhrase | relatives.go:94 | on a phrase, the quantity+unit scan reports exactly the phrase's amounts, in order |
| Phrases.WordScanPhrase | relatives.go:49 | on a phrase, the word scan finds as many occurrences as the phrase has copies of that word |
| PhraseParse.NoAmountSubmatches | relatives.go:109-111 | a phrase yields no quantity+unit match exactly when it has no amount |
| PhraseParse.AmountsTotalIsTermsTotal | relatives.go:65-81 | the amounts' total is the total of the terms the quantity+unit matches give |
| PhraseParse.FindAllPhrase | relatives.go:93-94 | the three matchers over a phrase find its amounts, its "ago" words and its "yesterday" words |
| PhraseParse.ParsePhrase | relatives.go:83-114 | `Parse` of a joined phrase is the phrase's value, stated over its tokens |
| PhraseParse.OutcomeOfPhrase | relatives.go:93-113 | the closed form over the phrase's matches is the phrase's value |
| PhraseParse.ParseAmounts | relatives.go:99-106 | a non-empty phrase of amounts parses to their sum, or to the first failing amount's error |
| PhraseParse.ParseAmountsAgo | relatives.go:48-57 | amounts followed by "ago" parse to their sum negated, or to a dangling-"ago" error when the sum is zero |
| PhraseParse.ParseAmountsAgoError | relatives.go:99-103 | amounts one of which fails, followed by "ago", parse to that amount's error |
| PhraseParse.AgoAppended | relatives.go:49 | a trailing "ago" adds nothing to the amounts' total and is the phrase's only "ago" and no "yesterday" |
| PhraseParse.ParseYesterday | relatives.go:59-62 | a phrase with a "yesterday", no "ago" and valid amounts parses to minus one day, whatever the amounts add up to |
| PhraseParse.ParseOtherWords | relatives.go:109-111 | a phrase of words none of which is "ago" or "yesterday" is a no-match error carrying the input |
| PhraseParse.OccurrencesPositive | relatives.go:49 | a word is counted at least once exactly when the phrase contains it |
| Cases.EmptyInput | relatives_test.go:14 | `Parse("")` is zero |
| Cases.YearLetter | relatives_test.go:15 | `Parse("1y")` is one year |
| Cases.YearWord | relatives_test.go:16 | `Parse("1year")` is one year |
| Cases.YearsWord | relatives_test.go:17 | `Parse("1years")` is one year |
| Cases.YearCapitalWord | relatives_test.go:18 | `Parse("1Year")` is one year |
| Cases.YearsCapitalWord | relatives_test.go:19 | `Parse("1Years")` is one year |
| Cases.MonthLetter | relatives_test.go:21 | `Parse("1M")` is one month |
| Cases.MonthWord | relatives_test.go:22 | `Parse("1month")` is one month |
| Cases.MonthsWord | relatives_test.go:23 | `Parse("1months")` is one month |
| Cases.MonthCapitalWord | relatives_test.go:24 | `Parse("1Month")` is one month |
| Cases.MonthsCapitalWord | relatives_test.go:25 | `Parse("1Months")` is one month |
| Cases.MinuteLetter | relatives_test.go:27 | `Parse("1m")` is one minute |
| Cases.ThreeHours | relatives_test.go:29 | `Parse("3 Hours")` is three hours |
| Cases.DayAndHours | relatives_test.go:30 | `Parse("1 day 2 hours")` is a day plus two hours |
| Cases.YearAndSeconds | relatives_test.go:31 | `Parse("1 year 30s")` is a year plus thirty seconds |
| Cases.MixedSpacing | relatives_test.go:32 | `Parse("10 y 1   M 1m")` is ten years plus a month plus a minute |
| Cases.OneDayAgo | relatives_test.go:34 | `Parse("1 day ago")` is minus one day |
| Cases.TwoDAgo | relatives_test.go:35 | `Parse("2d ago")` is minus two days |
| Cases.TwoDaysAgo | relatives_test.go:36 | `Parse("2 days ago")` is minus two days |
| Cases.Yesterday | relatives_test.go:37 | `Parse("yesterday")` is minus one day |
| Cases.TwoYesterdays | relatives.go:61 | `Parse("yesterday yesterday")` is still minus one day |
| Cases.AmountThenYesterday | relatives.go:61 | `Parse("1 hour yesterday")` is minus one day: "yesterday" replaces the hour |
| Cases.AgoAlone | relatives.go:51-53 | `Parse("ago")` is a dangling-"ago" error, not a no-match |
| Cases.ZeroDaysAgo | relatives.go:51-53 | `Parse("0 days ago")` is a dangling-"ago" error |
| Cases.ZeroDays | relatives.go:105 | `Parse("0 days")` is zero without error, because a match was found |
| Cases.NoRuleMatches | relatives.go:109-111 | `Parse("banana")` is a no-match error carrying the input |
| Cases.WholeWordUnit | relatives.go:44 | `Parse("1dayz")` is a no-match error: the unit must be the whole word |
| Cases.QuantityOverflows | relatives.go:70-73 | `strconv.Atoi` rejects "9223372036854775808", one past the largest int64, with a bad-quantity error |
| Cases.QuantityTooBig | relatives.go:70-73 | `Parse("9223372036854775808 days")` is a bad-quantity error naming the quantity text |
| Cases.CapitalDUnit | relatives.go:124 | the lookup rejects "D" with a bad-unit error |
| Cases.CapitalD | relatives.go:75-78 | `Parse("1D")` is a bad-unit error for "D": the regex accepts it, the lookup does not |

## Left out

- `fmt.Printf` of the input (relatives.go:84): output only, with no effect on the result.
- The `regexp` engine: replaced by the scanner above. The scanner is proved equal to a literal reading of each pattern, not to RE2 itself.
- Error message text and `%w` wrapping (relatives.go:52, 67-77, 102, 110, 134): errors are kinds that carry the offending text, not strings.
- int64 wrap-around of `time.Duration(quantity)*unit` (relatives.go:80), of the sum of terms and of `-val` (relatives.go:55): durations are unbounded integers. Only `strconv.Atoi`'s range check is modelled. So a phrase such as "300 years", whose value exceeds the int64 range, is modelled by its mathematical value, not by the wrapped one. Wrap-around can also change the outcome, not only the value: in Go, "36028797018963968s" wraps to zero (2^55 times 10^9 is a multiple of 2^64), so "36028797018963968s ago" fails with the dangling-"ago" error, where the model returns the negated mathematical value.
- `ReRe` is an exported package-level variable (relatives.go:35), so a caller can reassign or extend it and change what `Parse` does. The model fixes it as the constant `Relatives.ReRe`, holding the three rules as declared.
- `Format` (relatives.go:137-139): a stub that returns the empty string.
- The Go test loop (relatives_test.go:40-54): its table of inputs is restated as the `Cases` lemmas.
- Non-ASCII input: the character classes are the ASCII ones RE2 uses. Go measures the empty-input check in bytes and the model measures it in characters; both are zero only for the empty string.
