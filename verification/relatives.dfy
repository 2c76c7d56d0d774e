/** The parser: the rule list and `Parse`. Each rule pairs a matcher with a
    combinator that folds one match into the running duration; `Parse`
    runs the rules in order, each over the whole input, and folds every
    match of a rule, left to right, into one accumulator. */
module Relatives {
  import opened Durations
  import opened Results
  import opened Chars
  import Units
  import Quantity
  import Scanner

  /** The unit alternation of the quantity+unit regex only accepts words
      of letters, which is what the scanner needs to know of it. */
  lemma UnitWordsAreLetters()
    ensures Scanner.OnlyLetterWords(Units.UnitPattern)
  {
    forall u | Units.UnitPattern(u)
      ensures |u| > 0 && AllLetters(u)
    {
      Units.UnitPatternIsLetters(u);
    }
  }

  // ---------------------------------------------------------------------
  // The combinators
  // ---------------------------------------------------------------------

  /** `parseQuantityAndUnit`: add quantity times unit to the accumulator.
      The checks run in order (number of groups, quantity, unit) and the
      first that fails decides the error. */
  function ParseQuantityAndUnit(parts: seq<string>, val: Duration): (r: Result<Duration>)
    ensures |parts| != 2 ==> r == Err(PartCount(|parts|))
    ensures |parts| == 2 && Quantity.Atoi(parts[0]).Err? ==> r == Err(BadQuantity(parts[0]))
    ensures |parts| == 2 && Quantity.Atoi(parts[0]).Ok? && Units.ParseUnit(parts[1]).Err? ==> r == Err(BadUnit(parts[1]))
    ensures |parts| == 2 && Quantity.Atoi(parts[0]).Ok? && Units.ParseUnit(parts[1]).Ok? ==>
              r == Ok(val + Quantity.Atoi(parts[0]).value * Units.ParseUnit(parts[1]).value)
  {
    if |parts| != 2 then Err(PartCount(|parts|))
    else
      var quantity :- Quantity.Atoi(parts[0]);
      var unit :- Units.ParseUnit(parts[1]);
      Ok(val + quantity * unit)
  }

  /** The "ago" combinator: a zero accumulator is an error, any other is
      negated. */
  function AgoCombinator(val: Duration): (r: Result<Duration>)
    ensures r.Err? <==> val == 0
    ensures r.Err? ==> r.error == DanglingAgo
    ensures r.Ok? ==> r.value != 0 && r.value + val == 0
  {
    if val == 0 then Err(DanglingAgo) else Ok(-val)
  }

  /** The "yesterday" combinator: the accumulator is replaced, not added
      to. */
  function YesterdayCombinator(val: Duration): Result<Duration> {
    Ok(-OneDay())
  }

  // ---------------------------------------------------------------------
  // The rules
  // ---------------------------------------------------------------------

  datatype Rule = QuantityAndUnit | Ago | Yesterday {

    /** `FindAllStringSubmatch(in, -1)`: one entry per match, leftmost
        first; an entry is the matched text followed by the groups. */
    function FindAll(s: string): (ms: seq<seq<string>>)
      ensures forall n :: 0 <= n < |ms| ==> |ms[n]| == (if QuantityAndUnit? then 3 else 1)
    {
      match this
      case QuantityAndUnit =>
        var found := Scanner.ScanFrom(s, 0, Units.UnitPattern);
        Scanner.AllSubmatches(found)
      case Ago =>
        var found := Scanner.WordScanFrom(s, "ago", 0);
        seq(|found|, n => ["ago"])
      case Yesterday =>
        var found := Scanner.WordScanFrom(s, "yesterday", 0);
        seq(|found|, n => ["yesterday"])
    }

    /** The rule's combinator, given the groups of one match. */
    function Combine(groups: seq<string>, val: Duration): Result<Duration> {
      match this
      case QuantityAndUnit => ParseQuantityAndUnit(groups, val)
      case Ago => AgoCombinator(val)
      case Yesterday => YesterdayCombinator(val)
    }
  }

  /** The rule list, in the order `Parse` runs it. */
  const ReRe: seq<Rule> := [QuantityAndUnit, Ago, Yesterday]

  // ---------------------------------------------------------------------
  // The fold
  // ---------------------------------------------------------------------

  /** Fold the matches of one rule into the accumulator, left to right,
      stopping at the first combinator error. No combinator reports
      `NoMatch`. */
  function FoldMatches(rule: Rule, ms: seq<seq<string>>, val: Duration): (r: Result<Duration>)
    requires forall n :: 0 <= n < |ms| ==> |ms[n]| >= 1
    ensures ms == [] ==> r == Ok(val)
    ensures r.Err? ==> !r.error.NoMatch?
  {
    if ms == [] then Ok(val)
    else
      var v :- rule.Combine(ms[0][1..], val);
      FoldMatches(rule, ms[1..], v)
  }

  /** Run `rules` in order over the whole input, threading the accumulator
      and whether any rule has matched so far. */
  function FoldRules(rules: seq<Rule>, s: string, val: Duration, found: bool): Result<(Duration, bool)> {
    if rules == [] then Ok((val, found))
    else
      var ms := rules[0].FindAll(s);
      var v :- FoldMatches(rules[0], ms, val);
      FoldRules(rules[1..], s, v, found || ms != [])
  }

  /** The fold reports a match exactly when some rule found one, and it
      fails only in a combinator, so never with `NoMatch`. */
  lemma {:induction false} FoldRulesFound(rules: seq<Rule>, s: string, val: Duration, found: bool)
    ensures FoldRules(rules, s, val, found).Ok? ==>
              (FoldRules(rules, s, val, found).value.1 <==> found || exists n :: 0 <= n < |rules| && rules[n].FindAll(s) != [])
    ensures FoldRules(rules, s, val, found).Err? ==>
              !FoldRules(rules, s, val, found).error.NoMatch? && exists n :: 0 <= n < |rules| && rules[n].FindAll(s) != []
  {
    if rules != [] {
      var ms := rules[0].FindAll(s);
      var fm := FoldMatches(rules[0], ms, val);
      if fm.Ok? {
        FoldRulesFound(rules[1..], s, fm.value, found || ms != []);
        assert FoldRules(rules, s, val, found) == FoldRules(rules[1..], s, fm.value, found || ms != []);
        assert forall n :: 0 < n < |rules| ==> rules[n] == rules[1..][n - 1];
      }
    }
  }

  /** `Parse`: the signed duration a relative-time phrase denotes. The
      empty input is zero; otherwise a non-empty input in which no rule
      matches is `NoMatch`, and a combinator error is returned as it is,
      without a partial duration. */
  function Parse(s: string): Result<Duration> {
    if |s| == 0 then Ok(0)
    else
      var folded :- FoldRules(ReRe, s, 0, false);
      if !folded.1 then Err(NoMatch(s)) else Ok(folded.0)
  }

  /** The empty input is zero, and `Parse` reports `NoMatch` exactly when
      the input is non-empty and none of the three rules matches it. */
  lemma ParseReportsNoMatch(s: string)
    ensures |s| == 0 ==> Parse(s) == Ok(0)
    ensures Parse(s) == Err(NoMatch(s)) <==> |s| > 0 && forall n :: 0 <= n < |ReRe| ==> ReRe[n].FindAll(s) == []
  {
    FoldRulesFound(ReRe, s, 0, false);
  }
}
