/** What the fold computes, rule by rule, and `Parse` in closed form:
    the quantity+unit pass sums its terms, each "ago" flips the sign of a
    non-zero total, and any "yesterday" replaces the total with minus one
    day. */
module Folds {
  import opened Durations
  import opened Results
  import Quantity
  import Units
  import opened Relatives

  /** The quantity+unit terms summed independently of any accumulator:
      the first failing term's error, or the sum of all terms. */
  function TermsTotal(ms: seq<seq<string>>): Result<Duration>
    requires forall n :: 0 <= n < |ms| ==> |ms[n]| >= 1
  {
    if ms == [] then Ok(0)
    else
      var term :- ParseQuantityAndUnit(ms[0][1..], 0);
      var rest :- TermsTotal(ms[1..]);
      Ok(term + rest)
  }

  /** `v` after `flips` sign changes: itself after an even number, its
      negation after an odd number. */
  function Flip(flips: nat, v: int): int {
    if flips % 2 == 0 then v else -v
  }

  /** A quantity+unit term does not depend on the accumulator it is added
      to. */
  lemma QuantityAndUnitShifts(parts: seq<string>, val: Duration)
    ensures ParseQuantityAndUnit(parts, val).Ok? <==> ParseQuantityAndUnit(parts, 0).Ok?
    ensures ParseQuantityAndUnit(parts, val).Ok? ==>
              ParseQuantityAndUnit(parts, val).value == val + ParseQuantityAndUnit(parts, 0).value
    ensures ParseQuantityAndUnit(parts, val).Err? ==> ParseQuantityAndUnit(parts, val) == ParseQuantityAndUnit(parts, 0)
  {
  }

  /** The quantity+unit pass adds the sum of its terms to the accumulator,
      or fails with the first failing term's error. */
  lemma {:induction false} FoldQuantityAndUnit(ms: seq<seq<string>>, val: Duration)
    requires forall n :: 0 <= n < |ms| ==> |ms[n]| >= 1
    ensures FoldMatches(QuantityAndUnit, ms, val) ==
              match TermsTotal(ms)
              case Ok(total) => Ok(val + total)
              case Err(e) => Err(e)
  {
    if ms != [] {
      QuantityAndUnitShifts(ms[0][1..], val);
      var first := ParseQuantityAndUnit(ms[0][1..], val);
      if first.Ok? {
        FoldQuantityAndUnit(ms[1..], first.value);
      }
    }
  }

  /** k >= 1 "ago" matches turn a non-zero accumulator v into (-1)^k * v;
      on a zero accumulator the first one fails. */
  lemma {:induction false} FoldAgo(ms: seq<seq<string>>, val: Duration)
    requires forall n :: 0 <= n < |ms| ==> |ms[n]| >= 1
    requires |ms| > 0
    ensures FoldMatches(Ago, ms, val) == if val == 0 then Err(DanglingAgo) else Ok(Flip(|ms|, val))
  {
    if val != 0 && |ms| > 1 {
      FoldAgo(ms[1..], -val);
    }
  }

  /** Any number k >= 1 of "yesterday" matches leave exactly minus one day,
      whatever the accumulator held. */
  lemma {:induction false} FoldYesterday(ms: seq<seq<string>>, val: Duration)
    requires forall n :: 0 <= n < |ms| ==> |ms[n]| >= 1
    requires |ms| > 0
    ensures FoldMatches(Yesterday, ms, val) == Ok(-OneDay())
  {
    if |ms| > 1 {
      FoldYesterday(ms[1..], -OneDay());
    }
  }

  /** The three passes of the rule list over given match lists: the
      final accumulator and whether anything matched. */
  function ThreePasses(terms: seq<seq<string>>, agos: seq<seq<string>>, yesterdays: seq<seq<string>>): Result<(Duration, bool)>
    requires forall n :: 0 <= n < |terms| ==> |terms[n]| >= 1
    requires forall n :: 0 <= n < |agos| ==> |agos[n]| >= 1
    requires forall n :: 0 <= n < |yesterdays| ==> |yesterdays[n]| >= 1
  {
    var v1 :- FoldMatches(QuantityAndUnit, terms, 0);
    var v2 :- FoldMatches(Ago, agos, v1);
    var v3 :- FoldMatches(Yesterday, yesterdays, v2);
    Ok((v3, terms != [] || agos != [] || yesterdays != []))
  }

  /** The rule list is those three passes, over the matches of each rule
      in the whole input. */
  lemma FoldRulesUnrolled(s: string)
    ensures FoldRules(ReRe, s, 0, false) == ThreePasses(QuantityAndUnit.FindAll(s), Ago.FindAll(s), Yesterday.FindAll(s))
  {
    var terms := QuantityAndUnit.FindAll(s);
    var agos := Ago.FindAll(s);
    var yesterdays := Yesterday.FindAll(s);
    assert ReRe[0] == QuantityAndUnit && ReRe[1..] == [Ago, Yesterday];
    assert [Ago, Yesterday][1..] == [Yesterday] && [Yesterday][1..] == [];
    var r1 := FoldMatches(QuantityAndUnit, terms, 0);
    if r1.Ok? {
      var r2 := FoldMatches(Ago, agos, r1.value);
      if r2.Ok? {
        var r3 := FoldMatches(Yesterday, yesterdays, r2.value);
        assert FoldRules([Yesterday], s, r2.value, terms != [] || agos != []) ==
          (if r3.Ok? then Ok((r3.value, terms != [] || agos != [] || yesterdays != [])) else Err(r3.error));
      }
    }
  }

  /** The outcome of a non-empty input in closed form, from the number of
      matches of each rule and the total of the quantity+unit terms. */
  function Outcome(s: string, terms: seq<seq<string>>, agos: nat, yesterdays: nat): Result<Duration>
    requires forall n :: 0 <= n < |terms| ==> |terms[n]| >= 1
  {
    var total :- TermsTotal(terms);
    if agos > 0 && total == 0 then Err(DanglingAgo)
    else if yesterdays > 0 then Ok(-OneDay())
    else if |terms| == 0 && agos == 0 then Err(NoMatch(s))
    else Ok(Flip(agos, total))
  }

  /** The three passes, then the found check, give the closed form. */
  lemma ThreePassesOutcome(s: string, terms: seq<seq<string>>, agos: seq<seq<string>>, yesterdays: seq<seq<string>>)
    requires forall n :: 0 <= n < |terms| ==> |terms[n]| >= 1
    requires forall n :: 0 <= n < |agos| ==> |agos[n]| >= 1
    requires forall n :: 0 <= n < |yesterdays| ==> |yesterdays[n]| >= 1
    ensures Outcome(s, terms, |agos|, |yesterdays|) ==
              match ThreePasses(terms, agos, yesterdays)
              case Err(e) => Err(e)
              case Ok(folded) => if folded.1 then Ok(folded.0) else Err(NoMatch(s))
  {
    FoldQuantityAndUnit(terms, 0);
    var afterTerms := FoldMatches(QuantityAndUnit, terms, 0);
    if afterTerms.Ok? {
      var total := afterTerms.value;
      if agos != [] { FoldAgo(agos, total); }
      var afterAgo := FoldMatches(Ago, agos, total);
      if afterAgo.Ok? && yesterdays != [] { FoldYesterday(yesterdays, afterAgo.value); }
    }
  }

  /** `Parse` in closed form, from the matches of each rule over the whole
      input. */
  function ParseSpec(s: string): Result<Duration> {
    if |s| == 0 then Ok(0)
    else Outcome(s, QuantityAndUnit.FindAll(s), |Ago.FindAll(s)|, |Yesterday.FindAll(s)|)
  }

  /** `Parse` computes its closed form on every input. */
  lemma ParseIsSpec(s: string)
    ensures Parse(s) == ParseSpec(s)
  {
    if |s| > 0 {
      FoldRulesUnrolled(s);
      ThreePassesOutcome(s, QuantityAndUnit.FindAll(s), Ago.FindAll(s), Yesterday.FindAll(s));
    }
  }

  /** Terms whose entries all carry both groups never fail the group
      count check. */
  lemma {:induction false} TermsTotalNoPartCount(ms: seq<seq<string>>)
    requires forall n :: 0 <= n < |ms| ==> |ms[n]| == 3
    ensures TermsTotal(ms).Err? ==> !TermsTotal(ms).error.PartCount?
  {
    if ms != [] {
      assert |ms[0][1..]| == 2;
      TermsTotalNoPartCount(ms[1..]);
    }
  }

  /** The group count check of `parseQuantityAndUnit` can never fail
      inside `Parse`: the quantity+unit regex always captures two groups. */
  lemma ParseNeverPartCount(s: string)
    ensures Parse(s).Err? ==> !Parse(s).error.PartCount?
  {
    ParseIsSpec(s);
    if |s| > 0 {
      TermsTotalNoPartCount(QuantityAndUnit.FindAll(s));
    }
  }
}
