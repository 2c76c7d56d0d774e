/** Phrases as a writer would type them: tokens separated by single
    spaces, each token either an amount (digits, optional whitespace, a
    unit word the matcher accepts) or a plain word of letters such as
    "ago", "yesterday" or "banana". On such a phrase the three matchers
    find exactly the amounts, the "ago" words and the "yesterday" words,
    in order, so `Parse` is determined by the token list. */
module Phrases {
  import opened Chars
  import opened Durations
  import opened Results
  import Quantity
  import Units
  import Scanner
  import opened Relatives
  import opened Folds

  datatype Token = Amount(quantity: string, space: string, unit: string) | Word(text: string) {

    /** A well-formed token, for a matcher whose unit alternation is
        `isUnit`. */
    predicate Valid(isUnit: string -> bool) {
      match this
      case Amount(q, w, u) => |q| > 0 && AllDigits(q) && AllSpaces(w) && isUnit(u)
      case Word(x) => |x| > 0 && AllLetters(x)
    }

    function Text(): string {
      match this
      case Amount(q, w, u) => q + w + u
      case Word(x) => x
    }
  }

  predicate AllValid(ts: seq<Token>, isUnit: string -> bool) {
    forall n :: 0 <= n < |ts| ==> ts[n].Valid(isUnit)
  }

  /** The tokens' texts separated by single spaces. */
  function Join(ts: seq<Token>): string {
    if |ts| == 0 then ""
    else if |ts| == 1 then ts[0].Text()
    else ts[0].Text() + " " + Join(ts[1..])
  }

  /** What the quantity+unit matcher reports for a phrase: one submatch
      list per amount, in order. */
  function AmountSubmatches(ts: seq<Token>): (ms: seq<seq<string>>)
    ensures forall n :: 0 <= n < |ms| ==> |ms[n]| == 3
  {
    if ts == [] then []
    else
      var first := if ts[0].Amount? then [[ts[0].Text(), ts[0].quantity, ts[0].unit]] else [];
      first + AmountSubmatches(ts[1..])
  }

  /** The number of tokens that are the word `w`. */
  function Occurrences(ts: seq<Token>, w: string): nat {
    if ts == [] then 0
    else (if ts[0] == Word(w) then 1 else 0) + Occurrences(ts[1..], w)
  }

  // ---------------------------------------------------------------------
  // Scanning a phrase
  // ---------------------------------------------------------------------

  lemma SuffixSplit(s: string, i: nat, a: string, b: string)
    requires i <= |s| && s[i..] == a + b
    ensures i + |a| <= |s| && s[i..i + |a|] == a && s[i + |a|..] == b
  {
    assert s[i..i + |a|] == s[i..][..|a|];
    assert s[i + |a|..] == s[i..][|a|..];
  }

  /** The first token of a phrase that is a suffix of `s` at `i`: its text
      ends at `e`, which is the end of `s` or a space. */
  lemma FirstToken(s: string, i: nat, ts: seq<Token>) returns (e: nat)
    requires i <= |s| && s[i..] == Join(ts) && |ts| > 0
    ensures e == i + |ts[0].Text()| <= |s| && s[i..e] == ts[0].Text()
    ensures |ts| == 1 ==> e == |s|
    ensures |ts| > 1 ==> e < |s| && s[e] == ' ' && s[e + 1..] == Join(ts[1..])
  {
    e := i + |ts[0].Text()|;
    if |ts| == 1 {
      SuffixSplit(s, i, ts[0].Text(), "");
    } else {
      SuffixSplit(s, i, ts[0].Text(), " " + Join(ts[1..]));
      SuffixSplit(s, e, " ", Join(ts[1..]));
    }
  }

  /** The characters of a token's text, by part. */
  lemma TokenChars(s: string, i: nat, t: Token, isUnit: string -> bool)
    requires Scanner.OnlyLetterWords(isUnit)
    requires t.Valid(isUnit) && i + |t.Text()| <= |s| && s[i..i + |t.Text()|] == t.Text()
    ensures t.Word? ==> forall p :: i <= p < i + |t.text| ==> IsLetter(s[p])
    ensures t.Amount? ==> forall p :: i <= p < i + |t.quantity| ==> IsDigit(s[p])
    ensures t.Amount? ==> forall p :: i + |t.quantity| <= p < i + |t.quantity| + |t.space| ==> IsSpace(s[p])
    ensures t.Amount? ==> forall p :: i + |t.quantity| + |t.space| <= p < i + |t.Text()| ==> IsLetter(s[p])
    ensures t.Amount? ==> s[i + |t.quantity| + |t.space|..i + |t.Text()|] == t.unit
  {
    if t.Amount? {
      Scanner.SplitSlice(s, i, t.quantity, t.space, t.unit);
      Scanner.SliceChars(s, i, i + |t.quantity|, t.quantity, IsDigit);
      Scanner.SliceChars(s, i + |t.quantity|, i + |t.quantity| + |t.space|, t.space, IsSpace);
      Scanner.SliceChars(s, i + |t.quantity| + |t.space|, i + |t.Text()|, t.unit, IsLetter);
    } else {
      Scanner.SliceChars(s, i, i + |t.text|, t.text, IsLetter);
    }
  }

  /** An amount token between spaces, or the ends of the input, is a
      match of the quantity+unit regex at its start. */
  lemma AmountMatches(s: string, i: nat, e: nat, t: Token, isUnit: string -> bool)
    requires Scanner.OnlyLetterWords(isUnit)
    requires t.Amount? && t.Valid(isUnit)
    requires e == i + |t.Text()| <= |s| && s[i..e] == t.Text()
    requires i == 0 || s[i - 1] == ' '
    requires e == |s| || s[e] == ' '
    ensures Scanner.MatchAt(s, i, isUnit) == Some(Scanner.QuantityUnitMatch(i, t.quantity, t.space, t.unit))
  {
    assert |t.unit| > 0 && AllLetters(t.unit);
    assert s[i] == t.quantity[0] by { assert s[i] == s[i..e][0]; }
    assert s[e - 1] == t.unit[|t.unit| - 1] by { assert s[e - 1] == s[i..e][|t.Text()| - 1]; }
    assert IsWordBoundary(s, i);
    assert IsWordBoundary(s, e);
    Scanner.MatchAtRuns(s, i, t.quantity, t.space, t.unit, isUnit);
  }

  /** Scanning from the start of a phrase's first token reports the
      token's amount, if it is one, then carries on after the token. */
  lemma ScanFirstToken(s: string, i: nat, ts: seq<Token>, isUnit: string -> bool) returns (e: nat)
    requires Scanner.OnlyLetterWords(isUnit)
    requires AllValid(ts, isUnit) && |ts| > 0
    requires i <= |s| && s[i..] == Join(ts)
    requires i == 0 || s[i - 1] == ' '
    ensures e == i + |ts[0].Text()| <= |s|
    ensures |ts| == 1 ==> e == |s|
    ensures |ts| > 1 ==> e < |s| && s[e] == ' ' && s[e + 1..] == Join(ts[1..])
    ensures Scanner.AllSubmatches(Scanner.ScanFrom(s, i, isUnit))
         == AmountSubmatches([ts[0]]) + Scanner.AllSubmatches(Scanner.ScanFrom(s, e, isUnit))
  {
    assert ts[0].Valid(isUnit);
    e := FirstToken(s, i, ts);
    if ts[0].Amount? {
      ScanAmountToken(s, i, e, ts[0], isUnit);
    } else {
      ScanWordToken(s, i, e, ts[0], isUnit);
    }
  }

  lemma ScanAmountToken(s: string, i: nat, e: nat, t: Token, isUnit: string -> bool)
    requires Scanner.OnlyLetterWords(isUnit)
    requires t.Amount? && t.Valid(isUnit)
    requires e == i + |t.Text()| <= |s| && s[i..e] == t.Text()
    requires i == 0 || s[i - 1] == ' '
    requires e == |s| || s[e] == ' '
    ensures Scanner.AllSubmatches(Scanner.ScanFrom(s, i, isUnit))
         == AmountSubmatches([t]) + Scanner.AllSubmatches(Scanner.ScanFrom(s, e, isUnit))
  {
    var m := Scanner.QuantityUnitMatch(i, t.quantity, t.space, t.unit);
    var rest := Scanner.ScanFrom(s, e, isUnit);
    assert t.Text() == m.Text() && m.End() == e;
    AmountMatches(s, i, e, t, isUnit);
    Scanner.ScanFromMatch(s, i, m, isUnit);
    assert Scanner.ScanFrom(s, i, isUnit) == [m] + rest;
    Scanner.AllSubmatchesCons(m, rest);
    assert [t][1..] == [];
    assert AmountSubmatches([t]) == [m.Submatches()];
  }

  lemma ScanWordToken(s: string, i: nat, e: nat, t: Token, isUnit: string -> bool)
    requires Scanner.OnlyLetterWords(isUnit)
    requires t.Word? && t.Valid(isUnit)
    requires e == i + |t.Text()| <= |s| && s[i..e] == t.Text()
    ensures Scanner.AllSubmatches(Scanner.ScanFrom(s, i, isUnit))
         == AmountSubmatches([t]) + Scanner.AllSubmatches(Scanner.ScanFrom(s, e, isUnit))
  {
    assert [t][1..] == [];
    assert AmountSubmatches([t]) == [];
    TokenChars(s, i, t, isUnit);
    Scanner.ScanSkipsNonDigits(s, i, e, isUnit);
  }

  lemma AmountSubmatchesCons(ts: seq<Token>)
    requires |ts| > 0
    ensures AmountSubmatches(ts) == AmountSubmatches([ts[0]]) + AmountSubmatches(ts[1..])
  {
    assert [ts[0]][1..] == [];
  }

  lemma OccurrencesCons(ts: seq<Token>, w: string)
    requires |ts| > 0
    ensures Occurrences(ts, w) == (if ts[0] == Word(w) then 1 else 0) + Occurrences(ts[1..], w)
  {
  }

  /** The quantity+unit scan of a phrase reports its amounts. */
  lemma {:induction false} ScanPhrase(s: string, i: nat, ts: seq<Token>, isUnit: string -> bool)
    requires Scanner.OnlyLetterWords(isUnit)
    requires AllValid(ts, isUnit)
    requires i <= |s| && s[i..] == Join(ts)
    requires i == 0 || s[i - 1] == ' '
    ensures Scanner.AllSubmatches(Scanner.ScanFrom(s, i, isUnit)) == AmountSubmatches(ts)
    decreases |ts|, 1
  {
    if ts == [] {
      assert i == |s|;
    } else {
      var e := ScanFirstToken(s, i, ts, isUnit);
      AmountSubmatchesCons(ts);
      ScanAfterToken(s, e, ts, isUnit);
    }
  }

  /** The step of `ScanPhrase`: after the first token, the scan reports the
      amounts among the remaining tokens. */
  lemma {:induction false} ScanAfterToken(s: string, e: nat, ts: seq<Token>, isUnit: string -> bool)
    requires Scanner.OnlyLetterWords(isUnit)
    requires AllValid(ts, isUnit) && |ts| > 0
    requires |ts| == 1 ==> e == |s|
    requires |ts| > 1 ==> e < |s| && s[e] == ' ' && s[e + 1..] == Join(ts[1..])
    ensures e <= |s| ==> Scanner.AllSubmatches(Scanner.ScanFrom(s, e, isUnit)) == AmountSubmatches(ts[1..])
    decreases |ts|, 0
  {
    if |ts| > 1 {
      Scanner.ScanSkipsNonDigits(s, e, e + 1, isUnit);
      ScanPhrase(s, e + 1, ts[1..], isUnit);
    } else {
      assert Scanner.ScanFrom(s, e, isUnit) == [];
      assert ts[1..] == [];
    }
  }

  /** Inside one token no whole-word occurrence of `w` starts, unless the
      token is that very word. */
  lemma NoWordMatchInToken(s: string, w: string, i: nat, t: Token, isUnit: string -> bool)
    requires Scanner.OnlyLetterWords(isUnit)
    requires |w| > 0 && AllLetters(w) && !isUnit(w)
    requires t.Valid(isUnit) && t != Word(w)
    requires i + |t.Text()| <= |s| && s[i..i + |t.Text()|] == t.Text()
    requires i + |t.Text()| == |s| || s[i + |t.Text()|] == ' '
    ensures forall p :: i <= p < i + |t.Text()| ==> !Scanner.IsWordMatch(s, w, p)
  {
    var e := i + |t.Text()|;
    TokenChars(s, i, t, isUnit);
    forall p | i <= p < e
      ensures !Scanner.IsWordMatch(s, w, p)
    {
      if p > i && IsWordChar(s[p - 1]) && IsWordChar(s[p]) {
        assert !IsWordBoundary(s, p);
      } else if t.Word? {
        Scanner.OtherWordIsNoMatch(s, w, p, t.text);
      } else if p < i + |t.quantity| + |t.space| {
        assert p + |w| <= |s| ==> s[p..p + |w|][0] != w[0];
      } else {
        Scanner.OtherWordIsNoMatch(s, w, p, t.unit);
      }
    }
  }

  /** The whole-word scan for `w` over a phrase counts the tokens that are
      `w`. */
  lemma {:induction false} WordScanPhrase(s: string, w: string, i: nat, ts: seq<Token>, isUnit: string -> bool)
    requires Scanner.OnlyLetterWords(isUnit)
    requires |w| > 0 && AllLetters(w) && !isUnit(w)
    requires AllValid(ts, isUnit)
    requires i <= |s| && s[i..] == Join(ts)
    requires i == 0 || s[i - 1] == ' '
    ensures |Scanner.WordScanFrom(s, w, i)| == Occurrences(ts, w)
    decreases |ts|, 1
  {
    if ts == [] {
      assert i == |s|;
    } else {
      var e := WordScanFirstToken(s, w, i, ts, isUnit);
      OccurrencesCons(ts, w);
      WordScanAfterToken(s, w, e, ts, isUnit);
    }
  }

  /** Scanning for `w` from the start of a phrase's first token counts that
      token if it is `w`, then carries on after the token. */
  lemma WordScanFirstToken(s: string, w: string, i: nat, ts: seq<Token>, isUnit: string -> bool) returns (e: nat)
    requires Scanner.OnlyLetterWords(isUnit)
    requires |w| > 0 && AllLetters(w) && !isUnit(w)
    requires AllValid(ts, isUnit) && |ts| > 0
    requires i <= |s| && s[i..] == Join(ts)
    requires i == 0 || s[i - 1] == ' '
    ensures e == i + |ts[0].Text()| <= |s|
    ensures |ts| == 1 ==> e == |s|
    ensures |ts| > 1 ==> e < |s| && s[e] == ' ' && s[e + 1..] == Join(ts[1..])
    ensures |Scanner.WordScanFrom(s, w, i)| == (if ts[0] == Word(w) then 1 else 0) + |Scanner.WordScanFrom(s, w, e)|
  {
    assert ts[0].Valid(isUnit);
    e := FirstToken(s, i, ts);
    WordScanToken(s, w, i, e, ts[0], isUnit);
  }

  lemma WordScanToken(s: string, w: string, i: nat, e: nat, t: Token, isUnit: string -> bool)
    requires Scanner.OnlyLetterWords(isUnit)
    requires |w| > 0 && AllLetters(w) && !isUnit(w)
    requires t.Valid(isUnit)
    requires e == i + |t.Text()| <= |s| && s[i..e] == t.Text()
    requires i == 0 || s[i - 1] == ' '
    requires e == |s| || s[e] == ' '
    ensures |Scanner.WordScanFrom(s, w, i)| == (if t == Word(w) then 1 else 0) + |Scanner.WordScanFrom(s, w, e)|
  {
    if t == Word(w) {
      WordTokenMatches(s, w, i, e);
      Scanner.WordScanFromMatch(s, w, i);
    } else {
      NoWordMatchInToken(s, w, i, t, isUnit);
      Scanner.WordScanSkips(s, w, i, e);
    }
  }

  /** A word token that is `w`, between spaces or the ends of the input, is
      a whole-word occurrence of `w`. */
  lemma WordTokenMatches(s: string, w: string, i: nat, e: nat)
    requires |w| > 0 && AllLetters(w)
    requires e == i + |w| <= |s| && s[i..e] == w
    requires i == 0 || s[i - 1] == ' '
    requires e == |s| || s[e] == ' '
    ensures Scanner.IsWordMatch(s, w, i)
  {
    assert s[i] == w[0] && IsLetter(w[0]);
    assert s[e - 1] == w[|w| - 1] && IsLetter(w[|w| - 1]);
  }

  /** The step of `WordScanPhrase`: after the first token, the scan counts
      the remaining tokens that are `w`. */
  lemma {:induction false} WordScanAfterToken(s: string, w: string, e: nat, ts: seq<Token>, isUnit: string -> bool)
    requires Scanner.OnlyLetterWords(isUnit)
    requires |w| > 0 && AllLetters(w) && !isUnit(w)
    requires AllValid(ts, isUnit) && |ts| > 0
    requires |ts| == 1 ==> e == |s|
    requires |ts| > 1 ==> e < |s| && s[e] == ' ' && s[e + 1..] == Join(ts[1..])
    ensures e <= |s| ==> |Scanner.WordScanFrom(s, w, e)| == Occurrences(ts[1..], w)
    decreases |ts|, 0
  {
    if |ts| > 1 {
      assert e + |w| <= |s| ==> s[e..e + |w|][0] != w[0];
      Scanner.WordScanSkips(s, w, e, e + 1);
      WordScanPhrase(s, w, e + 1, ts[1..], isUnit);
    } else {
      assert ts[1..] == [];
    }
  }
}

module PhraseParse {
  import opened Chars
  import opened Durations
  import opened Results
  import Quantity
  import Units
  import Scanner
  import opened Relatives
  import opened Folds
  import opened Phrases

  /** The value of one amount: its quantity times its unit, or the error
      of the first conversion that fails. */
  function AmountValue(t: Token): Result<Duration>
    requires t.Amount?
  {
    var quantity :- Quantity.Atoi(t.quantity);
    var unit :- Units.ParseUnit(t.unit);
    Ok(quantity * unit)
  }

  /** The amounts of a phrase summed left to right, or the error of the
      first one that fails. */
  function AmountsTotal(ts: seq<Token>): Result<Duration> {
    if ts == [] then Ok(0)
    else if ts[0].Amount? then
      var v :- AmountValue(ts[0]);
      var rest :- AmountsTotal(ts[1..]);
      Ok(v + rest)
    else AmountsTotal(ts[1..])
  }

  /** A phrase made of amounts only. */
  predicate AmountsOnly(ts: seq<Token>) {
    ts == [] || (ts[0].Amount? && AmountsOnly(ts[1..]))
  }

  /** A phrase made of words only. */
  predicate WordsOnly(ts: seq<Token>) {
    forall n :: 0 <= n < |ts| ==> ts[n].Word?
  }

  /** What `Parse` returns for a phrase, stated over its tokens: the empty
      phrase is zero; otherwise a failing amount decides the error, "ago"
      after a zero total dangles, any "yesterday" gives minus one day, a
      phrase with no amount and no "ago" matches nothing, and otherwise
      each "ago" flips the sign of the total. */
  function PhraseValue(ts: seq<Token>): Result<Duration> {
    if ts == [] then Ok(0)
    else Verdict(Join(ts), AmountsTotal(ts), Occurrences(ts, "ago"), Occurrences(ts, "yesterday"), WordsOnly(ts))
  }

  /** The decision `PhraseValue` makes for a non-empty phrase, from the
      total of its amounts, its numbers of "ago" and "yesterday" words, and
      whether it has no amount. */
  function Verdict(s: string, total: Result<Duration>, agos: nat, yesterdays: nat, wordsOnly: bool): Result<Duration> {
    match total
    case Err(e) => Err(e)
    case Ok(v) =>
      if agos > 0 && v == 0 then Err(DanglingAgo)
      else if yesterdays > 0 then Ok(-OneDay())
      else if wordsOnly && agos == 0 then Err(NoMatch(s))
      else Ok(Flip(agos, v))
  }

  lemma {:induction false} NoAmountSubmatches(ts: seq<Token>)
    ensures AmountSubmatches(ts) == [] <==> WordsOnly(ts)
  {
    if ts != [] {
      NoAmountSubmatches(ts[1..]);
      assert WordsOnly(ts) <==> ts[0].Word? && WordsOnly(ts[1..]) by {
        if WordsOnly(ts) {
          forall n | 0 <= n < |ts[1..]| ensures ts[1..][n].Word? {
            assert ts[1..][n] == ts[n + 1];
          }
        }
        if ts[0].Word? && WordsOnly(ts[1..]) {
          forall n | 0 <= n < |ts| ensures ts[n].Word? {
            if n > 0 { assert ts[n] == ts[1..][n - 1]; }
          }
        }
      }
    }
  }

  /** The quantity+unit pass over a phrase's submatches sums its amounts. */
  lemma {:induction false} AmountsTotalIsTermsTotal(ts: seq<Token>)
    ensures TermsTotal(AmountSubmatches(ts)) == AmountsTotal(ts)
  {
    if ts != [] {
      AmountsTotalIsTermsTotal(ts[1..]);
      var rest := AmountSubmatches(ts[1..]);
      if ts[0].Amount? {
        var m := [ts[0].Text(), ts[0].quantity, ts[0].unit];
        assert AmountSubmatches(ts) == [m] + rest;
        AmountTerm(ts[0]);
        TermsTotalCons(m, rest);
      } else {
        assert AmountSubmatches(ts) == [] + rest;
        assert [] + rest == rest;
      }
    }
  }

  /** The groups of an amount's match give the amount's value. */
  lemma AmountTerm(t: Token)
    requires t.Amount?
    ensures ParseQuantityAndUnit([t.Text(), t.quantity, t.unit][1..], 0) == AmountValue(t)
  {
    assert [t.Text(), t.quantity, t.unit][1..] == [t.quantity, t.unit];
  }

  lemma TermsTotalCons(m: seq<string>, rest: seq<seq<string>>)
    requires |m| >= 1 && forall n :: 0 <= n < |rest| ==> |rest[n]| >= 1
    ensures TermsTotal([m] + rest) ==
              match ParseQuantityAndUnit(m[1..], 0)
              case Err(e) => Err(e)
              case Ok(v) => (match TermsTotal(rest) case Err(e) => Err(e) case Ok(w) => Ok(v + w))
  {
    assert ([m] + rest)[0] == m && ([m] + rest)[1..] == rest;
  }

  lemma JoinNonEmpty(ts: seq<Token>, isUnit: string -> bool)
    requires AllValid(ts, isUnit) && |ts| > 0
    ensures |Join(ts)| > 0
  {
    assert ts[0].Valid(isUnit);
  }

  /** `Parse` of a joined phrase is the phrase's value. */
  lemma ParsePhrase(ts: seq<Token>)
    requires AllValid(ts, Units.UnitPattern)
    ensures Parse(Join(ts)) == PhraseValue(ts)
  {
    var s := Join(ts);
    ParseIsSpec(s);
    if ts != [] {
      JoinNonEmpty(ts, Units.UnitPattern);
      FindAllPhrase(ts);
      OutcomeOfPhrase(ts);
    }
  }

  /** The closed form over match lists, given the lists a phrase yields. */
  lemma OutcomeOfPhrase(ts: seq<Token>)
    requires |ts| > 0
    ensures Outcome(Join(ts), AmountSubmatches(ts), Occurrences(ts, "ago"), Occurrences(ts, "yesterday")) == PhraseValue(ts)
  {
    NoAmountSubmatches(ts);
    AmountsTotalIsTermsTotal(ts);
  }

  /** The three matchers over a phrase find its amounts, its "ago" words
      and its "yesterday" words. */
  lemma FindAllPhrase(ts: seq<Token>)
    requires AllValid(ts, Units.UnitPattern)
    ensures QuantityAndUnit.FindAll(Join(ts)) == AmountSubmatches(ts)
    ensures |Ago.FindAll(Join(ts))| == Occurrences(ts, "ago")
    ensures |Yesterday.FindAll(Join(ts))| == Occurrences(ts, "yesterday")
  {
    var s := Join(ts);
    UnitWordsAreLetters();
    assert s[0..] == s;
    ScanPhrase(s, 0, ts, Units.UnitPattern);
    NotAUnit("ago");
    NotAUnit("yesterday");
    WordScanPhrase(s, "ago", 0, ts, Units.UnitPattern);
    WordScanPhrase(s, "yesterday", 0, ts, Units.UnitPattern);
  }

  lemma NotAUnit(w: string)
    requires w == "ago" || w == "yesterday"
    ensures |w| > 0 && AllLetters(w) && !Units.UnitPattern(w)
  {
    assert w[0] == 'a' || w[0] == 'y';
    assert |w| == 3 || |w| == 9;
  }

  // ---------------------------------------------------------------------
  // Consequences for common phrase shapes
  // ---------------------------------------------------------------------

  /** `Occurrences` counts exactly the positions holding the word. */
  lemma {:induction false} OccurrencesPositive(ts: seq<Token>, w: string)
    ensures Occurrences(ts, w) > 0 <==> Word(w) in ts
  {
    if ts != [] {
      OccurrencesPositive(ts[1..], w);
      assert ts == [ts[0]] + ts[1..];
    }
  }

  /** A trailing word adds nothing to the amounts' total and one to its
      own count. */
  lemma {:induction false} AppendWord(ts: seq<Token>, w: string, x: string)
    ensures AmountsTotal(ts + [Word(x)]) == AmountsTotal(ts)
    ensures Occurrences(ts + [Word(x)], w) == Occurrences(ts, w) + (if x == w then 1 else 0)
  {
    if ts == [] {
      assert [Word(x)][1..] == [];
    } else {
      AppendWord(ts[1..], w, x);
      assert (ts + [Word(x)])[0] == ts[0];
      assert (ts + [Word(x)])[1..] == ts[1..] + [Word(x)];
    }
  }

  /** A phrase of amounts only is their sum. */
  lemma ParseAmounts(ts: seq<Token>)
    requires AllValid(ts, Units.UnitPattern) && |ts| > 0
    requires AmountsOnly(ts)
    ensures Parse(Join(ts)) == AmountsTotal(ts)
  {
    ParsePhrase(ts);
    AmountsHaveNoWords(ts, "ago");
    AmountsHaveNoWords(ts, "yesterday");
    assert !WordsOnly(ts) by { assert ts[0].Amount?; }
    assert PhraseValue(ts) == Verdict(Join(ts), AmountsTotal(ts), 0, 0, false);
    VerdictPlain(Join(ts), AmountsTotal(ts));
  }

  lemma VerdictPlain(s: string, total: Result<Duration>)
    ensures Verdict(s, total, 0, 0, false) == total
  {
  }

  /** Amounts followed by "ago" are their sum negated, unless the sum is
      zero, which leaves "ago" dangling. The sum is a parameter, so that
      callers that know it need not take `AmountsTotal` apart. */
  lemma ParseAmountsAgo(ts: seq<Token>, v: Duration)
    requires AllValid(ts, Units.UnitPattern)
    requires AmountsOnly(ts) && AmountsTotal(ts) == Ok(v)
    ensures Parse(Join(ts + [Word("ago")])) == if v == 0 then Err(DanglingAgo) else Ok(-v)
  {
    var xs := ts + [Word("ago")];
    assert PhraseValue(xs) == if v == 0 then Err(DanglingAgo) else Ok(-v) by {
      AmountsAgoValue(ts, Ok(v));
    }
    assert AllValid(xs, Units.UnitPattern) by {
      AppendValidWord(ts, "ago");
    }
    ParsePhrase(xs);
  }

  /** Amounts one of which is in error, followed by "ago", are that error. */
  lemma ParseAmountsAgoError(ts: seq<Token>, e: ParseError)
    requires AllValid(ts, Units.UnitPattern)
    requires AmountsOnly(ts) && AmountsTotal(ts) == Err(e)
    ensures Parse(Join(ts + [Word("ago")])) == Err(e)
  {
    var xs := ts + [Word("ago")];
    assert PhraseValue(xs) == Err(e) by {
      AmountsAgoValue(ts, Err(e));
    }
    assert AllValid(xs, Units.UnitPattern) by {
      AppendValidWord(ts, "ago");
    }
    ParsePhrase(xs);
  }

  lemma AppendValidWord(ts: seq<Token>, x: string)
    requires AllValid(ts, Units.UnitPattern) && |x| > 0 && AllLetters(x)
    ensures AllValid(ts + [Word(x)], Units.UnitPattern)
  {
    var xs := ts + [Word(x)];
    forall n | 0 <= n < |xs| ensures xs[n].Valid(Units.UnitPattern) {
      if n < |ts| { assert xs[n] == ts[n]; } else { assert xs[n] == Word(x); }
    }
  }

  lemma AmountsAgoValue(ts: seq<Token>, total: Result<Duration>)
    requires AmountsOnly(ts) && AmountsTotal(ts) == total
    ensures PhraseValue(ts + [Word("ago")]) ==
              match total
              case Err(e) => Err(e)
              case Ok(v) => if v == 0 then Err(DanglingAgo) else Ok(-v)
  {
    var xs := ts + [Word("ago")];
    AgoAppended(ts);
    assert PhraseValue(xs) == Verdict(Join(xs), total, 1, 0, WordsOnly(xs));
    VerdictOneAgo(Join(xs), total, WordsOnly(xs));
  }

  /** The two words of the word rules are different words. */
  lemma AgoIsNotYesterday()
    ensures "ago" != "yesterday"
  {
    assert "ago"[0] != "yesterday"[0];
  }

  /** Appending "ago" to amounts keeps their total and adds one "ago" and
      no "yesterday". */
  lemma AgoAppended(ts: seq<Token>)
    requires AmountsOnly(ts)
    ensures AmountsTotal(ts + [Word("ago")]) == AmountsTotal(ts)
    ensures Occurrences(ts + [Word("ago")], "ago") == 1
    ensures Occurrences(ts + [Word("ago")], "yesterday") == 0
  {
    AmountsHaveNoWords(ts, "ago");
    AmountsHaveNoWords(ts, "yesterday");
    AppendWord(ts, "ago", "ago");
    AgoIsNotYesterday();
    AppendWord(ts, "yesterday", "ago");
  }

  lemma VerdictOneAgo(s: string, total: Result<Duration>, wordsOnly: bool)
    ensures Verdict(s, total, 1, 0, wordsOnly) ==
              match total
              case Err(e) => Err(e)
              case Ok(v) => if v == 0 then Err(DanglingAgo) else Ok(-v)
  {
  }

  lemma {:induction false} AmountsHaveNoWords(ts: seq<Token>, w: string)
    requires AmountsOnly(ts)
    ensures Occurrences(ts, w) == 0
  {
    if ts != [] {
      AmountsHaveNoWords(ts[1..], w);
    }
  }

  /** A "yesterday" anywhere in a phrase whose amounts are all valid and
      that has no "ago" gives minus one day, whatever the amounts add up
      to. */
  lemma ParseYesterday(ts: seq<Token>)
    requires AllValid(ts, Units.UnitPattern)
    requires Word("yesterday") in ts && Word("ago") !in ts
    requires AmountsTotal(ts).Ok?
    ensures Parse(Join(ts)) == Ok(-OneDay())
  {
    ParsePhrase(ts);
    OccurrencesPositive(ts, "ago");
    OccurrencesPositive(ts, "yesterday");
  }

  /** A phrase of words none of which is "ago" or "yesterday" matches no
      rule. */
  lemma ParseOtherWords(ts: seq<Token>)
    requires AllValid(ts, Units.UnitPattern) && |ts| > 0 && WordsOnly(ts)
    requires Word("ago") !in ts && Word("yesterday") !in ts
    ensures Parse(Join(ts)) == Err(NoMatch(Join(ts)))
  {
    ParsePhrase(ts);
    OccurrencesPositive(ts, "ago");
    OccurrencesPositive(ts, "yesterday");
    WordsOnlyTotal(ts);
  }

  lemma {:induction false} WordsOnlyTotal(ts: seq<Token>)
    requires WordsOnly(ts)
    ensures AmountsTotal(ts) == Ok(0)
  {
    if ts != [] {
      assert ts[0].Word?;
      assert WordsOnly(ts[1..]) by {
        forall n | 0 <= n < |ts[1..]| ensures ts[1..][n].Word? {
          assert ts[1..][n] == ts[n + 1];
        }
      }
      WordsOnlyTotal(ts[1..]);
    }
  }
}
