/** A hand-written scanner standing in for the three regular expressions
    of the rule list and Go's `FindAllStringSubmatch`. Each matcher is
    given twice: as a predicate that reads the regular expression literally
    (where a match may begin and end, and what its parts are), and as the
    scanning function; the contracts and lemmas say the two agree. */
module Scanner {
  import opened Chars
  import opened Results

  // ---------------------------------------------------------------------
  // Quantity+unit: `\b(\d+)\s*(unit)\b`
  // ---------------------------------------------------------------------

  // The unit alternation is a parameter `isUnit` of the matcher; all the
  // matcher needs to know of it is that it only accepts words of letters.

  ghost predicate OnlyLetterWords(isUnit: string -> bool) {
    forall u :: isUnit(u) ==> |u| > 0 && AllLetters(u)
  }

  /** A match of the quantity+unit regex: where it starts, the digits, the
      whitespace after them and the unit word. */
  datatype QuantityUnitMatch = QuantityUnitMatch(start: nat, quantity: string, space: string, unit: string) {

    function End(): nat {
      start + |quantity| + |space| + |unit|
    }

    function Text(): string {
      quantity + space + unit
    }

    /** What `FindAllStringSubmatch` reports for the match: the matched
        text, then the quantity group, then the unit group. */
    function Submatches(): seq<string> {
      [Text(), quantity, unit]
    }
  }

  /** `m` is a match of `\b(\d+)\s*(unit)\b` in `s`. */
  predicate IsQuantityUnitMatch(s: string, m: QuantityUnitMatch, isUnit: string -> bool) {
    && m.End() <= |s|
    && s[m.start..m.End()] == m.Text()
    && IsWordBoundary(s, m.start)
    && |m.quantity| > 0 && AllDigits(m.quantity)
    && AllSpaces(m.space)
    && isUnit(m.unit)
    && IsWordBoundary(s, m.End())
  }

  /** The match starting at position `i`, if any: the longest digit run,
      all the whitespace after it, then the whole (non-empty) word after
      that, which must be one of the unit alternatives. */
  function MatchAt(s: string, i: nat, isUnit: string -> bool): (r: Option<QuantityUnitMatch>)
    requires i <= |s|
    ensures r.Some? ==> r.value.start == i < r.value.End() <= |s|
  {
    if i < |s| && IsDigit(s[i]) && IsWordBoundary(s, i) then
      var j := RunEnd(s, i, IsDigit);
      var k := RunEnd(s, j, IsSpace);
      var e := RunEnd(s, k, IsWordChar);
      if k < e && isUnit(s[k..e]) then
        Some(QuantityUnitMatch(i, s[i..j], s[j..k], s[k..e]))
      else
        None
    else
      None
  }

  /** What `MatchAt` finds is a match of the regex at `i`. */
  lemma MatchAtSound(s: string, i: nat, isUnit: string -> bool)
    requires i <= |s|
    ensures MatchAt(s, i, isUnit).Some? ==> IsQuantityUnitMatch(s, MatchAt(s, i, isUnit).value, isUnit)
  {
    if MatchAt(s, i, isUnit).Some? {
      var j := RunEnd(s, i, IsDigit);
      var k := RunEnd(s, j, IsSpace);
      var e := RunEnd(s, k, IsWordChar);
      RunSlice(s, i, j, IsDigit);
      RunSlice(s, j, k, IsSpace);
      JoinSlices(s, i, j, k, e);
    }
  }

  /** A stretch of characters in a class, as a slice. */
  lemma RunSlice(s: string, i: nat, j: nat, inClass: char -> bool)
    requires i <= j <= |s|
    requires forall p :: i <= p < j ==> inClass(s[p])
    ensures forall n :: 0 <= n < |s[i..j]| ==> inClass(s[i..j][n])
  {
    forall n | 0 <= n < |s[i..j]|
      ensures inClass(s[i..j][n])
    {
      assert s[i..j][n] == s[i + n];
    }
  }

  /** Adjacent slices concatenate to the slice that spans them. */
  lemma JoinSlices(s: string, i: nat, j: nat, k: nat, e: nat)
    requires i <= j <= k <= e <= |s|
    ensures s[i..e] == s[i..j] + s[j..k] + s[k..e]
  {
  }

  /** The characters of a slice are those of the string it equals. */
  lemma SliceChars(s: string, i: nat, j: nat, t: string, inClass: char -> bool)
    requires i <= j <= |s| && s[i..j] == t
    requires forall n :: 0 <= n < |t| ==> inClass(t[n])
    ensures forall p :: i <= p < j ==> inClass(s[p])
  {
    forall p | i <= p < j
      ensures inClass(s[p])
    {
      assert s[p] == t[p - i];
    }
  }

  /** A slice that spells `q + w + u` splits into slices spelling each. */
  lemma SplitSlice(s: string, i: nat, q: string, w: string, u: string)
    requires i + |q| + |w| + |u| <= |s|
    requires s[i..i + |q| + |w| + |u|] == q + w + u
    ensures s[i..i + |q|] == q
    ensures s[i + |q|..i + |q| + |w|] == w
    ensures s[i + |q| + |w|..i + |q| + |w| + |u|] == u
  {
    var t := s[i..i + |q| + |w| + |u|];
    forall p | 0 <= p < |q| ensures s[i + p] == q[p] {
      assert s[i + p] == t[p];
    }
    forall p | 0 <= p < |w| ensures s[i + |q| + p] == w[p] {
      assert s[i + |q| + p] == t[|q| + p];
    }
    forall p | 0 <= p < |u| ensures s[i + |q| + |w| + p] == u[p] {
      assert s[i + |q| + |w| + p] == t[|q| + |w| + p];
    }
  }

  /** Every match of the regex is found by `MatchAt` at its start: the
      greedy reading is the only way the regex can match there. */
  lemma MatchAtComplete(s: string, m: QuantityUnitMatch, isUnit: string -> bool)
    requires OnlyLetterWords(isUnit)
    requires IsQuantityUnitMatch(s, m, isUnit)
    ensures MatchAt(s, m.start, isUnit) == Some(m)
  {
    assert |m.unit| > 0 && AllLetters(m.unit);
    MatchAtRuns(s, m.start, m.quantity, m.space, m.unit, isUnit);
  }

  /** A digit run, whitespace and a unit word of letters, between word
      boundaries, is what `MatchAt` reports at its start. */
  lemma MatchAtRuns(s: string, i: nat, q: string, w: string, u: string, isUnit: string -> bool)
    requires i + |q| + |w| + |u| <= |s| && s[i..i + |q| + |w| + |u|] == q + w + u
    requires |q| > 0 && AllDigits(q) && AllSpaces(w) && |u| > 0 && AllLetters(u) && isUnit(u)
    requires IsWordBoundary(s, i) && IsWordBoundary(s, i + |q| + |w| + |u|)
    ensures MatchAt(s, i, isUnit) == Some(QuantityUnitMatch(i, q, w, u))
  {
    var j, k, e := i + |q|, i + |q| + |w|, i + |q| + |w| + |u|;
    SplitSlice(s, i, q, w, u);
    MatchRuns(s, i, j, k, e, q, w, u);
    MatchAtOfRuns(s, i, j, k, e, q, w, u, isUnit);
  }

  /** `MatchAt` read off from the ends of its three runs. */
  lemma MatchAtOfRuns(s: string, i: nat, j: nat, k: nat, e: nat, q: string, w: string, u: string, isUnit: string -> bool)
    requires i < |s| && IsDigit(s[i]) && IsWordBoundary(s, i)
    requires RunEnd(s, i, IsDigit) == j && RunEnd(s, j, IsSpace) == k && RunEnd(s, k, IsWordChar) == e
    requires s[i..j] == q && s[j..k] == w && s[k..e] == u
    requires k < e && isUnit(u)
    ensures MatchAt(s, i, isUnit) == Some(QuantityUnitMatch(i, q, w, u))
  {
  }

  /** Digits, whitespace and a word of letters ending at a word boundary
      are the greedy runs `MatchAt` reads. */
  lemma MatchRuns(s: string, i: nat, j: nat, k: nat, e: nat, q: string, w: string, u: string)
    requires i < j <= k < e <= |s|
    requires s[i..j] == q && s[j..k] == w && s[k..e] == u
    requires AllDigits(q) && AllSpaces(w) && AllLetters(u)
    requires IsWordBoundary(s, e)
    ensures IsDigit(s[i])
    ensures RunEnd(s, i, IsDigit) == j && RunEnd(s, j, IsSpace) == k && RunEnd(s, k, IsWordChar) == e
  {
    assert s[i] == q[0];
    assert IsLetter(s[k]) by { assert s[k] == u[0]; }
    assert !IsDigit(s[j]) by {
      if j < k { assert s[j] == w[0]; }
    }
    SliceRunEnd(s, i, j, q, IsDigit);
    SliceRunEnd(s, j, k, w, IsSpace);
    assert forall n :: 0 <= n < |u| ==> IsWordChar(u[n]);
    assert IsWordChar(s[e - 1]) by { assert s[e - 1] == u[|u| - 1]; }
    SliceRunEnd(s, k, e, u, IsWordChar);
  }

  /** A slice spelling a run of class characters, followed by the end or
      by a character outside the class, is the greedy run. */
  lemma SliceRunEnd(s: string, i: nat, j: nat, t: string, inClass: char -> bool)
    requires i <= j <= |s| && s[i..j] == t
    requires forall n :: 0 <= n < |t| ==> inClass(t[n])
    requires j == |s| || !inClass(s[j])
    ensures RunEnd(s, i, inClass) == j
  {
    SliceChars(s, i, j, t, inClass);
    RunEndIs(s, i, inClass, j);
  }

  /** No match starts strictly inside another one. */
  lemma NoMatchInside(s: string, m: QuantityUnitMatch, isUnit: string -> bool)
    requires OnlyLetterWords(isUnit)
    requires IsQuantityUnitMatch(s, m, isUnit)
    ensures forall p :: m.start < p < m.End() ==> MatchAt(s, p, isUnit).None?
  {
    forall p | m.start < p < m.End()
      ensures MatchAt(s, p, isUnit).None?
    {
      NotAMatchStart(s, m, p, isUnit);
    }
  }

  /** Inside a match, a position is either inside the digit run, where
      there is no word boundary, or past it, where there is no digit. */
  lemma NotAMatchStart(s: string, m: QuantityUnitMatch, p: nat, isUnit: string -> bool)
    requires OnlyLetterWords(isUnit)
    requires IsQuantityUnitMatch(s, m, isUnit)
    requires m.start < p < m.End()
    ensures MatchAt(s, p, isUnit).None?
  {
    var i, q, w, u := m.start, m.quantity, m.space, m.unit;
    var j := i + |q|;
    var k := j + |w|;
    var t := s[i..m.End()];
    assert t == q + w + u;
    if p < j {
      assert s[p - 1] == t[p - 1 - i] == q[p - 1 - i];
      assert s[p] == t[p - i] == q[p - i];
      assert !IsWordBoundary(s, p);
    } else if p < k {
      assert s[p] == t[p - i] == w[p - j];
      assert !IsDigit(s[p]);
    } else {
      assert |u| > 0 && AllLetters(u);
      assert s[p] == t[p - i] == u[p - k];
      assert !IsDigit(s[p]);
    }
  }

  /** `FindAll` from position `i`: try a match at each position in turn,
      and after a match carry on from its end. */
  function ScanFrom(s: string, i: nat, isUnit: string -> bool): seq<QuantityUnitMatch>
    requires i <= |s|
    decreases |s| - i
  {
    if i == |s| then []
    else
      match MatchAt(s, i, isUnit)
      case Some(m) => [m] + ScanFrom(s, m.End(), isUnit)
      case None => ScanFrom(s, i + 1, isUnit)
  }

  /** Where a match starts, the scan reports it and resumes at its end. */
  lemma ScanFromMatch(s: string, i: nat, m: QuantityUnitMatch, isUnit: string -> bool)
    requires i < |s| && MatchAt(s, i, isUnit) == Some(m)
    ensures ScanFrom(s, i, isUnit) == [m] + ScanFrom(s, m.End(), isUnit)
  {
  }

  /** Every entry of `ms` is the match found at its own start, at or after
      `i`. */
  predicate MatchesFrom(s: string, i: nat, ms: seq<QuantityUnitMatch>, isUnit: string -> bool) {
    forall n :: 0 <= n < |ms| ==> i <= ms[n].start < |s| && MatchAt(s, ms[n].start, isUnit) == Some(ms[n])
  }

  /** Each match ends at or before the next one starts. */
  predicate Ordered(ms: seq<QuantityUnitMatch>) {
    forall n :: 0 <= n < |ms| - 1 ==> ms[n].End() <= ms[n + 1].start
  }

  /** Every match starting at or after `i` is in `ms`. */
  predicate CoversFrom(s: string, i: nat, ms: seq<QuantityUnitMatch>, isUnit: string -> bool)
    requires i <= |s|
  {
    forall p :: i <= p <= |s| && MatchAt(s, p, isUnit).Some? ==> MatchAt(s, p, isUnit).value in ms
  }

  /** What the scan finds: the matches of the regex that start at or after
      `i`, every one of them, leftmost first and without overlap. */
  lemma {:induction false} ScanFromSpec(s: string, i: nat, isUnit: string -> bool)
    requires i <= |s|
    requires OnlyLetterWords(isUnit)
    ensures MatchesFrom(s, i, ScanFrom(s, i, isUnit), isUnit)
    ensures Ordered(ScanFrom(s, i, isUnit))
    ensures CoversFrom(s, i, ScanFrom(s, i, isUnit), isUnit)
    decreases |s| - i
  {
    if i < |s| {
      match MatchAt(s, i, isUnit)
      case Some(m) =>
        var rest := ScanFrom(s, m.End(), isUnit);
        ScanFromSpec(s, m.End(), isUnit);
        PrependMatch(s, i, m, rest, isUnit);
        assert ScanFrom(s, i, isUnit) == [m] + rest;
      case None =>
        var rest := ScanFrom(s, i + 1, isUnit);
        ScanFromSpec(s, i + 1, isUnit);
        SkipNoMatch(s, i, rest, isUnit);
        assert ScanFrom(s, i, isUnit) == rest;
    }
  }

  /** The match at `i` followed by all matches from its end holds every
      match from `i` on, in order and without overlap. */
  lemma PrependMatch(s: string, i: nat, m: QuantityUnitMatch, rest: seq<QuantityUnitMatch>, isUnit: string -> bool)
    requires i < |s| && OnlyLetterWords(isUnit)
    requires MatchAt(s, i, isUnit) == Some(m)
    requires MatchesFrom(s, m.End(), rest, isUnit) && Ordered(rest) && CoversFrom(s, m.End(), rest, isUnit)
    ensures MatchesFrom(s, i, [m] + rest, isUnit) && Ordered([m] + rest) && CoversFrom(s, i, [m] + rest, isUnit)
  {
    PrependMatches(s, i, m, rest, isUnit);
    PrependOrdered(m, rest);
    PrependCovers(s, i, m, rest, isUnit);
  }

  lemma PrependMatches(s: string, i: nat, m: QuantityUnitMatch, rest: seq<QuantityUnitMatch>, isUnit: string -> bool)
    requires i < |s| && MatchAt(s, i, isUnit) == Some(m)
    requires MatchesFrom(s, m.End(), rest, isUnit)
    ensures MatchesFrom(s, i, [m] + rest, isUnit)
  {
    var ms := [m] + rest;
    forall n | 0 <= n < |ms|
      ensures i <= ms[n].start < |s| && MatchAt(s, ms[n].start, isUnit) == Some(ms[n])
    {
      if n > 0 {
        assert ms[n] == rest[n - 1];
      }
    }
  }

  lemma PrependOrdered(m: QuantityUnitMatch, rest: seq<QuantityUnitMatch>)
    requires Ordered(rest)
    requires |rest| > 0 ==> m.End() <= rest[0].start
    ensures Ordered([m] + rest)
  {
    var ms := [m] + rest;
    forall n | 0 <= n < |ms| - 1
      ensures ms[n].End() <= ms[n + 1].start
    {
      assert ms[n + 1] == rest[n];
      if n > 0 {
        assert ms[n] == rest[n - 1];
      }
    }
  }

  lemma PrependCovers(s: string, i: nat, m: QuantityUnitMatch, rest: seq<QuantityUnitMatch>, isUnit: string -> bool)
    requires i < |s| && OnlyLetterWords(isUnit)
    requires MatchAt(s, i, isUnit) == Some(m)
    requires CoversFrom(s, m.End(), rest, isUnit)
    ensures CoversFrom(s, i, [m] + rest, isUnit)
  {
    MatchAtSound(s, i, isUnit);
    NoMatchInside(s, m, isUnit);
    forall p | i <= p <= |s| && MatchAt(s, p, isUnit).Some?
      ensures MatchAt(s, p, isUnit).value in [m] + rest
    {
      if p == i {
        assert MatchAt(s, p, isUnit).value == ([m] + rest)[0];
      } else {
        assert MatchAt(s, p, isUnit).value in rest;
      }
    }
  }

  /** Where no match starts, the matches from the next position are all
      the matches from this one. */
  lemma SkipNoMatch(s: string, i: nat, rest: seq<QuantityUnitMatch>, isUnit: string -> bool)
    requires i < |s| && MatchAt(s, i, isUnit).None?
    requires MatchesFrom(s, i + 1, rest, isUnit) && Ordered(rest) && CoversFrom(s, i + 1, rest, isUnit)
    ensures MatchesFrom(s, i, rest, isUnit) && Ordered(rest) && CoversFrom(s, i, rest, isUnit)
  {
  }

  /** The submatch lists of a sequence of matches, in order. */
  function AllSubmatches(ms: seq<QuantityUnitMatch>): (r: seq<seq<string>>)
    ensures |r| == |ms|
    ensures forall n :: 0 <= n < |ms| ==> r[n] == ms[n].Submatches()
  {
    if ms == [] then [] else [ms[0].Submatches()] + AllSubmatches(ms[1..])
  }

  lemma AllSubmatchesCons(m: QuantityUnitMatch, ms: seq<QuantityUnitMatch>)
    ensures AllSubmatches([m] + ms) == [m.Submatches()] + AllSubmatches(ms)
  {
    assert ([m] + ms)[1..] == ms;
  }

  /** A stretch without digits holds no match start, so scanning it
      finds nothing. */
  lemma {:induction false} ScanSkipsNonDigits(s: string, i: nat, j: nat, isUnit: string -> bool)
    requires i <= j <= |s|
    requires forall p :: i <= p < j ==> !IsDigit(s[p])
    ensures ScanFrom(s, i, isUnit) == ScanFrom(s, j, isUnit)
    decreases j - i
  {
    if i < j {
      ScanSkipsNonDigits(s, i + 1, j, isUnit);
      SkipNonDigit(s, i, isUnit);
    }
  }

  /** No match starts at a character that is not a digit. */
  lemma SkipNonDigit(s: string, i: nat, isUnit: string -> bool)
    requires i < |s| && !IsDigit(s[i])
    ensures ScanFrom(s, i, isUnit) == ScanFrom(s, i + 1, isUnit)
  {
    assert MatchAt(s, i, isUnit) == None;
  }

  // ---------------------------------------------------------------------
  // A literal word: `\bago\b`, `\byesterday\b`
  // ---------------------------------------------------------------------

  /** `w` occurs in `s` at `p` as a whole word: the regex `\bw\b`. */
  predicate IsWordMatch(s: string, w: string, p: nat) {
    && p + |w| <= |s|
    && IsWordBoundary(s, p)
    && s[p..p + |w|] == w
    && IsWordBoundary(s, p + |w|)
  }

  /** No whole-word occurrence starts strictly inside another one. */
  lemma NoWordMatchInside(s: string, w: string, i: nat)
    requires AllWordChars(w) && IsWordMatch(s, w, i)
    ensures forall p :: i < p < i + |w| ==> !IsWordMatch(s, w, p)
  {
    forall p | i < p < i + |w|
      ensures !IsWordBoundary(s, p)
    {
      assert s[p - 1] == s[i..i + |w|][p - 1 - i];
      assert s[p] == s[i..i + |w|][p - i];
    }
  }

  /** The start positions of the whole-word occurrences of `w` at or after
      `i`, scanning left to right and resuming after each occurrence. */
  function WordScanFrom(s: string, w: string, i: nat): seq<nat>
    requires |w| > 0 && i <= |s|
    decreases |s| - i
  {
    if i + |w| > |s| then []
    else if IsWordMatch(s, w, i) then [i] + WordScanFrom(s, w, i + |w|)
    else WordScanFrom(s, w, i + 1)
  }

  /** Every entry of `ps` is a whole-word occurrence of `w` at or after `i`. */
  predicate WordMatchesFrom(s: string, w: string, i: nat, ps: seq<nat>) {
    forall n :: 0 <= n < |ps| ==> i <= ps[n] && IsWordMatch(s, w, ps[n])
  }

  /** Each occurrence ends at or before the next one starts. */
  predicate Spaced(ps: seq<nat>, w: string) {
    forall n :: 0 <= n < |ps| - 1 ==> ps[n] + |w| <= ps[n + 1]
  }

  /** Every whole-word occurrence of `w` at or after `i` is in `ps`. */
  predicate WordCoversFrom(s: string, w: string, i: nat, ps: seq<nat>) {
    forall p :: i <= p <= |s| && IsWordMatch(s, w, p) ==> p in ps
  }

  /** What the word scan finds: every whole-word occurrence of `w` at or
      after `i`, leftmost first, none overlapping the next. */
  lemma {:induction false} WordScanFromSpec(s: string, w: string, i: nat)
    requires |w| > 0 && AllWordChars(w)
    requires i <= |s|
    ensures WordMatchesFrom(s, w, i, WordScanFrom(s, w, i))
    ensures Spaced(WordScanFrom(s, w, i), w)
    ensures WordCoversFrom(s, w, i, WordScanFrom(s, w, i))
    decreases |s| - i
  {
    if i + |w| > |s| {
      assert forall p :: i <= p ==> !IsWordMatch(s, w, p);
    } else if IsWordMatch(s, w, i) {
      var rest := WordScanFrom(s, w, i + |w|);
      WordScanFromSpec(s, w, i + |w|);
      PrependWord(s, w, i, rest);
      assert WordScanFrom(s, w, i) == [i] + rest;
    } else {
      WordScanFromSpec(s, w, i + 1);
      assert WordScanFrom(s, w, i) == WordScanFrom(s, w, i + 1);
    }
  }

  /** The step of `WordScanFromSpec` where `w` occurs at `i`. */
  lemma PrependWord(s: string, w: string, i: nat, rest: seq<nat>)
    requires |w| > 0 && AllWordChars(w) && IsWordMatch(s, w, i)
    requires WordMatchesFrom(s, w, i + |w|, rest) && Spaced(rest, w) && WordCoversFrom(s, w, i + |w|, rest)
    ensures WordMatchesFrom(s, w, i, [i] + rest) && Spaced([i] + rest, w) && WordCoversFrom(s, w, i, [i] + rest)
  {
    var ps := [i] + rest;
    forall n | 0 < n < |ps|
      ensures ps[n] == rest[n - 1]
    {
    }
    NoWordMatchInside(s, w, i);
  }

  /** Where `w` occurs as a whole word, the scan reports it and resumes
      after it. */
  lemma WordScanFromMatch(s: string, w: string, i: nat)
    requires |w| > 0 && i <= |s| && IsWordMatch(s, w, i)
    ensures WordScanFrom(s, w, i) == [i] + WordScanFrom(s, w, i + |w|)
  {
  }

  /** Scanning a stretch in which `w` does not occur as a whole word finds
      nothing there. */
  lemma {:induction false} WordScanSkips(s: string, w: string, i: nat, j: nat)
    requires |w| > 0 && AllWordChars(w)
    requires i <= j <= |s|
    requires forall p :: i <= p < j ==> !IsWordMatch(s, w, p)
    ensures WordScanFrom(s, w, i) == WordScanFrom(s, w, j)
    decreases j - i
  {
    if i < j && i + |w| <= |s| {
      WordScanSkips(s, w, i + 1, j);
    }
  }

  /** A maximal word run `x` at `p` other than `w` is not a whole-word
      occurrence of `w`. */
  lemma OtherWordIsNoMatch(s: string, w: string, p: nat, x: string)
    requires |w| > 0 && AllWordChars(w)
    requires |x| > 0 && AllWordChars(x) && x != w
    requires p + |x| <= |s| && s[p..p + |x|] == x
    requires p + |x| == |s| || !IsWordChar(s[p + |x|])
    ensures !IsWordMatch(s, w, p)
  {
    if p + |w| <= |s| {
      if |w| < |x| {
        assert s[p + |w| - 1] == x[|w| - 1] && s[p + |w|] == x[|w|];
        assert !IsWordBoundary(s, p + |w|);
      } else if |w| > |x| {
        assert s[p..p + |w|][|x|] == s[p + |x|];
        assert s[p..p + |w|] != w;
      } else {
        assert s[p..p + |w|] == x;
      }
    }
  }
}
