/** The quantity group of a quantity+unit match is read with Go's
    `strconv.Atoi`: an optional sign, then one or more decimal digits, with
    a value in the int64 range. Anything else is a `BadQuantity`. */
module Quantity {
  import opened Chars
  import opened Results

  const MaxInt64: int := 0x7FFF_FFFF_FFFF_FFFF
  const MinInt64: int := -0x8000_0000_0000_0000

  function DigitValue(c: char): nat
    requires IsDigit(c)
  {
    c as int - '0' as int
  }

  function DigitChar(d: nat): (c: char)
    requires d < 10
    ensures IsDigit(c) && DigitValue(c) == d
  {
    ('0' as int + d) as char
  }

  /** The value of a string of decimal digits, most significant first. */
  function DecimalValue(t: string): nat
    requires AllDigits(t)
  {
    if |t| == 0 then 0 else 10 * DecimalValue(t[..|t| - 1]) + DigitValue(t[|t| - 1])
  }

  /** Appending a digit to a decimal text: the value shifts one place and
      adds the digit. */
  lemma DecimalValueSnoc(t: string, c: char)
    requires AllDigits(t) && IsDigit(c)
    ensures AllDigits(t + [c]) && DecimalValue(t + [c]) == 10 * DecimalValue(t) + DigitValue(c)
  {
    assert (t + [c])[..|t|] == t;
  }

  /** The text after an optional leading sign. */
  function Unsigned(t: string): string {
    if |t| > 0 && (t[0] == '-' || t[0] == '+') then t[1..] else t
  }

  /** `strconv.Atoi`. A digit run without a sign, which is all the
      quantity+unit matcher ever captures, reads as its decimal value
      exactly when that value fits in an int64. */
  function Atoi(t: string): (r: Result<int>)
    ensures r.Err? ==> r.error == BadQuantity(t)
    ensures r.Ok? ==> MinInt64 <= r.value <= MaxInt64
    ensures r.Ok? ==> |t| > 0 && |Unsigned(t)| > 0 && AllDigits(Unsigned(t))
    ensures |t| > 0 && AllDigits(t) ==> (r.Ok? <==> DecimalValue(t) <= MaxInt64)
    ensures |t| > 0 && AllDigits(t) && r.Ok? ==> r.value == DecimalValue(t)
  {
    var digits := Unsigned(t);
    if |digits| == 0 || !AllDigits(digits) then Err(BadQuantity(t))
    else
      var magnitude: int := DecimalValue(digits);
      var n := if t[0] == '-' then -magnitude else magnitude;
      if MinInt64 <= n <= MaxInt64 then Ok(n) else Err(BadQuantity(t))
  }

  /** The shortest decimal text of `n`: Go's `strconv.Itoa` on a
      non-negative value. */
  function DecimalText(n: nat): (t: string)
    ensures |t| > 0 && AllDigits(t)
    ensures DecimalValue(t) == n
    ensures t[0] == '0' ==> n == 0
  {
    if n < 10 then [DigitChar(n)]
    else
      var prefix := DecimalText(n / 10);
      var t := prefix + [DigitChar(n % 10)];
      assert t[..|t| - 1] == prefix;
      t
  }

  /** `strconv.Itoa`: the decimal text of `n`, with a leading '-' when it
      is negative. */
  function FormatInt(n: int): string {
    if n < 0 then "-" + DecimalText(-n) else DecimalText(n)
  }

  /** `Atoi` reads back what `FormatInt` writes, over the whole int64 range. */
  lemma AtoiFormatInt(n: int)
    requires MinInt64 <= n <= MaxInt64
    ensures Atoi(FormatInt(n)) == Ok(n)
  {
    if n < 0 {
      var t := "-" + DecimalText(-n);
      assert Unsigned(t) == DecimalText(-n);
    }
  }
}
