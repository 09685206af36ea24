/** The two leaves of a formula: a dice term such as `3d8` and a constant such
    as `5`, and the integer conversions they rely on. */
module Leaves {
  import opened Options
  import opened Outcomes
  import opened Tokens
  import opened Results

  const IntMin: int := -0x8000_0000
  const IntMax: int := 0x7fff_ffff

  /** The largest multiplier, face count and constant a formula may use. */
  const Limit: int := 1000

  function DigitValue(c: char): nat
    requires IsDigit(c)
  {
    (c as int) - ('0' as int)
  }

  function DigitChar(d: nat): char
    requires d < 10
  {
    ('0' as int + d) as char
  }

  /** The value of a digit string read in base ten. */
  function DigitsValue(s: string): nat
    requires IsDigits(s)
  {
    if s == [] then 0 else 10 * DigitsValue(s[..|s| - 1]) + DigitValue(s[|s| - 1])
  }

  /** Kotlin's `String.toInt()`: an optional sign, then at least one digit, and
      a value that fits a 32-bit `Int`; anything else is a `NumberFormatException`. */
  function ParseInt(s: string): Option<int> {
    if s == [] then None
    else if IsSign(s[0]) then
      if |s| == 1 || !IsDigits(s[1..]) then None
      else
        var magnitude: int := DigitsValue(s[1..]);
        var v := if s[0] == '-' then -magnitude else magnitude;
        if IntMin <= v <= IntMax then Some(v) else None
    else if IsDigits(s) && DigitsValue(s) <= IntMax then Some(DigitsValue(s))
    else None
  }

  /** `toInt` reads only an optional sign followed by digits, and on a plain
      digit string it gives the base-ten value exactly when that fits an `Int`. */
  lemma ParseIntDigits(s: string)
    ensures ParseInt(s).Some? ==> IntMin <= ParseInt(s).value <= IntMax
    ensures ParseInt(s).Some? ==> s != [] && (IsDigits(s) || (IsSign(s[0]) && |s| > 1 && IsDigits(s[1..])))
    ensures s != [] && IsDigits(s) ==> (ParseInt(s).Some? <==> DigitsValue(s) <= IntMax)
    ensures s != [] && IsDigits(s) && ParseInt(s).Some? ==> ParseInt(s).value == DigitsValue(s)
  {
  }

  /** Kotlin's `Int.toString()` for a natural number. */
  function DecimalString(n: nat): (r: string)
    ensures r != [] && IsDigits(r)
  {
    if n < 10 then [DigitChar(n)] else DecimalString(n / 10) + [DigitChar(n % 10)]
  }

  /** `toString` writes no leading zero: only 0 itself starts with `0`. */
  lemma {:induction false} DecimalStringLeadingDigit(n: nat)
    ensures |DecimalString(n)| == 1 <==> n < 10
    ensures DecimalString(n)[0] == '0' <==> n == 0
  {
    if n >= 10 {
      DecimalStringLeadingDigit(n / 10);
      assert DecimalString(n)[0] == DecimalString(n / 10)[0];
    }
  }

  lemma {:induction false} DecimalStringValue(n: nat)
    ensures DigitsValue(DecimalString(n)) == n
  {
    var r := DecimalString(n);
    if n >= 10 {
      DecimalStringValue(n / 10);
      assert r[..|r| - 1] == DecimalString(n / 10);
    }
  }

  /** Printing a number and reading it back gives the number. */
  lemma DecimalRoundTrip(n: nat)
    requires n <= IntMax
    ensures ParseInt(DecimalString(n)) == Some(n)
  {
    DecimalStringValue(n);
    var r := DecimalString(n);
    assert IsDigit(r[0]);
  }

  /** `numberResult`: a constant in [1, 1000] is its own bounds, mean and sample. */
  function NumberLeaf(value: string): (r: Outcome<CalcResult>)
    ensures r.Ok? <==> ParseInt(value).Some? && 1 <= ParseInt(value).value <= Limit
    ensures ParseInt(value).None? ==> r == Fail(NotANumber(value))
    ensures ParseInt(value).Some? && !(1 <= ParseInt(value).value <= Limit)
            ==> r == Fail(UnsupportedNumber(ParseInt(value).value))
    ensures r.Ok? ==>
              var n := ParseInt(value).value;
              && r.value.min == n && r.value.max == n && r.value.generated == n
              && r.value.average == n as real
              && r.value.text == DecimalString(n) && ParseInt(r.value.text) == Some(n)
  {
    match ParseInt(value)
    case None => Fail(NotANumber(value))
    case Some(n) =>
      if n < 1 || n > Limit then Fail(UnsupportedNumber(n))
      else
        DecimalRoundTrip(n);
        Ok(CalcResult(n, n, n as real, n, DecimalString(n)))
  }

  /** The sum of `count` rolls of a die with `faces` faces, the j-th roll being
      `draw(from + j) % faces + 1`. */
  function RollSum(draw: nat -> nat, from: nat, faces: int, count: nat): int
    requires faces >= 1
  {
    if count == 0 then 0
    else RollSum(draw, from, faces, count - 1) + (draw(from + count - 1) % faces + 1)
  }

  /** Every roll is between 1 and `faces`, so the sum is between `count` and `count * faces`. */
  lemma {:induction false} RollSumBounds(draw: nat -> nat, from: nat, faces: int, count: nat)
    requires faces >= 1
    ensures count <= RollSum(draw, from, faces, count) <= count * faces
  {
    if count > 0 {
      RollSumBounds(draw, from, faces, count - 1);
      assert (count - 1) * faces + faces == count * faces;
    }
  }

  /** A result together with the number of random draws used up to now. */
  datatype Sampled = Sampled(value: CalcResult, drawn: nat)

  /** The canonical text of `<multiplier>d<value>`: the multiplier is dropped when it is 1. */
  function DiceText(value: string, multiplier: nat): string {
    if multiplier == 1 then "d" + value else DecimalString(multiplier) + "d" + value
  }

  /** The dice text ends with `d` and the face count, and what comes before
      the `d` is empty for one die and otherwise the multiplier in base ten. */
  lemma DiceTextParts(value: string, multiplier: nat)
    ensures var r := DiceText(value, multiplier);
            && |r| > |value| && r[|r| - |value| - 1..] == "d" + value
            && var prefix := r[..|r| - |value| - 1];
            && (multiplier == 1 <==> prefix == [])
            && (multiplier != 1 ==> IsDigits(prefix) && DigitsValue(prefix) == multiplier)
  {
    if multiplier != 1 {
      var prefix := DecimalString(multiplier);
      DecimalStringValue(multiplier);
      assert (prefix + "d" + value)[..|prefix|] == prefix;
    }
  }

  /** `diceResult`: the multiplier is checked first, then the face count is read
      and checked; the sample uses `multiplier` draws starting at `from`. */
  function DiceLeaf(value: string, multiplier: int, draw: nat -> nat, from: nat): (r: Outcome<Sampled>)
    ensures r.Ok? <==> 1 <= multiplier <= Limit && ParseInt(value).Some? && 1 <= ParseInt(value).value <= Limit
    ensures !(1 <= multiplier <= Limit) ==> r == Fail(IncorrectMultiplier(multiplier))
    ensures 1 <= multiplier <= Limit && ParseInt(value).None? ==> r == Fail(NotANumber(value))
    ensures 1 <= multiplier <= Limit && ParseInt(value).Some? && !(1 <= ParseInt(value).value <= Limit)
            ==> r == Fail(IncorrectFaces(ParseInt(value).value))
    ensures r.Ok? ==>
              var faces := ParseInt(value).value;
              && r.value.value.min == multiplier
              && r.value.value.max == faces * multiplier
              && Centered(r.value.value)
              && InRange(r.value.value)
              && r.value.value.text == DiceText(value, multiplier)
              && r.value.drawn == from + multiplier
  {
    if multiplier < 1 || multiplier > Limit then Fail(IncorrectMultiplier(multiplier))
    else match ParseInt(value)
      case None => Fail(NotANumber(value))
      case Some(faces) =>
        if faces < 1 || faces > Limit then Fail(IncorrectFaces(faces))
        else
          var min, max := multiplier, faces * multiplier;
          var generated := RollSum(draw, from, faces, multiplier);
          RollSumBounds(draw, from, faces, multiplier);
          Ok(Sampled(CalcResult(min, max, (min + max) as real / 2.0, generated, DiceText(value, multiplier)),
                     from + multiplier))
  }
}
