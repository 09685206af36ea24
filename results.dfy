/** The value a dice formula evaluates to: its least and greatest possible
    totals, the mean total, one sampled total and a canonical text. */
module Results {

  /** `average` is exact: leaves give half-integers and combination only adds
      and subtracts them. */
  datatype CalcResult = CalcResult(min: int, max: int, average: real, generated: int, text: string)

  /** The average lies halfway between the bounds. */
  predicate Centered(r: CalcResult) { r.average == (r.min + r.max) as real / 2.0 }

  /** The sample lies within the bounds. */
  predicate InRange(r: CalcResult) { r.min <= r.generated <= r.max }

  /** `plus`: adding two results keeps the average halfway between the bounds
      and the sample within them. */
  function Plus(a: CalcResult, b: CalcResult): (r: CalcResult)
    ensures Centered(a) && Centered(b) ==> Centered(r)
    ensures InRange(a) && InRange(b) ==> InRange(r)
  {
    assert Centered(a) && Centered(b) ==>
      (a.min + b.min + a.max + b.max) as real / 2.0 == (a.min + a.max) as real / 2.0 + (b.min + b.max) as real / 2.0;
    CalcResult(a.min + b.min, a.max + b.max, a.average + b.average,
               a.generated + b.generated, a.text + "+" + b.text)
  }

  /** `minus`: subtracting bound from bound keeps the average halfway, but the
      spread `max - min` of the difference is the difference of the spreads,
      so it is negative whenever the subtrahend is the wider one. */
  function Minus(a: CalcResult, b: CalcResult): (r: CalcResult)
    ensures Centered(a) && Centered(b) ==> Centered(r)
    ensures r.max - r.min == (a.max - a.min) - (b.max - b.min)
  {
    assert Centered(a) && Centered(b) ==>
      (a.min - b.min + a.max - b.max) as real / 2.0 == (a.min + a.max) as real / 2.0 - (b.min + b.max) as real / 2.0;
    CalcResult(a.min - b.min, a.max - b.max, a.average - b.average,
               a.generated - b.generated, a.text + "-" + b.text)
  }

  /** Subtracting does not keep the sample within the bounds: `1 - d6` has bounds 0 and -5. */
  lemma MinusOutOfRange()
    ensures var one := CalcResult(1, 1, 1.0, 1, "1");
            var d6 := CalcResult(1, 6, 3.5, 6, "d6");
            InRange(one) && InRange(d6) && Centered(one) && Centered(d6)
            && !InRange(Minus(one, d6)) && Minus(one, d6).min > Minus(one, d6).max
  {
  }

  /** Subtracting what was added gives back the numbers (not the text). */
  lemma MinusUndoesPlus(a: CalcResult, b: CalcResult)
    ensures var r := Minus(Plus(a, b), b);
            r.min == a.min && r.max == a.max && r.average == a.average && r.generated == a.generated
            && r.text == a.text + "+" + b.text + "-" + b.text
  {
  }

  /** Adding groups either way, text included ... */
  lemma PlusAssociative(a: CalcResult, b: CalcResult, c: CalcResult)
    ensures Plus(Plus(a, b), c) == Plus(a, Plus(b, c))
  {
    assert (a.text + "+" + b.text) + "+" + c.text == a.text + "+" + (b.text + "+" + c.text);
  }

  /** ... subtracting does not: grouping to the right adds `2 * c` back to every number. */
  lemma MinusGroupsRight(a: CalcResult, b: CalcResult, c: CalcResult)
    ensures var right, left := Minus(a, Minus(b, c)), Minus(Minus(a, b), c);
            right.min == left.min + 2 * c.min && right.max == left.max + 2 * c.max
            && right.average == left.average + 2.0 * c.average
            && right.generated == left.generated + 2 * c.generated
            && right.text == left.text
  {
    assert a.text + "-" + (b.text + "-" + c.text) == (a.text + "-" + b.text) + "-" + c.text;
  }
}
