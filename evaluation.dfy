/** What `readExpression` computes, as functions of the token list: a term is
    a dice token or a number optionally followed by a dice token, and an
    expression is a term optionally followed by an operator and a whole
    expression, so operator chains group to the right. */
module Evaluation {
  import opened Options
  import opened Outcomes
  import opened Tokens
  import opened Results
  import opened Leaves

  /** A parsed term: its value, the draws used up to now, and how many tokens it took. */
  datatype Parsed = Parsed(value: CalcResult, drawn: nat, consumed: nat)

  /** The first term of `ts`, with random draws starting at `from`. */
  function Term(ts: seq<Token>, draw: nat -> nat, from: nat): (r: Outcome<Parsed>)
    ensures r.Ok? ==> 1 <= r.value.consumed <= 2 && r.value.consumed <= |ts|
    ensures r.Ok? ==> forall i :: 0 <= i < r.value.consumed ==> ts[i].kind != Operator
    ensures r.Ok? ==> (r.value.consumed == 2 <==> ts[0].kind == Number && |ts| > 1 && ts[1].kind == Dice)
    ensures r.Ok? ==> Centered(r.value.value) && InRange(r.value.value) && from <= r.value.drawn
  {
    if ts == [] then Fail(UnexpectedEnd)
    else match ts[0].kind
      case Operator => Fail(UnexpectedOperator(ts[0].value))
      case Dice => (
        match DiceLeaf(ts[0].value, 1, draw, from)
        case Fail(e) => Fail(e)
        case Ok(leaf) => Ok(Parsed(leaf.value, leaf.drawn, 1)))
      case Number =>
        if |ts| > 1 && ts[1].kind == Dice then
          match ParseInt(ts[0].value)
          case None => Fail(NotANumber(ts[0].value))
          case Some(multiplier) =>
            match DiceLeaf(ts[1].value, multiplier, draw, from)
            case Fail(e) => Fail(e)
            case Ok(leaf) => Ok(Parsed(leaf.value, leaf.drawn, 2))
        else
          match NumberLeaf(ts[0].value)
          case Fail(e) => Fail(e)
          case Ok(n) => Ok(Parsed(n, from, 1))
  }

  /** The value of the whole token list, with random draws starting at `from`:
      a term and what follows it. Every result is centered: its average is
      halfway between its bounds. */
  function Expression(ts: seq<Token>, draw: nat -> nat, from: nat): (r: Outcome<Sampled>)
    decreases |ts|, 1
    ensures r.Ok? ==> Centered(r.value.value) && from <= r.value.drawn
  {
    match Term(ts, draw, from)
    case Fail(e) => Fail(e)
    case Ok(left) => Rest(left.value, left.drawn, ts[left.consumed..], draw)
  }

  /** What may follow a term whose value is `left`, once `drawn` draws are
      used: the end of the tokens, or an operator and a whole formula. */
  function Rest(left: CalcResult, drawn: nat, rest: seq<Token>, draw: nat -> nat): (r: Outcome<Sampled>)
    decreases |rest|, 0
    ensures r.Ok? && Centered(left) ==> Centered(r.value.value) && drawn <= r.value.drawn
  {
    if rest == [] then Ok(Sampled(left, drawn))
    else if rest[0].kind != Operator then Fail(MissingOperator(rest[0].kind))
    else Combine(left, rest[0].value, Expression(rest[1..], draw, drawn))
  }

  /** Joins a left operand and the value of the rest of the formula with the
      operator between them; the right operand is evaluated before the
      operator is looked at. */
  function Combine(left: CalcResult, op: string, right: Outcome<Sampled>): (r: Outcome<Sampled>)
    ensures right.Fail? ==> r == Fail(right.error)
    ensures right.Ok? && op != "+" && op != "-" ==> r == Fail(UnsupportedOperator(op))
    ensures r.Ok? ==> r.value.drawn == right.value.drawn
    ensures r.Ok? && Centered(left) && Centered(right.value.value) ==> Centered(r.value.value)
  {
    match right
    case Fail(e) => Fail(e)
    case Ok(right) =>
      if op == "+" then Ok(Sampled(Plus(left, right.value), right.drawn))
      else if op == "-" then Ok(Sampled(Minus(left, right.value), right.drawn))
      else Fail(UnsupportedOperator(op))
  }

  predicate OnlyPlus(ts: seq<Token>) {
    forall i :: 0 <= i < |ts| && ts[i].kind == Operator ==> ts[i].value == "+"
  }

  /** A formula that only adds keeps its sample between its bounds. */
  lemma {:induction false} OnlyPlusInRange(ts: seq<Token>, draw: nat -> nat, from: nat)
    requires OnlyPlus(ts)
    requires Expression(ts, draw, from).Ok?
    ensures InRange(Expression(ts, draw, from).value.value)
    ensures Expression(ts, draw, from).value.value.min <= Expression(ts, draw, from).value.value.max
    decreases |ts|
  {
    var left := Term(ts, draw, from).value;
    var rest := ts[left.consumed..];
    if rest != [] {
      var tail := rest[1..];
      assert OnlyPlus(tail) by {
        forall i | 0 <= i < |tail| && tail[i].kind == Operator ensures tail[i].value == "+" {
          assert tail[i] == ts[left.consumed + 1 + i];
        }
      }
      assert rest[0] == ts[left.consumed];
      OnlyPlusInRange(tail, draw, left.drawn);
    }
  }

  /** A formula that ends with an operator, such as `3+`, fails. */
  lemma {:induction false} TrailingOperatorFails(ts: seq<Token>, draw: nat -> nat, from: nat)
    requires ts != [] && ts[|ts| - 1].kind == Operator
    ensures Expression(ts, draw, from).Fail?
    decreases |ts|
  {
    match Term(ts, draw, from)
    case Fail(_) =>
    case Ok(left) =>
      var rest := ts[left.consumed..];
      assert rest != [] by {
        assert ts[|ts| - 1] != ts[left.consumed - 1] || |ts| != left.consumed;
      }
      if rest[0].kind == Operator && |rest| > 1 {
        assert rest[1..][|rest| - 2] == ts[|ts| - 1];
        TrailingOperatorFails(rest[1..], draw, left.drawn);
      } else if rest[0].kind == Operator {
        assert Expression(rest[1..], draw, left.drawn) == Fail(UnexpectedEnd);
      }
  }

  /** Operands at `i` and `i + 1` with no operator between them; a number
      followed by a dice token is a term, not such a pair. */
  predicate AdjacentOperands(ts: seq<Token>, i: nat) {
    && i + 1 < |ts|
    && ts[i].kind != Operator && ts[i + 1].kind != Operator
    && !(ts[i].kind == Number && ts[i + 1].kind == Dice)
  }

  /** Two adjacent operands, as in `d8d6`, make the formula fail. */
  lemma {:induction false} AdjacentOperandsFail(ts: seq<Token>, i: nat, draw: nat -> nat, from: nat)
    requires AdjacentOperands(ts, i)
    ensures Expression(ts, draw, from).Fail?
    decreases |ts|
  {
    match Term(ts, draw, from)
    case Fail(_) =>
    case Ok(left) =>
      var c := left.consumed;
      var rest := ts[c..];
      if i < c {
        assert i + 1 == c && rest[0] == ts[i + 1];
        assert Expression(ts, draw, from) == Fail(MissingOperator(rest[0].kind));
      } else if i == c {
        assert rest[0] == ts[i];
        assert Expression(ts, draw, from) == Fail(MissingOperator(rest[0].kind));
      } else if rest[0].kind == Operator {
        var tail := rest[1..];
        assert tail[i - c - 1] == ts[i] && tail[i - c] == ts[i + 1];
        AdjacentOperandsFail(tail, i - c - 1, draw, left.drawn);
      }
  }

  /** An operator where a term should start: at the front, or right after
      another operator. */
  predicate OperatorForTerm(ts: seq<Token>, i: nat) {
    && i < |ts| && ts[i].kind == Operator
    && (i == 0 || ts[i - 1].kind == Operator)
  }

  /** An operator where a term should start, as in `+3` or `3++4`, makes the
      formula fail. */
  lemma {:induction false} OperatorForTermFails(ts: seq<Token>, i: nat, draw: nat -> nat, from: nat)
    requires OperatorForTerm(ts, i)
    ensures Expression(ts, draw, from).Fail?
    decreases |ts|
  {
    match Term(ts, draw, from)
    case Fail(_) =>
    case Ok(left) =>
      var c := left.consumed;
      assert c <= i;
      if c < i && ts[c].kind == Operator {
        var tail := ts[c + 1..];
        assert tail[i - c - 1] == ts[i];
        assert i - c - 1 > 0 ==> tail[i - c - 2] == ts[i - 1];
        OperatorForTermFails(tail, i - c - 1, draw, left.drawn);
        assert ts[c..][1..] == tail;
      }
  }

  /** `toInt` reads the string as a value the leaves accept: in [1, Limit]. */
  predicate InLimit(value: string) { ParseInt(value).Some? && 1 <= ParseInt(value).value <= Limit }

  /** Every operand token, a multiplier included, holds a value in [1, Limit]. */
  predicate OperandsInLimit(ts: seq<Token>) {
    forall i :: 0 <= i < |ts| && ts[i].kind != Operator ==> InLimit(ts[i].value)
  }

  /** A formula of the grammar: terms separated by single operators, with no
      operator at either end and no two operands side by side that do not
      form a term. */
  predicate Grammatical(ts: seq<Token>) {
    && ts != [] && ts[|ts| - 1].kind != Operator
    && (forall i: nat :: i < |ts| ==> !OperatorForTerm(ts, i))
    && (forall i: nat :: i < |ts| ==> !AdjacentOperands(ts, i))
  }

  /** The tokens a term takes hold values in [1, Limit]. */
  lemma TermInLimit(ts: seq<Token>, draw: nat -> nat, from: nat)
    requires Term(ts, draw, from).Ok?
    ensures forall j :: 0 <= j < Term(ts, draw, from).value.consumed ==> InLimit(ts[j].value)
  {
  }

  /** An operand outside [1, Limit], or one `toInt` cannot read, makes the
      formula fail, wherever it stands. */
  lemma {:induction false} OperandOutOfLimitFails(ts: seq<Token>, i: nat, draw: nat -> nat, from: nat)
    requires i < |ts| && ts[i].kind != Operator && !InLimit(ts[i].value)
    ensures Expression(ts, draw, from).Fail?
    decreases |ts|
  {
    match Term(ts, draw, from)
    case Fail(_) =>
    case Ok(left) =>
      var c := left.consumed;
      TermInLimit(ts, draw, from);
      assert c <= i;
      if c < i && ts[c].kind == Operator {
        var tail := ts[c + 1..];
        assert tail[i - c - 1] == ts[i];
        OperandOutOfLimitFails(tail, i - c - 1, draw, left.drawn);
        assert ts[c..][1..] == tail;
      } else {
        assert ts[c..][0] == ts[c];
      }
  }

  /** A term whose operand tokens are in [1, Limit] has a value. */
  lemma TermSucceeds(ts: seq<Token>, draw: nat -> nat, from: nat)
    requires ts != [] && ts[0].kind != Operator && OperandsInLimit(ts)
    ensures Term(ts, draw, from).Ok?
  {
    assert InLimit(ts[0].value);
    if |ts| > 1 && ts[1].kind == Dice {
      assert InLimit(ts[1].value);
    }
  }

  /** What follows an operator in a formula of the grammar is one too. */
  lemma GrammaticalAfter(ts: seq<Token>, c: nat)
    requires Grammatical(ts) && c < |ts| && ts[c].kind == Operator
    ensures c + 1 < |ts| && Grammatical(ts[c + 1..])
  {
    var tail := ts[c + 1..];
    assert tail[|tail| - 1] == ts[|ts| - 1];
    forall j: nat | j < |tail| ensures !OperatorForTerm(tail, j) {
      assert !OperatorForTerm(ts, c + 1 + j);
      assert tail[j] == ts[c + 1 + j];
      if j > 0 { assert tail[j - 1] == ts[c + j]; }
    }
    forall j: nat | j < |tail| ensures !AdjacentOperands(tail, j) {
      assert !AdjacentOperands(ts, c + 1 + j);
      if j + 1 < |tail| { assert tail[j] == ts[c + 1 + j] && tail[j + 1] == ts[c + 2 + j]; }
    }
  }

  lemma InLimitAfter(ts: seq<Token>, k: nat)
    requires OperandsInLimit(ts) && k <= |ts|
    ensures OperandsInLimit(ts[k..])
  {
    var tail := ts[k..];
    forall j | 0 <= j < |tail| && tail[j].kind != Operator ensures InLimit(tail[j].value) {
      assert tail[j] == ts[k + j];
    }
  }

  /** A formula of the grammar whose operands are all in [1, Limit] has a
      value, whatever the random draws. */
  lemma {:induction false} GrammaticalSucceeds(ts: seq<Token>, draw: nat -> nat, from: nat)
    requires Shaped(ts) && Grammatical(ts) && OperandsInLimit(ts)
    ensures Expression(ts, draw, from).Ok?
    decreases |ts|
  {
    assert !OperatorForTerm(ts, 0);
    TermSucceeds(ts, draw, from);
    var left := Term(ts, draw, from).value;
    var c := left.consumed;
    if c < |ts| {
      assert !AdjacentOperands(ts, c - 1);
      assert ts[c].kind == Operator && TokenShape(ts[c], Before(ts, c));
      GrammaticalAfter(ts, c);
      ShapedSuffix(ts, c + 1);
      InLimitAfter(ts, c + 1);
      GrammaticalSucceeds(ts[c + 1..], draw, left.drawn);
      assert ts[c..][0] == ts[c] && ts[c..][1..] == ts[c + 1..];
    }
  }

  /** A token list of the tokenizer's shape has a value exactly when it is a
      formula of the grammar whose operands are all in [1, Limit]; otherwise
      one of the failure lemmas above names the defect. */
  lemma ExpressionSucceedsExactly(ts: seq<Token>, draw: nat -> nat, from: nat)
    requires Shaped(ts)
    ensures Expression(ts, draw, from).Ok? <==> Grammatical(ts) && OperandsInLimit(ts)
  {
    if Grammatical(ts) && OperandsInLimit(ts) {
      GrammaticalSucceeds(ts, draw, from);
    } else if ts == [] {
    } else if ts[|ts| - 1].kind == Operator {
      TrailingOperatorFails(ts, draw, from);
    } else if exists i: nat :: i < |ts| && OperatorForTerm(ts, i) {
      var i: nat :| OperatorForTerm(ts, i);
      OperatorForTermFails(ts, i, draw, from);
    } else if exists i: nat :: i < |ts| && AdjacentOperands(ts, i) {
      var i: nat :| AdjacentOperands(ts, i);
      AdjacentOperandsFail(ts, i, draw, from);
    } else {
      var i: nat :| i < |ts| && ts[i].kind != Operator && !InLimit(ts[i].value);
      OperandOutOfLimitFails(ts, i, draw, from);
    }
  }

  /** `lead` writes the first term of `ts` back as tokens: a well-formed list
      whose text is the term's text and which, read as a term before `x`,
      gives the same value with the same draws. */
  predicate WritesTerm(ts: seq<Token>, x: seq<Token>, draw: nat -> nat, from: nat, lead: seq<Token>)
    requires Term(ts, draw, from).Ok?
  {
    var left := Term(ts, draw, from).value;
    && WellFormed(lead) && FacesWritten(lead)
    && Render(lead) == left.value.text
    && Term(lead + x, draw, from) == Ok(Parsed(left.value, left.drawn, |lead|))
  }

  lemma LeadDice(ts: seq<Token>, x: seq<Token>, draw: nat -> nat, from: nat)
    requires Shaped(ts) && Term(ts, draw, from).Ok? && ts[0].kind == Dice
    requires x == [] || x[0].kind == Operator
    ensures WritesTerm(ts, x, draw, from, [ts[0]])
  {
    assert TokenShape(ts[0], Before(ts, 0));
    assert ([ts[0]] + x)[0] == ts[0];
  }

  lemma LeadSingleDie(ts: seq<Token>, x: seq<Token>, draw: nat -> nat, from: nat)
    requires Shaped(ts) && Term(ts, draw, from).Ok?
    requires ts[0].kind == Number && |ts| > 1 && ts[1].kind == Dice && ParseInt(ts[0].value) == Some(1)
    requires x == [] || x[0].kind == Operator
    ensures WritesTerm(ts, x, draw, from, [ts[1]])
  {
    assert TokenShape(ts[1], Before(ts, 1));
    assert ([ts[1]] + x)[0] == ts[1];
  }

  lemma LeadMultipliedDice(ts: seq<Token>, x: seq<Token>, draw: nat -> nat, from: nat, multiplier: nat)
    requires Shaped(ts) && Term(ts, draw, from).Ok?
    requires ts[0].kind == Number && |ts| > 1 && ts[1].kind == Dice
    requires ParseInt(ts[0].value) == Some(multiplier) && multiplier != 1
    requires x == [] || x[0].kind == Operator
    ensures WritesTerm(ts, x, draw, from, [NumberToken(multiplier), ts[1]])
  {
    var lead := [NumberToken(multiplier), ts[1]];
    assert TokenShape(ts[1], Before(ts, 1));
    DecimalRoundTrip(multiplier);
    assert (lead + x)[0] == lead[0] && (lead + x)[1] == ts[1];
    assert Shaped(lead) by {
      assert TokenShape(lead[0], Before(lead, 0));
      assert Before(lead, 1) == Some(Number);
    }
    var leaf := DiceLeaf(ts[1].value, multiplier, draw, from);
    assert leaf.Ok? && Term(ts, draw, from) == Ok(Parsed(leaf.value.value, leaf.value.drawn, 2));
    assert ts[1].value != "";
    assert lead[1..] == [ts[1]] && Render([ts[1]]) == "d" + ts[1].value;
    assert Render(lead) == DecimalString(multiplier) + ("d" + ts[1].value);
    assert Term(lead + x, draw, from) == Ok(Parsed(leaf.value.value, leaf.value.drawn, 2));
  }

  lemma LeadConstant(ts: seq<Token>, x: seq<Token>, draw: nat -> nat, from: nat, n: nat)
    requires Shaped(ts) && Term(ts, draw, from).Ok?
    requires ts[0].kind == Number && !(|ts| > 1 && ts[1].kind == Dice) && ParseInt(ts[0].value) == Some(n)
    requires x == [] || x[0].kind == Operator
    ensures WritesTerm(ts, x, draw, from, [NumberToken(n)])
  {
    var lead := [NumberToken(n)];
    DecimalRoundTrip(n);
    assert (lead + x)[0] == lead[0];
    assert |lead + x| > 1 ==> (lead + x)[1] == x[0];
  }

  /** The first term of a shaped list written back as tokens: a multiplier of
      1 is dropped and numbers lose their leading zeros. */
  lemma LeadTerm(ts: seq<Token>, x: seq<Token>, draw: nat -> nat, from: nat) returns (lead: seq<Token>)
    requires Shaped(ts) && Term(ts, draw, from).Ok?
    requires x == [] || x[0].kind == Operator
    ensures WritesTerm(ts, x, draw, from, lead)
  {
    var head := ts[0];
    assert TokenShape(head, Before(ts, 0));
    if head.kind == Dice {
      lead := [head];
      LeadDice(ts, x, draw, from);
    } else if |ts| > 1 && ts[1].kind == Dice {
      var multiplier := ParseInt(head.value).value;
      if multiplier == 1 {
        lead := [ts[1]];
        LeadSingleDie(ts, x, draw, from);
      } else {
        lead := [NumberToken(multiplier), ts[1]];
        LeadMultipliedDice(ts, x, draw, from, multiplier);
      }
    } else {
      var n := ParseInt(head.value).value;
      lead := [NumberToken(n)];
      LeadConstant(ts, x, draw, from, n);
    }
  }

  /** A formula whose first term is followed by more tokens succeeds only
      with `+` or `-` next and a formula after it; its text is the two texts
      with that sign between them. */
  lemma OperatorStep(ts: seq<Token>, draw: nat -> nat, from: nat)
    requires Term(ts, draw, from).Ok? && Expression(ts, draw, from).Ok?
    requires Term(ts, draw, from).value.consumed < |ts|
    ensures var left := Term(ts, draw, from).value;
            var c := left.consumed;
            var right := Expression(ts[c + 1..], draw, left.drawn);
            && ts[c].kind == Operator && (ts[c].value == "+" || ts[c].value == "-") && right.Ok?
            && Expression(ts, draw, from).value.value.text == left.value.text + ts[c].value + right.value.value.text
  {
    var left := Term(ts, draw, from).value;
    var c := left.consumed;
    assert ts[c..][0] == ts[c] && ts[c..][1..] == ts[c + 1..];
  }

  /** A formula of a single term round-trips through its text. */
  lemma SingleTermText(ts: seq<Token>, draw: nat -> nat, from: nat) returns (us: seq<Token>)
    requires Shaped(ts) && Term(ts, draw, from).Ok? && Term(ts, draw, from).value.consumed == |ts|
    ensures WellFormed(us) && FacesWritten(us)
    ensures Expression(ts, draw, from).Ok?
    ensures Render(us) == Expression(ts, draw, from).value.value.text
    ensures Expression(us, draw, from) == Expression(ts, draw, from)
  {
    us := LeadTerm(ts, [], draw, from);
    assert us + [] == us && us[|us|..] == [] && ts[|ts|..] == [];
  }

  /** A formula is its first term and what follows it. */
  lemma ExpressionOfTerm(ts: seq<Token>, left: Parsed, draw: nat -> nat, from: nat)
    requires Term(ts, draw, from) == Ok(left)
    ensures Expression(ts, draw, from) == Rest(left.value, left.drawn, ts[left.consumed..], draw)
  {
  }

  /** An operator followed by formulas that evaluate alike continues a term alike. */
  lemma RestAgree(left: CalcResult, drawn: nat, op: Token, a: seq<Token>, b: seq<Token>, draw: nat -> nat)
    requires op.kind == Operator && Expression(a, draw, drawn) == Expression(b, draw, drawn)
    ensures Rest(left, drawn, [op] + a, draw) == Rest(left, drawn, [op] + b, draw)
  {
    assert ([op] + a)[1..] == a && ([op] + b)[1..] == b;
  }

  /** A term, an operator and a formula that round-trips through its text
      round-trip through their joined text. */
  lemma JoinedText(ts: seq<Token>, right: seq<Token>, draw: nat -> nat, from: nat) returns (us: seq<Token>)
    requires Shaped(ts) && Term(ts, draw, from).Ok? && Expression(ts, draw, from).Ok?
    requires var left := Term(ts, draw, from).value;
             var c := left.consumed;
             && c < |ts|
             && WellFormed(right) && FacesWritten(right)
             && Expression(ts[c + 1..], draw, left.drawn).Ok?
             && Render(right) == Expression(ts[c + 1..], draw, left.drawn).value.value.text
             && Expression(right, draw, left.drawn) == Expression(ts[c + 1..], draw, left.drawn)
    ensures WellFormed(us) && FacesWritten(us)
    ensures Render(us) == Expression(ts, draw, from).value.value.text
    ensures Expression(us, draw, from) == Expression(ts, draw, from)
  {
    var left := Term(ts, draw, from).value;
    var c := left.consumed;
    OperatorStep(ts, draw, from);
    var op, tail := ts[c], ts[c + 1..];
    var lead := LeadTerm(ts, [op] + right, draw, from);
    JoinTokens(lead, op, right);
    us := lead + [op] + right;
    assert us == lead + ([op] + right) && us[|lead|..] == [op] + right;
    ExpressionOfTerm(us, Parsed(left.value, left.drawn, |lead|), draw, from);
    assert ts[c..] == [op] + tail;
    ExpressionOfTerm(ts, left, draw, from);
    RestAgree(left.value, left.drawn, op, right, tail, draw);
  }

  /** The text of a result is a formula of its own: it tokenizes into a
      well-formed list that evaluates to the very same result, with the same
      draws. */
  lemma {:induction false} TextRoundTrip(ts: seq<Token>, draw: nat -> nat, from: nat) returns (us: seq<Token>)
    requires Shaped(ts) && Expression(ts, draw, from).Ok?
    ensures WellFormed(us) && FacesWritten(us)
    ensures Render(us) == Expression(ts, draw, from).value.value.text
    ensures Expression(us, draw, from) == Expression(ts, draw, from)
    decreases |ts|
  {
    var left := Term(ts, draw, from).value;
    var c := left.consumed;
    if c == |ts| {
      us := SingleTermText(ts, draw, from);
    } else {
      OperatorStep(ts, draw, from);
      ShapedSuffix(ts, c + 1);
      var right := TextRoundTrip(ts[c + 1..], draw, left.drawn);
      us := JoinedText(ts, right, draw, from);
    }
  }

  /** The value of a whole formula, with the draws numbered from 0. */
  function Evaluate(ts: seq<Token>, draw: nat -> nat): Outcome<CalcResult> {
    match Expression(ts, draw, 0)
    case Fail(e) => Fail(e)
    case Ok(s) => Ok(s.value)
  }

  function NumberToken(n: nat): Token { Token(Number, DecimalString(n)) }

  function Constant(n: nat): CalcResult { CalcResult(n, n, n as real, n, DecimalString(n)) }

  /** A constant in range not followed by a dice token is a one-token term. */
  lemma ConstantTerm(n: nat, ts: seq<Token>, draw: nat -> nat, from: nat)
    requires 1 <= n <= Limit && ts != [] && ts[0] == NumberToken(n)
    requires |ts| == 1 || ts[1].kind != Dice
    ensures Term(ts, draw, from) == Ok(Parsed(Constant(n), from, 1))
  {
    DecimalRoundTrip(n);
  }

  /** Unfolding `Expression` once for a term followed by `+` or `-` and a formula. */
  lemma CombineStep(ts: seq<Token>, draw: nat -> nat, from: nat)
    requires Term(ts, draw, from).Ok?
    requires var c := Term(ts, draw, from).value.consumed;
             c < |ts| && ts[c].kind == Operator && ts[c].value in {"+", "-"}
             && Expression(ts[c + 1..], draw, Term(ts, draw, from).value.drawn).Ok?
    ensures var left := Term(ts, draw, from).value;
            var right := Expression(ts[left.consumed + 1..], draw, left.drawn).value;
            var op := ts[left.consumed].value;
            Expression(ts, draw, from)
              == Ok(Sampled(if op == "+" then Plus(left.value, right.value) else Minus(left.value, right.value),
                            right.drawn))
  {
    var left := Term(ts, draw, from).value;
    assert ts[left.consumed..][1..] == ts[left.consumed + 1..];
  }

  /** `x - y - z` evaluates as `x - (y - z)`: subtraction chains group to the
      right, so the result is `x - y + z`, not `x - y - z`. */
  lemma SubtractionGroupsRight(x: nat, y: nat, z: nat, draw: nat -> nat)
    requires 1 <= x <= Limit && 1 <= y <= Limit && 1 <= z <= Limit
    ensures var ts := [NumberToken(x), Token(Operator, "-"), NumberToken(y), Token(Operator, "-"), NumberToken(z)];
            var v := x - y + z;
            Evaluate(ts, draw).Ok?
            && Evaluate(ts, draw).value.min == v && Evaluate(ts, draw).value.max == v
            && Evaluate(ts, draw).value.generated == v && Evaluate(ts, draw).value.average == v as real
  {
    var last := [NumberToken(z)];
    ConstantTerm(z, last, draw, 0);
    assert Expression(last, draw, 0) == Ok(Sampled(Constant(z), 0));
    var tail := [NumberToken(y), Token(Operator, "-")] + last;
    ConstantTerm(y, tail, draw, 0);
    assert tail[2..] == last;
    CombineStep(tail, draw, 0);
    var ts := [NumberToken(x), Token(Operator, "-")] + tail;
    ConstantTerm(x, ts, draw, 0);
    assert ts[2..] == tail;
    CombineStep(ts, draw, 0);
    assert Expression(ts, draw, 0) == Ok(Sampled(Minus(Constant(x), Minus(Constant(y), Constant(z))), 0));
    assert ts == [NumberToken(x), Token(Operator, "-"), NumberToken(y), Token(Operator, "-"), NumberToken(z)];
  }

  /** The formula of the source's own test, `3d8+1`: bounds 4 and 25, average 14.5. */
  lemma ThreeD8PlusOne(draw: nat -> nat)
    ensures var r := Evaluate([NumberToken(3), Token(Dice, "8"), Token(Operator, "+"), NumberToken(1)], draw);
            && r.Ok? && r.value.min == 4 && r.value.max == 25 && r.value.average == 14.5
            && 4 <= r.value.generated <= 25 && r.value.text == "3d8+1"
  {
    var ts := [NumberToken(3), Token(Dice, "8"), Token(Operator, "+"), NumberToken(1)];
    assert DecimalString(3) == "3" && DecimalString(8) == "8" && DecimalString(1) == "1";
    DecimalRoundTrip(3);
    DecimalRoundTrip(8);
    var dice := DiceLeaf("8", 3, draw, 0).value;
    assert Term(ts, draw, 0) == Ok(Parsed(dice.value, 3, 2));
    var last := ts[3..];
    ConstantTerm(1, last, draw, 3);
    assert Expression(last, draw, 3) == Ok(Sampled(Constant(1), 3));
    CombineStep(ts, draw, 0);
    assert Evaluate(ts, draw) == Ok(Plus(dice.value, Constant(1)));
  }
}
