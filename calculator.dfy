/** `DndCalculator.calculate`: normalise the request, tokenize it, and parse
    the tokens with a fresh parser over a fresh random source. */
module Calculator {
  import opened Options
  import opened Outcomes
  import opened Tokens
  import opened Normalizer
  import opened Lexer
  import opened Results
  import opened Leaves
  import opened Evaluation
  import opened Parsing

  /** `ts` is what the tokenizer makes of `text`. */
  predicate Tokenization(text: string, ts: seq<Token>) { WellFormed(ts) && Render(ts) == text }

  /** The result of a request is that of its unique tokenization, or the
      tokenizer's error: an empty request, or a leading sign. */
  method Calculate(request: string, draw: nat -> nat) returns (r: Outcome<CalcResult>)
    ensures var n := Normalize(request);
            && (n == [] ==> r == Fail(EmptyRequest))
            && (n != [] && IsSign(n[0]) ==> r == Fail(UnaryOperator(n[0])))
            && (n != [] && !IsSign(n[0]) ==>
                  && (exists ts :: Tokenization(n, ts))
                  && forall ts :: Tokenization(n, ts) ==>
                       && r == Evaluate(ts, draw)
                       && (r.Ok? <==> Grammatical(ts) && OperandsInLimit(ts)))
  {
    var normalized := Normalize(request);
    var tokens := Tokenize(normalized);
    if tokens.Fail? {
      return Fail(tokens.error);
    }
    var stream := new TokenStream(tokens.value);
    var random := new Random(draw);
    var parser := new Parser(stream, random);
    r := parser.Parse();
    assert Tokenization(normalized, tokens.value);
    ExpressionSucceedsExactly(tokens.value, draw, 0);
    forall ts | Tokenization(normalized, ts) ensures ts == tokens.value {
      RenderInjective(ts, tokens.value);
    }
  }

  /** A token with its face count written out renders in the normal alphabet,
      without `dd`, and does not end with `d`. */
  lemma TokenTextNormal(t: Token, before: Option<TokenType>)
    requires TokenShape(t, before) && (t.kind == Dice ==> t.value != "")
    ensures var a := RenderToken(t); a != [] && InFormulaAlphabet(a) && NoDoubleD(a) && a[|a| - 1] != 'd'
  {
    if t.kind == Dice {
      var a := RenderToken(t);
      assert forall i :: 1 <= i < |a| ==> a[i] == t.value[i - 1];
    }
  }

  lemma ConcatNormal(a: string, b: string)
    requires InFormulaAlphabet(a) && InFormulaAlphabet(b) && NoDoubleD(a) && NoDoubleD(b)
    requires a == [] || a[|a| - 1] != 'd'
    ensures InFormulaAlphabet(a + b) && NoDoubleD(a + b)
  {
    var ab := a + b;
    forall i | 0 <= i < |ab| - 1 ensures !(ab[i] == 'd' && ab[i + 1] == 'd') {
      if i + 1 < |a| {
        assert ab[i] == a[i] && ab[i + 1] == a[i + 1];
      } else if i >= |a| {
        assert ab[i] == b[i - |a|] && ab[i + 1] == b[i - |a| + 1];
      } else {
        assert ab[i] == a[|a| - 1];
      }
    }
  }

  /** The text of a shaped list whose dice tokens name their face counts is
      already normalised. */
  lemma {:induction false} RenderedNormal(us: seq<Token>)
    requires Shaped(us) && FacesWritten(us)
    ensures InFormulaAlphabet(Render(us)) && NoDoubleD(Render(us))
  {
    if us != [] {
      assert TokenShape(us[0], Before(us, 0));
      TokenTextNormal(us[0], Before(us, 0));
      ShapedTail(us);
      assert FacesWritten(us[1..]) by {
        forall i | 0 <= i < |us[1..]| && us[1..][i].kind == Dice ensures us[1..][i].value != "" {
          assert us[1..][i] == us[i + 1];
        }
      }
      RenderedNormal(us[1..]);
      ConcatNormal(RenderToken(us[0]), Render(us[1..]));
    }
  }

  /** Calculating the text of a result again gives the same result, with the
      same random draws: the text is normalised already, does not start with
      a sign, and its one tokenization evaluates to that result. */
  lemma RecalculateText(ts: seq<Token>, draw: nat -> nat)
    requires WellFormed(ts) && Evaluate(ts, draw).Ok?
    ensures var text := Evaluate(ts, draw).value.text;
            && text != [] && Normalize(text) == text && !IsSign(text[0])
            && (exists us :: Tokenization(text, us))
            && forall us :: Tokenization(text, us) ==> Evaluate(us, draw) == Evaluate(ts, draw)
  {
    var text := Evaluate(ts, draw).value.text;
    var us := TextRoundTrip(ts, draw, 0);
    RenderedNormal(us);
    NormalizeFixed(text);
    RenderHead(us);
    assert Tokenization(text, us);
    forall vs | Tokenization(text, vs) ensures Evaluate(vs, draw) == Evaluate(ts, draw) {
      RenderInjective(vs, us);
    }
  }

  /** `calculate` applied to the text of its own result gives that result. */
  method CalculateTwice(request: string, draw: nat -> nat) returns (first: Outcome<CalcResult>, second: Outcome<CalcResult>)
    ensures var n := Normalize(request);
            n != [] && !IsSign(n[0]) ==> forall ts :: Tokenization(n, ts) ==> first == Evaluate(ts, draw)
    ensures first.Ok? ==> second == first
  {
    first := Calculate(request, draw);
    second := first;
    if first.Ok? {
      var n := Normalize(request);
      ghost var ts :| Tokenization(n, ts);
      RecalculateText(ts, draw);
      second := Calculate(first.value.text, draw);
    }
  }

  function SimpleTestTokens(): seq<Token> {
    [NumberToken(3), Token(Dice, "8"), Token(Operator, "+"), NumberToken(1)]
  }

  lemma SimpleTestNormal()
    ensures Normalize("3d8+1") == "3d8+1"
  {
    var request := "3d8+1";
    assert forall i :: 0 <= i < |request| ==> IsFormulaChar(request[i]);
    NormalizeFixed(request);
  }

  lemma SimpleTestShaped()
    ensures WellFormed(SimpleTestTokens())
  {
    var ts := SimpleTestTokens();
    assert DecimalString(3) == "3" && DecimalString(1) == "1";
    forall i | 0 <= i < |ts| ensures TokenShape(ts[i], Before(ts, i)) { }
  }

  lemma SimpleTestRendered()
    ensures Render(SimpleTestTokens()) == "3d8+1"
  {
    assert DecimalString(3) == "3" && DecimalString(1) == "1";
  }

  /** The source's test: `3d8+1` has bounds 4 and 25 and average 14.5. */
  method SimpleTest(draw: nat -> nat) returns (r: Outcome<CalcResult>)
    ensures r.Ok? && r.value.min == 4 && r.value.max == 25 && r.value.average == 14.5
    ensures 4 <= r.value.generated <= 25 && r.value.text == "3d8+1"
  {
    SimpleTestNormal();
    SimpleTestShaped();
    SimpleTestRendered();
    r := Calculate("3d8+1", draw);
    assert Tokenization("3d8+1", SimpleTestTokens());
    ThreeD8PlusOne(draw);
  }

  function ChainTokens(): seq<Token> {
    [NumberToken(10), Token(Operator, "-"), NumberToken(3), Token(Operator, "-"), NumberToken(2)]
  }

  lemma ChainNormal()
    ensures Normalize("10-3-2") == "10-3-2"
  {
    var request := "10-3-2";
    assert forall i :: 0 <= i < |request| ==> IsFormulaChar(request[i]);
    NormalizeFixed(request);
  }

  lemma ChainShaped()
    ensures WellFormed(ChainTokens()) && Render(ChainTokens()) == "10-3-2"
  {
    var ts := ChainTokens();
    assert DecimalString(10) == "10" && DecimalString(3) == "3" && DecimalString(2) == "2";
    forall i | 0 <= i < |ts| ensures TokenShape(ts[i], Before(ts, i)) { }
  }

  lemma ChainValue(draw: nat -> nat)
    ensures var e := Evaluate(ChainTokens(), draw);
            e.Ok? && e.value.min == 9 && e.value.max == 9 && e.value.generated == 9 && e.value.average == 9.0
  {
    SubtractionGroupsRight(10, 3, 2, draw);
  }

  /** `10-3-2` is 9, not 5: the part after an operator is a whole expression. */
  method SubtractionChain(draw: nat -> nat) returns (r: Outcome<CalcResult>)
    ensures r.Ok? && r.value.min == 9 && r.value.max == 9 && r.value.generated == 9
    ensures r.value.average == 9.0
  {
    ChainNormal();
    ChainShaped();
    ChainValue(draw);
    r := Calculate("10-3-2", draw);
    assert Tokenization("10-3-2", ChainTokens());
  }

  lemma SpacedDigitsNormal()
    ensures Normalize("3 8") == "38"
  {
    assert Strip("8") == "8";
    assert "3 8"[1..] == " 8" && " 8"[1..] == "8";
    assert Strip(" 8") == "8";
    assert Strip("3 8") == "38";
    assert "38"[1..] == "8";
    assert CollapseLetters("38") == "38";
  }

  lemma SpacedDigitsShaped()
    ensures WellFormed([NumberToken(38)]) && Render([NumberToken(38)]) == "38"
  {
    assert DecimalString(38) == "38";
  }

  /** `3 8` is the constant 38: the space is deleted before tokenizing, so no
      operand pair is left to report. */
  method SpacedDigits(draw: nat -> nat) returns (r: Outcome<CalcResult>)
    ensures r == Ok(CalcResult(38, 38, 38.0, 38, "38"))
  {
    SpacedDigitsNormal();
    SpacedDigitsShaped();
    r := Calculate("3 8", draw);
    assert Tokenization("38", [NumberToken(38)]);
    ConstantTerm(38, [NumberToken(38)], draw, 0);
    assert Evaluate([NumberToken(38)], draw) == Ok(Constant(38));
    assert DecimalString(38) == "38";
  }

  /** A request of blanks only is empty once normalised. */
  method BlankRequest(draw: nat -> nat) returns (r: Outcome<CalcResult>)
    ensures r == Fail(EmptyRequest)
  {
    assert Normalize("   ") == "";
    r := Calculate("   ", draw);
  }
}
