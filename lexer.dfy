/** The tokenizer: a left-to-right state machine with a register for the kind
    of the token being built and an accumulator for its characters. */
module Lexer {
  import opened Options
  import opened Outcomes
  import opened Tokens

  /** The position of the first character the tokenizer does not accept. */
  function FirstNonLexical(s: string): (j: nat)
    requires !InFormulaAlphabet(s)
    ensures j < |s| && !IsFormulaChar(s[j])
    ensures forall k :: 0 <= k < j ==> IsFormulaChar(s[k])
  {
    if !IsFormulaChar(s[0]) then 0
    else
      assert !InFormulaAlphabet(s[1..]) by {
        var k :| 0 <= k < |s| && !IsFormulaChar(s[k]);
        assert k > 0 && s[1..][k - 1] == s[k];
      }
      1 + FirstNonLexical(s[1..])
  }

  /** The requests the tokenizer accepts. */
  predicate Lexable(s: string) { s != [] && !IsSign(s[0]) && InFormulaAlphabet(s) }

  /** The tokens emitted so far followed by the one still being built. */
  function Pending(tokens: seq<Token>, current: Option<TokenType>, accumulator: string): seq<Token> {
    if current.None? then tokens else tokens + [Token(current.value, accumulator)]
  }

  /** What the tokens built from the first `i` characters of `s` satisfy. */
  predicate Scanned(s: string, i: nat, all: seq<Token>) {
    && i <= |s|
    && Shaped(all)
    && (all != [] ==> all[0].kind != Operator)
    && Render(all) == s[..i]
  }

  /** Opening a token for character `s[i]` keeps the scan consistent. */
  lemma Open(s: string, i: nat, all: seq<Token>, t: Token)
    requires Scanned(s, i, all) && i < |s|
    requires TokenShape(t, if all == [] then None else Some(all[|all| - 1].kind))
    requires all == [] ==> t.kind != Operator
    requires RenderToken(t) == [s[i]]
    ensures Scanned(s, i + 1, all + [t])
  {
    ShapedSnoc(all, t);
    RenderAppend(all, t);
    assert s[..i + 1] == s[..i] + [s[i]];
  }

  /** Appending a digit to the last token of a shaped list, when that token
      is a dice or number token, keeps the list shaped. */
  lemma GrowShape(tokens: seq<Token>, kind: TokenType, accumulator: string, c: char)
    requires Shaped(tokens + [Token(kind, accumulator)])
    requires kind != Operator && IsDigit(c)
    ensures Shaped(tokens + [Token(kind, accumulator + [c])])
  {
    var before, after := Token(kind, accumulator), Token(kind, accumulator + [c]);
    ShapedInit(tokens, before);
    assert IsDigits(after.value) by {
      assert forall k :: 0 <= k < |accumulator| ==> after.value[k] == accumulator[k];
    }
    ShapedSnoc(tokens, after);
  }

  /** ... and adds that digit to the end of its text. */
  lemma GrowRender(tokens: seq<Token>, kind: TokenType, accumulator: string, c: char)
    requires kind != Operator
    ensures Render(tokens + [Token(kind, accumulator + [c])]) == Render(tokens + [Token(kind, accumulator)]) + [c]
  {
    RenderAppend(tokens, Token(kind, accumulator));
    RenderAppend(tokens, Token(kind, accumulator + [c]));
  }

  /** Appending the digit `s[i]` to an open dice or number token keeps the scan consistent. */
  lemma Grow(s: string, i: nat, tokens: seq<Token>, kind: TokenType, accumulator: string)
    requires Scanned(s, i, tokens + [Token(kind, accumulator)]) && i < |s|
    requires kind != Operator && IsDigit(s[i])
    ensures Scanned(s, i + 1, tokens + [Token(kind, accumulator + [s[i]])])
  {
    var before, after := Token(kind, accumulator), Token(kind, accumulator + [s[i]]);
    GrowShape(tokens, kind, accumulator, s[i]);
    GrowRender(tokens, kind, accumulator, s[i]);
    assert s[..i + 1] == s[..i] + [s[i]];
    assert (tokens + [after])[0] == if tokens == [] then after else tokens[0];
    assert (tokens + [before])[0] == if tokens == [] then before else tokens[0];
  }

  /** Splits `s` into tokens. On success the tokens render back to `s` and are
      well formed, which by `Tokens.RenderInjective` fixes them completely;
      otherwise the error is the one the first offending character raises. */
  method Tokenize(s: string) returns (r: Outcome<seq<Token>>)
    ensures r.Ok? <==> Lexable(s)
    ensures r.Ok? ==> WellFormed(r.value) && Render(r.value) == s
    ensures s == [] ==> r == Fail(EmptyRequest)
    ensures s != [] && IsSign(s[0]) ==> r == Fail(UnaryOperator(s[0]))
    ensures s != [] && !IsSign(s[0]) && !InFormulaAlphabet(s) ==> r == Fail(UnexpectedCharacter(s[FirstNonLexical(s)]))
  {
    var tokens: seq<Token> := [];
    var current: Option<TokenType> := None;
    var accumulator: string := "";
    var i := 0;
    while i < |s|
      invariant 0 <= i <= |s|
      invariant current.None? <==> i == 0
      invariant current.None? ==> tokens == [] && accumulator == ""
      invariant forall k :: 0 <= k < i ==> IsFormulaChar(s[k])
      invariant i > 0 ==> !IsSign(s[0])
      invariant Scanned(s, i, Pending(tokens, current, accumulator))
    {
      var c := s[i];
      if IsSign(c) {
        if current.None? {
          return Fail(UnaryOperator(c));
        }
        tokens := tokens + [Token(current.value, accumulator)];
        Open(s, i, tokens, Token(Operator, [c]));
        current, accumulator := Some(Operator), [c];
      } else if IsDigit(c) {
        match current {
          case Some(Operator) =>
            tokens := tokens + [Token(Operator, accumulator)];
            Open(s, i, tokens, Token(Number, [c]));
            current, accumulator := Some(Number), [c];
          case None =>
            Open(s, i, tokens, Token(Number, [c]));
            current, accumulator := Some(Number), [c];
          case Some(kind) =>
            Grow(s, i, tokens, kind, accumulator);
            accumulator := accumulator + [c];
        }
      } else if c == 'd' {
        if current.Some? {
          tokens := tokens + [Token(current.value, accumulator)];
        }
        Open(s, i, tokens, Token(Dice, ""));
        current, accumulator := Some(Dice), "";
      } else {
        return Fail(UnexpectedCharacter(c));
      }
      i := i + 1;
    }
    if current.Some? {
      tokens := tokens + [Token(current.value, accumulator)];
      assert s[..i] == s;
      return Ok(tokens);
    } else {
      return Fail(EmptyRequest);
    }
  }
}
