/** The parser as the source runs it: a recursive method reading from a
    token stream it consumes in place, drawing dice rolls from a random source. */
module Parsing {
  import opened Options
  import opened Outcomes
  import opened Tokens
  import opened Results
  import opened Leaves
  import opened Evaluation

  /** The token list the parser consumes: `Read` takes the first token off,
      `Unread` puts back the token `Read` has just returned, so the parser
      looks ahead by one token at most. */
  class TokenStream {
    var tokens: seq<Token>
    /** The token the last call returned, if it was a `Read` that found one. */
    ghost var lastRead: Option<Token>

    constructor (tokens: seq<Token>)
      ensures this.tokens == tokens && lastRead == None
    {
      this.tokens := tokens;
      lastRead := None;
    }

    method Read() returns (t: Option<Token>)
      modifies this
      ensures old(tokens) == [] ==> t == None && tokens == []
      ensures old(tokens) != [] ==> t == Some(old(tokens)[0]) && tokens == old(tokens)[1..]
      ensures lastRead == t
    {
      if tokens == [] {
        t := None;
      } else {
        t := Some(tokens[0]);
        tokens := tokens[1..];
      }
      lastRead := t;
    }

    /** Only the token just read can be put back, and only once. */
    method Unread(t: Token)
      requires lastRead == Some(t)
      modifies this
      ensures tokens == [t] + old(tokens) && lastRead == None
    {
      tokens := [t] + tokens;
      lastRead := None;
    }
  }

  /** The random number generator, fed from outside: the k-th call to
      `NextInt(bound)` returns `draw(k) % bound`. Any sequence of values the
      real generator could return is `draw` for some choice of `draw`. */
  class Random {
    const draw: nat -> nat
    var drawn: nat

    constructor (draw: nat -> nat)
      ensures this.draw == draw && drawn == 0
    {
      this.draw := draw;
      drawn := 0;
    }

    method NextInt(bound: int) returns (x: int)
      requires bound >= 1
      modifies this
      ensures 0 <= x < bound
      ensures x == draw(old(drawn)) % bound && drawn == old(drawn) + 1
    {
      x := draw(drawn) % bound;
      drawn := drawn + 1;
    }
  }

  class Parser {
    const stream: TokenStream
    const random: Random

    constructor (stream: TokenStream, random: Random)
      ensures this.stream == stream && this.random == random
    {
      this.stream := stream;
      this.random := random;
    }

    method Parse() returns (r: Outcome<CalcResult>)
      modifies stream, random
      ensures var e := Expression(old(stream.tokens), random.draw, old(random.drawn));
              && (e.Fail? ==> r == Fail(e.error))
              && (e.Ok? ==> r == Ok(e.value.value) && stream.tokens == [] && random.drawn == e.value.drawn)
    {
      r := ReadExpression();
    }

    /** Reads a term, then either the end of the stream or an operator followed
        by the rest of the stream as a whole expression. It succeeds exactly
        when `Expression` does, with the same value, and then has read every token. */
    method ReadExpression() returns (r: Outcome<CalcResult>)
      modifies stream, random
      decreases |stream.tokens|
      ensures var e := Expression(old(stream.tokens), random.draw, old(random.drawn));
              && (e.Fail? ==> r == Fail(e.error))
              && (e.Ok? ==> r == Ok(e.value.value) && stream.tokens == [] && random.drawn == e.value.drawn)
    {
      ghost var ts := stream.tokens;
      ghost var term := Term(ts, random.draw, random.drawn);
      var left: CalcResult;
      var token := stream.Read();
      if token.None? {
        return Fail(UnexpectedEnd);
      }
      match token.value.kind {
        case Operator =>
          return Fail(UnexpectedOperator(token.value.value));
        case Dice =>
          var leaf := DiceResult(token.value.value, 1);
          if leaf.Fail? {
            return Fail(leaf.error);
          }
          left := leaf.value;
        case Number =>
          var next := stream.Read();
          if next.Some? && next.value.kind == Dice {
            var multiplier := ParseInt(token.value.value);
            if multiplier.None? {
              return Fail(NotANumber(token.value.value));
            }
            var leaf := DiceResult(next.value.value, multiplier.value);
            if leaf.Fail? {
              return Fail(leaf.error);
            }
            left := leaf.value;
          } else {
            if next.Some? {
              stream.Unread(next.value);
            }
            var leaf := NumberLeaf(token.value.value);
            if leaf.Fail? {
              return Fail(leaf.error);
            }
            left := leaf.value;
          }
      }
      assert term.Ok? && left == term.value.value && random.drawn == term.value.drawn;
      assert stream.tokens == ts[term.value.consumed..];

      var operator := stream.Read();
      if operator.None? {
        return Ok(left);
      }
      if operator.value.kind != Operator {
        return Fail(MissingOperator(operator.value.kind));
      }
      var right := ReadExpression();
      if right.Fail? {
        return right;
      }
      if operator.value.value == "+" {
        r := Ok(Plus(left, right.value));
      } else if operator.value.value == "-" {
        r := Ok(Minus(left, right.value));
      } else {
        r := Fail(UnsupportedOperator(operator.value.value));
      }
    }

    /** `diceResult`: checks the multiplier and the face count, then sums
        `multiplier` rolls of the die, each one `NextInt(faces) + 1`. */
    method DiceResult(value: string, multiplier: int) returns (r: Outcome<CalcResult>)
      modifies random
      ensures var e := DiceLeaf(value, multiplier, random.draw, old(random.drawn));
              && (e.Fail? ==> r == Fail(e.error))
              && (e.Ok? ==> r == Ok(e.value.value) && random.drawn == e.value.drawn)
    {
      if multiplier > Limit || multiplier < 1 {
        return Fail(IncorrectMultiplier(multiplier));
      }
      var parsed := ParseInt(value);
      if parsed.None? {
        return Fail(NotANumber(value));
      }
      var faces := parsed.value;
      if faces > Limit || faces < 1 {
        return Fail(IncorrectFaces(faces));
      }
      var min, max := multiplier, faces * multiplier;
      var average := (min + max) as real / 2.0;
      var generated := 0;
      for i := 0 to multiplier
        invariant random.drawn == old(random.drawn) + i
        invariant generated == RollSum(random.draw, old(random.drawn), faces, i)
      {
        var roll := random.NextInt(faces);
        generated := generated + roll + 1;
      }
      r := Ok(CalcResult(min, max, average, generated, DiceText(value, multiplier)));
    }
  }
}
