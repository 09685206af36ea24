/** Tokens of a dice formula, how a token list renders back to text, and the
    shape every list the tokenizer produces has. */
module Tokens {
  import opened Options

  /** The three token kinds the tokenizer produces. */
  datatype TokenType = Dice | Number | Operator

  datatype Token = Token(kind: TokenType, value: string)

  predicate IsDigit(c: char) { '0' <= c <= '9' }

  predicate IsSign(c: char) { c == '+' || c == '-' }

  predicate IsDigits(s: string) { forall i :: 0 <= i < |s| ==> IsDigit(s[i]) }

  /** The alphabet of a cleaned-up request, which is also every character
      the tokenizer accepts: digits, `d` and the two signs. */
  predicate IsFormulaChar(c: char) { IsDigit(c) || c == 'd' || IsSign(c) }

  predicate InFormulaAlphabet(s: string) { forall i :: 0 <= i < |s| ==> IsFormulaChar(s[i]) }

  /** Never two `d`s in a row. */
  predicate NoDoubleD(s: string) { forall i :: 0 <= i < |s| - 1 ==> !(s[i] == 'd' && s[i + 1] == 'd') }

  /** The text a token was cut from: a dice token does not keep its `d`. */
  function RenderToken(t: Token): string {
    if t.kind == Dice then "d" + t.value else t.value
  }

  function Render(ts: seq<Token>): string {
    if ts == [] then "" else RenderToken(ts[0]) + Render(ts[1..])
  }

  /** The kind of the token before position `i`, if any. */
  function Before(ts: seq<Token>, i: nat): Option<TokenType>
    requires i < |ts|
  {
    if i == 0 then None else Some(ts[i - 1].kind)
  }

  /** An operator is one sign; a number is a non-empty digit string that starts
      the list or follows an operator; a dice token holds a possibly empty
      digit string (its face count). */
  predicate TokenShape(t: Token, before: Option<TokenType>) {
    match t.kind
    case Operator => t.value == "+" || t.value == "-"
    case Number => t.value != "" && IsDigits(t.value) && (before == None || before == Some(Operator))
    case Dice => IsDigits(t.value)
  }

  predicate Shaped(ts: seq<Token>) {
    forall i :: 0 <= i < |ts| ==> TokenShape(ts[i], Before(ts, i))
  }

  /** What a successful tokenization returns: at least one token, no leading
      operator, every token shaped. */
  predicate WellFormed(ts: seq<Token>) {
    ts != [] && ts[0].kind != Operator && Shaped(ts)
  }

  lemma RenderAppend(ts: seq<Token>, t: Token)
    ensures Render(ts + [t]) == Render(ts) + RenderToken(t)
  {
    if ts != [] {
      assert (ts + [t])[1..] == ts[1..] + [t];
      RenderAppend(ts[1..], t);
    }
  }

  lemma ShapedSnoc(ts: seq<Token>, t: Token)
    requires Shaped(ts)
    requires TokenShape(t, if ts == [] then None else Some(ts[|ts| - 1].kind))
    ensures Shaped(ts + [t])
  {
    var us := ts + [t];
    forall i | 0 <= i < |us| ensures TokenShape(us[i], Before(us, i)) {
      if i < |ts| {
        assert us[i] == ts[i] && Before(us, i) == Before(ts, i);
      }
    }
  }

  lemma ShapedInit(ts: seq<Token>, t: Token)
    requires Shaped(ts + [t])
    ensures Shaped(ts)
    ensures TokenShape(t, if ts == [] then None else Some(ts[|ts| - 1].kind))
  {
    var us := ts + [t];
    forall k | 0 <= k < |ts| ensures TokenShape(ts[k], Before(ts, k)) {
      assert us[k] == ts[k] && Before(us, k) == Before(ts, k);
    }
    assert TokenShape(us[|ts|], Before(us, |ts|));
  }

  lemma ShapedTail(ts: seq<Token>)
    requires Shaped(ts) && ts != []
    ensures Shaped(ts[1..])
  {
    var us := ts[1..];
    forall i | 0 <= i < |us| ensures TokenShape(us[i], Before(us, i)) {
      assert TokenShape(ts[i + 1], Before(ts, i + 1));
    }
  }

  lemma {:induction false} RenderConcat(a: seq<Token>, b: seq<Token>)
    ensures Render(a + b) == Render(a) + Render(b)
  {
    if a != [] {
      assert (a + b)[0] == a[0] && (a + b)[1..] == a[1..] + b;
      RenderConcat(a[1..], b);
    } else {
      assert a + b == b;
    }
  }

  /** Two shaped lists joined are shaped when the second one's first token
      may follow the first one's last. */
  lemma ShapedConcat(a: seq<Token>, b: seq<Token>)
    requires Shaped(a) && Shaped(b)
    requires a != [] && b != [] ==> TokenShape(b[0], Some(a[|a| - 1].kind))
    ensures Shaped(a + b)
  {
    var ab := a + b;
    forall i | 0 <= i < |ab| ensures TokenShape(ab[i], Before(ab, i)) {
      if i < |a| {
        assert ab[i] == a[i] && Before(ab, i) == Before(a, i);
      } else if i > |a| {
        assert ab[i] == b[i - |a|] && Before(ab, i) == Before(b, i - |a|);
      } else if a == [] {
        assert ab[i] == b[0] && Before(ab, i) == Before(b, 0);
      } else {
        assert ab[i] == b[0] && Before(ab, i) == Some(a[|a| - 1].kind);
      }
    }
  }

  /** Any suffix of a shaped list is shaped: a number may start a list. */
  lemma ShapedSuffix(ts: seq<Token>, k: nat)
    requires Shaped(ts) && k <= |ts|
    ensures Shaped(ts[k..])
  {
    var us := ts[k..];
    forall i | 0 <= i < |us| ensures TokenShape(us[i], Before(us, i)) {
      assert TokenShape(ts[k + i], Before(ts, k + i));
    }
  }

  /** Every dice token names its face count, so its text is never a bare `d`. */
  predicate FacesWritten(ts: seq<Token>) {
    forall i :: 0 <= i < |ts| && ts[i].kind == Dice ==> ts[i].value != ""
  }

  /** Two well-formed lists joined by an operator form a well-formed list
      whose text is the two texts with the sign between them. */
  lemma JoinTokens(lead: seq<Token>, op: Token, right: seq<Token>)
    requires WellFormed(lead) && WellFormed(right)
    requires op.kind == Operator && (op.value == "+" || op.value == "-")
    ensures WellFormed(lead + [op] + right)
    ensures Render(lead + [op] + right) == Render(lead) + op.value + Render(right)
    ensures FacesWritten(lead) && FacesWritten(right) ==> FacesWritten(lead + [op] + right)
  {
    var x := [op] + right;
    assert lead + [op] + right == lead + x;
    assert Shaped([op]) by {
      assert TokenShape(op, Before([op], 0));
    }
    ShapedConcat([op], right);
    ShapedConcat(lead, x);
    RenderConcat(lead, x);
    RenderConcat([op], right);
    var us := lead + x;
    if FacesWritten(lead) && FacesWritten(right) {
      forall i | 0 <= i < |us| && us[i].kind == Dice ensures us[i].value != "" {
        if i < |lead| {
          assert us[i] == lead[i];
        } else if i > |lead| {
          assert us[i] == right[i - |lead| - 1];
        }
      }
    }
  }

  /** The first character of a shaped list's text tells the first token's kind. */
  lemma RenderHead(ts: seq<Token>)
    requires Shaped(ts) && ts != []
    ensures Render(ts) != [] && RenderToken(ts[0]) != []
    ensures ts[0].kind == Dice ==> Render(ts)[0] == 'd'
    ensures ts[0].kind == Number ==> IsDigit(Render(ts)[0])
    ensures ts[0].kind == Operator ==> IsSign(Render(ts)[0]) && RenderToken(ts[0]) == [Render(ts)[0]]
  {
    assert TokenShape(ts[0], Before(ts, 0));
    assert Render(ts) == RenderToken(ts[0]) + Render(ts[1..]);
  }

  /** After a dice or number token the text goes on with a non-digit or ends. */
  lemma NoDigitAfterOperand(ts: seq<Token>)
    requires Shaped(ts) && ts != [] && ts[0].kind != Operator
    ensures Render(ts[1..]) == [] || !IsDigit(Render(ts[1..])[0])
  {
    var tail := ts[1..];
    if tail != [] {
      assert TokenShape(ts[1], Before(ts, 1));
      ShapedTail(ts);
      RenderHead(tail);
    }
  }

  /** The number of leading digits of `s`. */
  function DigitRun(s: string): (n: nat)
    ensures n <= |s|
  {
    if s != [] && IsDigit(s[0]) then 1 + DigitRun(s[1..]) else 0
  }

  /** A digit string is the whole digit prefix of `u + x` when `x` does not
      start with a digit. */
  lemma {:induction false} DigitRunOf(u: string, x: string)
    requires IsDigits(u)
    requires x == [] || !IsDigit(x[0])
    ensures DigitRun(u + x) == |u|
  {
    if u == [] {
      assert u + x == x;
    } else {
      assert (u + x)[0] == u[0];
      assert (u + x)[1..] == u[1..] + x;
      DigitRunOf(u[1..], x);
    }
  }

  lemma DigitPrefixUnique(u: string, x: string, v: string, y: string)
    requires IsDigits(u) && IsDigits(v)
    requires x == [] || !IsDigit(x[0])
    requires y == [] || !IsDigit(y[0])
    requires u + x == v + y
    ensures u == v && x == y
  {
    DigitRunOf(u, x);
    DigitRunOf(v, y);
    assert u == (u + x)[..|u|] && v == (v + y)[..|v|];
    assert x == (u + x)[|u|..] && y == (v + y)[|v|..];
  }

  /** Two tokens of the same kind followed by texts that cannot extend them
      render alike only when they are equal. */
  lemma SameToken(a: Token, x: string, b: Token, y: string)
    requires a.kind == b.kind
    requires a.kind == Operator ==> |a.value| == 1 && |b.value| == 1
    requires a.kind != Operator ==> IsDigits(a.value) && IsDigits(b.value)
    requires a.kind != Operator ==> (x == [] || !IsDigit(x[0])) && (y == [] || !IsDigit(y[0]))
    requires RenderToken(a) + x == RenderToken(b) + y
    ensures a == b && x == y
  {
    if a.kind == Operator {
      assert (a.value + x)[..1] == a.value && (b.value + y)[..1] == b.value;
      assert (a.value + x)[1..] == x && (b.value + y)[1..] == y;
    } else if a.kind == Number {
      DigitPrefixUnique(a.value, x, b.value, y);
    } else {
      assert ("d" + a.value + x)[1..] == a.value + x;
      assert ("d" + b.value + y)[1..] == b.value + y;
      DigitPrefixUnique(a.value, x, b.value, y);
    }
  }

  /** Two shaped lists with the same text start with the same token. */
  lemma SameHead(ts: seq<Token>, us: seq<Token>)
    requires Shaped(ts) && Shaped(us) && ts != [] && us != []
    requires Render(ts) == Render(us)
    ensures ts[0] == us[0] && Render(ts[1..]) == Render(us[1..])
  {
    RenderHead(ts);
    RenderHead(us);
    assert ts[0].kind == us[0].kind;
    assert TokenShape(ts[0], Before(ts, 0)) && TokenShape(us[0], Before(us, 0));
    if ts[0].kind != Operator {
      NoDigitAfterOperand(ts);
      NoDigitAfterOperand(us);
    }
    SameToken(ts[0], Render(ts[1..]), us[0], Render(us[1..]));
  }

  /** Rendering is injective on shaped lists: the text alone fixes the tokens. */
  lemma {:induction false} RenderInjective(ts: seq<Token>, us: seq<Token>)
    requires Shaped(ts) && Shaped(us)
    requires Render(ts) == Render(us)
    ensures ts == us
  {
    if ts != [] && us != [] {
      SameHead(ts, us);
      ShapedTail(ts);
      ShapedTail(us);
      RenderInjective(ts[1..], us[1..]);
      assert ts == [ts[0]] + ts[1..] && us == [us[0]] + us[1..];
    } else if ts != [] {
      RenderHead(ts);
    } else if us != [] {
      RenderHead(us);
    }
  }
}
