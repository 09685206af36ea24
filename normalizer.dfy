/** The clean-up `calculate` applies to a recognised phrase before tokenizing:
    drop every character that is not a Latin or Cyrillic letter, a digit, `+`
    or `-`, then turn each run of letters into a single `d`. */
module Normalizer {
  import opened Tokens

  predicate IsLatinLetter(c: char) { 'a' <= c <= 'z' || 'A' <= c <= 'Z' }

  /** `а`..`я` and `А`..`Я`; `ё` and `Ё` lie outside both ranges. */
  predicate IsCyrillicLetter(c: char) {
    '\U{0430}' <= c <= '\U{044F}' || '\U{0410}' <= c <= '\U{042F}'
  }

  predicate IsLetter(c: char) { IsLatinLetter(c) || IsCyrillicLetter(c) }

  /** The characters the first pass keeps. */
  predicate IsKept(c: char) { IsLetter(c) || IsDigit(c) || IsSign(c) }

  predicate AllKept(s: string) { forall i :: 0 <= i < |s| ==> IsKept(s[i]) }

  /** First pass: delete every character that is not kept. */
  function Strip(s: string): (r: string)
    ensures AllKept(r)
    ensures AllKept(s) ==> r == s
    ensures |s| == 1 ==> r == (if IsKept(s[0]) then s else "")
    ensures |r| <= |s|
  {
    if s == [] then ""
    else (if IsKept(s[0]) then [s[0]] else []) + Strip(s[1..])
  }

  /** The length of the run of letters `s` starts with. */
  function LetterRun(s: string): (n: nat)
    ensures n <= |s|
    ensures forall i :: 0 <= i < n ==> IsLetter(s[i])
    ensures n < |s| ==> !IsLetter(s[n])
  {
    if s != [] && IsLetter(s[0]) then 1 + LetterRun(s[1..]) else 0
  }

  /** The first pass works character by character: stripping a concatenation
      strips each part, so every kept character survives, in order. */
  lemma {:induction false} StripConcat(a: string, b: string)
    ensures Strip(a + b) == Strip(a) + Strip(b)
  {
    if a == [] {
      assert a + b == b;
    } else {
      var head := if IsKept(a[0]) then [a[0]] else [];
      assert (a + b)[0] == a[0] && (a + b)[1..] == a[1..] + b;
      assert Strip(a + b) == head + Strip(a[1..] + b);
      StripConcat(a[1..], b);
      assert head + (Strip(a[1..]) + Strip(b)) == (head + Strip(a[1..])) + Strip(b);
    }
  }

  /** A letter run is not lengthened by what follows it unless it takes up the
      whole of `u` and `x` goes on with a letter. */
  lemma LetterRunConcat(u: string, x: string)
    requires LetterRun(u) < |u| || x == [] || !IsLetter(x[0])
    ensures LetterRun(u + x) == LetterRun(u)
  {
    var k, m := LetterRun(u), LetterRun(u + x);
    assert forall i :: 0 <= i < |u| ==> (u + x)[i] == u[i];
    if k < |u| {
      assert (u + x)[k] == u[k];
    } else if x != [] {
      assert (u + x)[k] == x[0];
    }
  }

  /** No letter but `d`, and never two letters in a row. */
  predicate LettersCollapsed(s: string) {
    forall i :: 0 <= i < |s| && IsLetter(s[i]) ==> s[i] == 'd' && (i + 1 < |s| ==> !IsLetter(s[i + 1]))
  }

  /** Second pass: replace each maximal run of letters by one `d`. */
  function CollapseLetters(s: string): (r: string)
    decreases |s|
    ensures LettersCollapsed(r)
    ensures r == [] <==> s == []
    ensures r != [] ==> (IsLetter(r[0]) <==> IsLetter(s[0]))
    ensures AllKept(s) ==> AllKept(r)
  {
    if s == [] then ""
    else if IsLetter(s[0]) then "d" + CollapseLetters(s[LetterRun(s)..])
    else [s[0]] + CollapseLetters(s[1..])
  }

  function Normalize(request: string): (r: string)
    ensures InFormulaAlphabet(r) && NoDoubleD(r)
  {
    var r := CollapseLetters(Strip(request));
    assert forall i :: 0 <= i < |r| ==> IsKept(r[i]) && (IsLetter(r[i]) ==> r[i] == 'd');
    r
  }

  /** A character that is not a letter splits the second pass in two: it
      survives, and the parts on each side are collapsed on their own. */
  lemma {:induction false} CollapseSplit(u: string, c: char, v: string)
    requires !IsLetter(c)
    ensures CollapseLetters(u + [c] + v) == CollapseLetters(u) + [c] + CollapseLetters(v)
    decreases |u|
  {
    var w := u + [c] + v;
    if u == [] {
      assert w == [c] + v && w[1..] == v;
    } else if !IsLetter(u[0]) {
      assert w[0] == u[0] && w[1..] == u[1..] + [c] + v;
      CollapseSplit(u[1..], c, v);
    } else {
      var k := LetterRun(u);
      assert k >= 1;
      LetterRunConcat(u, [c] + v);
      assert u + ([c] + v) == w;
      assert w[0] == u[0] && w[k..] == u[k..] + [c] + v;
      CollapseSplit(u[k..], c, v);
    }
  }

  /** A word, however long, becomes a single `d`. */
  lemma CollapseWord(w: string)
    requires w != [] && forall i :: 0 <= i < |w| ==> IsLetter(w[i])
    ensures CollapseLetters(w) == "d"
  {
    assert LetterRun(w) == |w|;
    assert w[|w|..] == [];
  }

  /** A string whose letters are already collapsed is left alone by the second pass. */
  lemma {:induction false} CollapseFixed(s: string)
    requires LettersCollapsed(s)
    ensures CollapseLetters(s) == s
  {
    if s != [] {
      var tail := s[1..];
      assert LettersCollapsed(tail) by {
        forall i | 0 <= i < |tail| && IsLetter(tail[i])
          ensures tail[i] == 'd' && (i + 1 < |tail| ==> !IsLetter(tail[i + 1]))
        {
          assert tail[i] == s[i + 1];
        }
      }
      CollapseFixed(tail);
      if IsLetter(s[0]) {
        assert LetterRun(s) == 1 by {
          assert |s| > 1 ==> !IsLetter(s[1]);
        }
      }
      assert s == [s[0]] + tail;
    }
  }

  /** A request in the normal alphabet without two `d`s in a row is already normalised. */
  lemma NormalizeFixed(s: string)
    requires InFormulaAlphabet(s) && NoDoubleD(s)
    ensures Normalize(s) == s
  {
    assert AllKept(s);
    assert LettersCollapsed(s) by {
      forall i | 0 <= i < |s| && IsLetter(s[i])
        ensures s[i] == 'd' && (i + 1 < |s| ==> !IsLetter(s[i + 1]))
      {
        assert IsFormulaChar(s[i]);
        if i + 1 < |s| { assert IsFormulaChar(s[i + 1]); }
      }
    }
    CollapseFixed(s);
  }

  /** Normalising a normalised request changes nothing. */
  lemma NormalizeIdempotent(request: string)
    ensures Normalize(Normalize(request)) == Normalize(request)
  {
    NormalizeFixed(Normalize(request));
  }

  /** A digit or a sign survives normalisation, and the request is normalised
      on each side of it independently. */
  lemma NormalizeSplit(u: string, c: char, v: string)
    requires IsDigit(c) || IsSign(c)
    ensures Normalize(u + [c] + v) == Normalize(u) + [c] + Normalize(v)
  {
    StripConcat(u + [c], v);
    StripConcat(u, [c]);
    CollapseSplit(Strip(u), c, Strip(v));
  }

  /** A word of Latin or Cyrillic letters, such as `dice` or `кубик`, becomes `d`. */
  lemma NormalizeWord(w: string)
    requires w != [] && forall i :: 0 <= i < |w| ==> IsLetter(w[i])
    ensures Normalize(w) == "d"
  {
    assert AllKept(w);
    CollapseWord(w);
  }
}
