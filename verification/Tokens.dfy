/**
 Text as the tokenizer sees it.  The pattern `\w+|[^\w\s]` splits all characters into
 three classes; a character keeps its code point beside its class.
 */
module Tokens {
  import opened Prelude

  datatype Ch = Word(code: nat) | Space(code: nat) | Punct(code: nat)

  type Text = seq<Ch>
  type Token = Text

  const NEWLINE := Space(10)
  const RETURN := Space(13)
  const TAB := Space(9)
  const BLANK := Space(32)

  predicate AllSpace(s: Text)
  {
    forall i :: 0 <= i < |s| ==> s[i].Space?
  }

  predicate AllWord(s: Text)
  {
    forall i :: 0 <= i < |s| ==> s[i].Word?
  }

  predicate WordsUpTo(s: Text, n: nat)
  {
    n <= |s| && AllWord(s[..n])
  }

  predicate SpaceUpTo(s: Text, n: nat)
  {
    n <= |s| && AllSpace(s[..n])
  }

  /** The length of the longest prefix of word characters: what greedy `\w+` takes. */
  function WordRun(s: Text): (n: nat)
    ensures n <= |s| && WordsUpTo(s, n)
    ensures n < |s| ==> !s[n].Word?
  {
    if s != [] && s[0].Word? then 1 + WordRun(s[1..]) else 0
  }

  /** `findall(\w+|[^\w\s])`. */
  function Tokenize(s: Text): seq<Token>
    decreases |s|
  {
    if s == [] then []
    else match s[0]
      case Space(_) => Tokenize(s[1..])
      case Punct(_) => [[s[0]]] + Tokenize(s[1..])
      case Word(_) => [s[..WordRun(s)]] + Tokenize(s[WordRun(s)..])
  }

  function Count(s: Text): nat
  {
    |Tokenize(s)|
  }

  /** Cutting between `a` and `b` cuts no word. */
  predicate CutsNoWord(a: Text, b: Text)
  {
    a == [] || b == [] || !Last(a).Word? || !b[0].Word?
  }

  lemma {:induction false} WordRunConcat(a: Text, b: Text)
    requires CutsNoWord(a, b)
    ensures WordRun(a + b) == WordRun(a) + if a == [] then WordRun(b) else 0
  {
    if a == [] {
      assert a + b == b;
    } else if a[0].Word? {
      assert (a + b)[1..] == a[1..] + b;
      if a[1..] != [] {
        WordRunConcat(a[1..], b);
      } else {
        assert a[1..] + b == b;
      }
    }
  }

  lemma ConcatAssoc<T>(a: seq<T>, b: seq<T>, c: seq<T>)
    ensures a + b + c == a + (b + c)
  {
  }

  /** The first token and what is left of the text behind it. */
  lemma TokenizeStep(s: Text)
    requires s != []
    ensures var n := if s[0].Word? then WordRun(s) else 1;
      && 0 < n <= |s|
      && Tokenize(s) == (if s[0].Space? then [] else [s[..n]]) + Tokenize(s[n..])
  {
    if s[0].Punct? {
      assert s[..1] == [s[0]];
    } else if s[0].Space? {
      assert [] + Tokenize(s[1..]) == Tokenize(s[1..]);
    }
  }

  /** Tokenizing is additive wherever the cut falls in no word. */
  lemma {:induction false} TokenizeConcat(a: Text, b: Text)
    requires CutsNoWord(a, b)
    ensures Tokenize(a + b) == Tokenize(a) + Tokenize(b)
    decreases |a|
  {
    NothingHasNoTokens();
    hide Tokenize, WordRun, WordsUpTo;
    if a == [] {
      assert a + b == b;
    } else {
      var n := if a[0].Word? then WordRun(a) else 1;
      TokenizeStep(a);
      assert CutsNoWord(a[n..], b);
      WordRunConcat(a, b);
      hide CutsNoWord;
      TokenizeStep(a + b);
      assert (a + b)[..n] == a[..n];
      assert (a + b)[n..] == a[n..] + b;
      TokenizeConcat(a[n..], b);
      ConcatAssoc(if a[0].Space? then [] else [a[..n]], Tokenize(a[n..]), Tokenize(b));
    }
  }

  lemma {:induction false} SpaceHasNoTokens(s: Text)
    requires AllSpace(s)
    ensures Tokenize(s) == []
  {
    if s != [] {
      SpaceHasNoTokens(s[1..]);
    }
  }

  /** White space between two texts separates them, however much of it there is. */
  lemma TokenizeAcrossSpace(a: Text, w: Text, b: Text)
    requires AllSpace(w) && w != []
    ensures Tokenize(a + w + b) == Tokenize(a) + Tokenize(b)
  {
    TokenizeConcat(a + w, b);
    TokenizeConcat(a, w);
    SpaceHasNoTokens(w);
    assert Tokenize(a) + [] == Tokenize(a);
  }

  function StripLeft(s: Text): (r: Text)
    ensures |r| <= |s| && r == s[|s| - |r|..] && AllSpace(s[..|s| - |r|])
    ensures r != [] ==> !r[0].Space?
  {
    if s != [] && s[0].Space? then
      var r := StripLeft(s[1..]);
      assert s[..|s| - |r|] == [s[0]] + s[1..][..|s| - 1 - |r|];
      r
    else s
  }

  function StripRight(s: Text): (r: Text)
    ensures |r| <= |s| && r == s[..|r|] && AllSpace(s[|r|..])
    ensures r != [] ==> !Last(r).Space?
    decreases |s|
  {
    if s != [] && Last(s).Space? then StripRight(Front(s)) else s
  }

  /** `str.strip`. */
  function Strip(s: Text): Text
  {
    StripRight(StripLeft(s))
  }

  lemma SplitAt(s: Text, n: nat)
    requires n <= |s|
    ensures s == s[..n] + s[n..]
  {
  }

  /** A stripped text is a slice of the original, cut only out of surrounding white space. */
  lemma StripSlices(s: Text) returns (before: Text, after: Text)
    ensures s == before + Strip(s) + after && AllSpace(before) && AllSpace(after)
  {
    var left := StripLeft(s);
    var right := StripRight(left);
    before, after := s[..|s| - |left|], left[|right|..];
    SplitAt(s, |s| - |left|);
    SplitAt(left, |right|);
    ConcatAssoc(before, right, after);
  }

  lemma StripEnds(s: Text)
    ensures Strip(s) != [] ==> !Strip(s)[0].Space? && !Last(Strip(s)).Space?
  {
    var left := StripLeft(s);
    if Strip(s) != [] {
      assert Strip(s)[0] == left[0];
    }
  }

  lemma StripKeepsTokens(s: Text)
    ensures Tokenize(Strip(s)) == Tokenize(s)
    ensures Strip(s) != [] ==> Tokenize(s) != []
  {
    var before, after := StripSlices(s);
    TokenizeConcat(before + Strip(s), after);
    TokenizeConcat(before, Strip(s));
    SpaceHasNoTokens(before);
    SpaceHasNoTokens(after);
    assert [] + Tokenize(Strip(s)) + [] == Tokenize(Strip(s));
    StripEnds(s);
  }

  // ---------------------------------------------------------------- joining and detokenizing

  /** `" ".join(parts)`. */
  function Join(parts: seq<Text>): Text
  {
    if parts == [] then [] else if |parts| == 1 then parts[0] else Join(Front(parts)) + [BLANK] + Last(parts)
  }

  function TokensOf(parts: seq<Text>): seq<seq<Token>>
  {
    if parts == [] then [] else TokensOf(Front(parts)) + [Tokenize(Last(parts))]
  }

  lemma {:induction false} TokensOfConcat(a: seq<Text>, b: seq<Text>)
    ensures TokensOf(a + b) == TokensOf(a) + TokensOf(b)
    decreases b
  {
    if b == [] {
      assert a + b == a;
    } else {
      assert Front(a + b) == a + Front(b);
      TokensOfConcat(a, Front(b));
    }
  }

  /** Joining with blanks concatenates the tokens. */
  lemma {:induction false} JoinTokens(parts: seq<Text>)
    ensures Tokenize(Join(parts)) == Concat(TokensOf(parts))
  {
    if parts != [] {
      JoinTokens(Front(parts));
      ConcatSnoc(TokensOf(Front(parts)), Tokenize(Last(parts)));
      if |parts| == 1 {
        assert TokensOf(Front(parts)) == [];
      } else {
        TokenizeAcrossSpace(Join(Front(parts)), [BLANK], Last(parts));
      }
    }
  }

  /** What a token of some text can be: a word, or one punctuation character. */
  predicate IsToken(t: Token)
  {
    t != [] && (AllWord(t) || IsPunct(t))
  }

  /** `^[^\w\s]$` matches. */
  predicate IsPunct(t: Token)
  {
    |t| == 1 && t[0].Punct?
  }

  lemma {:induction false} TokensAreTokens(s: Text)
    ensures forall i :: 0 <= i < |Tokenize(s)| ==> IsToken(Tokenize(s)[i])
    decreases |s|
  {
    if s != [] {
      TokensAreTokens(s[if s[0].Word? then WordRun(s) else 1..]);
    }
  }

  lemma {:induction false} AllWordRun(t: Text)
    requires AllWord(t)
    ensures WordRun(t) == |t|
  {
    if t != [] {
      AllWordRun(t[1..]);
    }
  }

  lemma TokenizeToken(t: Token)
    requires IsToken(t)
    ensures Tokenize(t) == [t]
  {
    if AllWord(t) {
      AllWordRun(t);
      assert t[..|t|] == t && t[|t|..] == [];
    } else {
      assert t == [t[0]] && t[1..] == [];
    }
  }

  /** One more token: glued to the last part when it is punctuation, a part of its own otherwise. */
  function AddPart(parts: seq<Text>, t: Token): seq<Text>
  {
    if parts != [] && IsPunct(t) then Front(parts) + [Last(parts) + t] else parts + [t]
  }

  /** The parts list that detokenizing builds. */
  function Parts(tokens: seq<Token>): seq<Text>
  {
    if tokens == [] then []
    else AddPart(Parts(Front(tokens)), Last(tokens))
  }

  method Detokenize(tokens: seq<Token>) returns (text: Text)
    ensures text == Join(Parts(tokens))
  {
    var parts: seq<Text> := [];
    for i := 0 to |tokens|
      invariant parts == Parts(tokens[..i])
    {
      assert Front(tokens[..i + 1]) == tokens[..i];
      if parts != [] && IsPunct(tokens[i]) {
        parts := parts[|parts| - 1 := Last(parts) + tokens[i]];
        assert parts == Parts(tokens[..i + 1]);
      } else {
        parts := parts + [tokens[i]];
      }
    }
    assert tokens[..|tokens|] == tokens;
    text := Join(parts);
  }

  lemma AddPartTokens(parts: seq<Text>, t: Token)
    requires IsToken(t)
    ensures Tokenize(Join(AddPart(parts, t))) == Tokenize(Join(parts)) + [t]
  {
    hide Tokenize, Join;
    TokenizeToken(t);
    if parts == [] {
      JoinOne(t);
      assert AddPart(parts, t) == [t];
    } else if IsPunct(t) {
      JoinExtendLast(parts, t);
      TokenizeConcat(Join(parts), t);
    } else {
      JoinSnoc(parts, t);
      TokenizeAcrossSpace(Join(parts), [BLANK], t);
    }
  }

  lemma JoinOne(t: Text)
    ensures Join([t]) == t && Tokenize(Join([])) == []
  {
  }

  lemma JoinSnoc(parts: seq<Text>, t: Text)
    requires parts != []
    ensures Join(parts + [t]) == Join(parts) + [BLANK] + t
  {
    assert Front(parts + [t]) == parts;
  }

  lemma {:induction false} PartsNotEmpty(tokens: seq<Token>)
    ensures Parts(tokens) == [] <==> tokens == []
  {
  }

  /** One more token: punctuation is glued to what stands before it, a word follows behind a blank. */
  lemma DetokenizeNext(tokens: seq<Token>, t: Token)
    ensures Join(Parts(tokens + [t])) ==
            if tokens == [] then t
            else if IsPunct(t) then Join(Parts(tokens)) + t
            else Join(Parts(tokens)) + [BLANK] + t
  {
    hide Join, Parts;
    assert Front(tokens + [t]) == tokens;
    PartsNotEmpty(tokens);
    PartsNext(tokens, t);
    if tokens == [] {
      JoinOne(t);
    } else if IsPunct(t) {
      JoinExtendLast(Parts(tokens), t);
    } else {
      JoinSnoc(Parts(tokens), t);
    }
  }

  lemma PartsNext(tokens: seq<Token>, t: Token)
    ensures Parts(tokens + [t]) == AddPart(Parts(tokens), t)
    ensures AddPart([], t) == [t]
  {
    assert Front(tokens + [t]) == tokens;
  }

  /** Detokenizing loses nothing: the tokens of the joined text are the tokens it was made from. */
  lemma {:induction false} DetokenizeRoundTrip(tokens: seq<Token>)
    requires forall i :: 0 <= i < |tokens| ==> IsToken(tokens[i])
    ensures Tokenize(Join(Parts(tokens))) == tokens
    ensures tokens != [] ==> Join(Parts(tokens)) != []
  {
    hide IsToken, Tokenize, Join, AddPart;
    NothingHasNoTokens();
    if tokens != [] {
      DetokenizeRoundTrip(Front(tokens));
      AddPartTokens(Parts(Front(tokens)), Last(tokens));
      assert Front(tokens) + [Last(tokens)] == tokens;
    } else {
      assert Parts(tokens) == [];
    }
  }

  lemma NothingHasNoTokens()
    ensures Tokenize([]) == [] && Join([]) == []
  {
  }

  lemma JoinExtendLast(parts: seq<Text>, t: Text)
    requires parts != []
    ensures Join(Front(parts) + [Last(parts) + t]) == Join(parts) + t
  {
    var longer := Front(parts) + [Last(parts) + t];
    assert Front(longer) == Front(parts);
    if |parts| > 1 {
      assert Join(Front(parts)) + [BLANK] + (Last(parts) + t) == Join(Front(parts)) + [BLANK] + Last(parts) + t;
    }
  }
}
