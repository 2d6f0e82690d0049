/**
 Turning a literal GraphQL query into a regular expression that tolerates
 differences in whitespace (escapeRegexChars, escapeSpace and escapeGraphQlQuery
 in dsl/graphql/interaction.go).

 Both rewrites are regex replacements in the original; here each is a recursive
 function over the characters of the string, and the lemmas relate them to
 independent definitions: a decoder for the escaping, a position-by-position
 description of the whitespace collapse, and a one-pass description of the
 composition.
 */
module QueryPattern {

  /** What every whitespace run is replaced with: the three characters \s* */
  const SpaceToken: string := "\\s*"

  /** The characters the escaping expression matches: - [ ] / { } ( ) * + ? . \ ^ $ | */
  predicate IsMeta(c: char)
  {
    c == '-' || c == '[' || c == ']' || c == '/' || c == '{' || c == '}' ||
    c == '(' || c == ')' || c == '*' || c == '+' || c == '?' || c == '.' ||
    c == '\\' || c == '^' || c == '$' || c == '|'
  }

  /** RE2's class \s: tab, newline, form feed, carriage return and space. */
  predicate IsSpace(c: char)
  {
    c == '\t' || c == '\n' || c == '\U{C}' || c == '\r' || c == ' '
  }

  predicate NoSpace(s: string) { forall i :: 0 <= i < |s| ==> !IsSpace(s[i]) }

  predicate AllSpace(s: string) { forall i :: 0 <= i < |s| ==> IsSpace(s[i]) }

  /** Number of metacharacters in s. */
  function MetaCount(s: string): nat
  {
    if s == [] then 0 else (if IsMeta(s[0]) then 1 else 0) + MetaCount(s[1..])
  }

  // ---------------------------------------------------------------------------
  // escapeRegexChars
  // ---------------------------------------------------------------------------

  /** The replacement escapeRegexChars writes for one character. */
  function EscapeChar(c: char): (r: string)
    ensures |r| >= 1 && r[|r| - 1] == c
    ensures NoSpace(r) <==> !IsSpace(c)
  {
    if IsMeta(c) then ['\\', c] else [c]
  }

  /** Every metacharacter gets a backslash in front of it; nothing else changes. */
  function EscapeRegexChars(s: string): (r: string)
    ensures |r| == |s| + MetaCount(s)
    ensures s != [] ==> r != [] && (IsSpace(r[0]) <==> IsSpace(s[0]))
  {
    if s == [] then [] else EscapeChar(s[0]) + EscapeRegexChars(s[1..])
  }

  /** Escaping works character by character: it distributes over concatenation. */
  lemma {:induction false} EscapeRegexCharsAppend(a: string, b: string)
    ensures EscapeRegexChars(a + b) == EscapeRegexChars(a) + EscapeRegexChars(b)
  {
    if a == [] {
      assert a + b == b;
    } else {
      assert (a + b)[0] == a[0];
      assert (a + b)[1..] == a[1..] + b;
      EscapeRegexCharsAppend(a[1..], b);
    }
  }

  /** On one character: a metacharacter c becomes \c, any other character stays. */
  lemma EscapeRegexCharsSingle(c: char)
    ensures EscapeRegexChars([c]) == if IsMeta(c) then ['\\', c] else [c]
  {
    assert [c][1..] == [];
  }

  /** A string without metacharacters (whitespace included) is left as it is. */
  lemma {:induction false} EscapeRegexCharsPlain(s: string)
    requires forall i :: 0 <= i < |s| ==> !IsMeta(s[i])
    ensures EscapeRegexChars(s) == s
  {
    if s != [] {
      EscapeRegexCharsPlain(s[1..]);
    }
  }

  /** A decoder: a backslash is dropped and the character after it kept. */
  function Unescape(r: string): (s: string)
    ensures |s| <= |r|
  {
    if r == [] then []
    else if r[0] == '\\' && |r| >= 2 then [r[1]] + Unescape(r[2..])
    else [r[0]] + Unescape(r[1..])
  }

  /** Decoding undoes escaping. */
  lemma {:induction false} UnescapeEscape(s: string)
    ensures Unescape(EscapeRegexChars(s)) == s
  {
    if s != [] {
      var rest := EscapeRegexChars(s[1..]);
      UnescapeEscape(s[1..]);
      if IsMeta(s[0]) {
        assert (['\\', s[0]] + rest)[2..] == rest;
      } else {
        assert ([s[0]] + rest)[1..] == rest;
      }
    }
  }

  /** So escaping is injective: different queries give different escaped texts. */
  lemma EscapeRegexCharsInjective(a: string, b: string)
    requires EscapeRegexChars(a) == EscapeRegexChars(b)
    ensures a == b
  {
    UnescapeEscape(a);
    UnescapeEscape(b);
  }

  /**
   A pattern that matches exactly one string: every metacharacter is escaped and
   every backslash escapes a metacharacter.
   */
  predicate IsLiteralPattern(r: string)
  {
    r == [] ||
    (r[0] == '\\' && |r| >= 2 && IsMeta(r[1]) && IsLiteralPattern(r[2..])) ||
    (!IsMeta(r[0]) && IsLiteralPattern(r[1..]))
  }

  /** Escaping always yields a literal pattern: no metacharacter is left active. */
  lemma {:induction false} EscapeRegexCharsIsLiteral(s: string)
    ensures IsLiteralPattern(EscapeRegexChars(s))
  {
    if s != [] {
      var rest := EscapeRegexChars(s[1..]);
      EscapeRegexCharsIsLiteral(s[1..]);
      if IsMeta(s[0]) {
        assert (['\\', s[0]] + rest)[2..] == rest;
      } else {
        assert ([s[0]] + rest)[1..] == rest;
      }
    }
  }

  /** Every literal pattern is the escaping of some query: the one Unescape gives. */
  lemma {:induction false} EscapeUnescape(r: string)
    requires IsLiteralPattern(r)
    ensures EscapeRegexChars(Unescape(r)) == r
    decreases |r|
  {
    if r == [] {
    } else if r[0] == '\\' && |r| >= 2 && IsMeta(r[1]) && IsLiteralPattern(r[2..]) {
      EscapeUnescape(r[2..]);
      var u := Unescape(r[2..]);
      assert ([r[1]] + u)[1..] == u;
      assert r == ['\\', r[1]] + r[2..];
    } else {
      EscapeUnescape(r[1..]);
      var u := Unescape(r[1..]);
      assert ([r[0]] + u)[1..] == u;
      assert r == [r[0]] + r[1..];
    }
  }

  // ---------------------------------------------------------------------------
  // escapeSpace
  // ---------------------------------------------------------------------------

  /** Length of the whitespace run s starts with (zero when it starts with none). */
  function RunLength(s: string): (n: nat)
    ensures n <= |s|
    ensures n < |s| ==> !IsSpace(s[n])
    ensures s != [] && IsSpace(s[0]) ==> n > 0
  {
    if s != [] && IsSpace(s[0]) then 1 + RunLength(s[1..]) else 0
  }

  /** Everything before RunLength(s) is whitespace, so the run it measures is maximal. */
  lemma {:induction false} RunLengthAllSpace(s: string)
    ensures AllSpace(s[..RunLength(s)])
  {
    if s != [] && IsSpace(s[0]) {
      RunLengthAllSpace(s[1..]);
      assert s[..RunLength(s)] == [s[0]] + s[1..][..RunLength(s[1..])];
    }
  }

  /**
   The scan behind escapeSpace, left to right; inRun says whether the character
   before s was whitespace. The first whitespace character of a run writes \s*,
   the following ones nothing, and every other character is copied.
   */
  function EscapeSpaceFrom(s: string, inRun: bool): string
  {
    if s == [] then []
    else if IsSpace(s[0]) then (if inRun then [] else SpaceToken) + EscapeSpaceFrom(s[1..], true)
    else [s[0]] + EscapeSpaceFrom(s[1..], false)
  }

  /** Each maximal run of whitespace becomes \s*; every other character is copied. */
  function EscapeSpace(s: string): (r: string)
    ensures r == [] <==> s == []
  {
    EscapeSpaceFrom(s, false)
  }

  /** Whether the scan is inside a run after reading a, having started with inRun. */
  function InRunAfter(a: string, inRun: bool): bool
  {
    if a == [] then inRun else IsSpace(a[|a| - 1])
  }

  /** The scan of a + b is the scan of a followed by the scan of b from where a left it. */
  lemma {:induction false} EscapeSpaceFromAppend(a: string, b: string, inRun: bool)
    ensures EscapeSpaceFrom(a + b, inRun) == EscapeSpaceFrom(a, inRun) + EscapeSpaceFrom(b, InRunAfter(a, inRun))
  {
    if a == [] {
      assert a + b == b;
    } else {
      assert (a + b)[0] == a[0];
      assert (a + b)[1..] == a[1..] + b;
      EscapeSpaceFromAppend(a[1..], b, IsSpace(a[0]));
      if a[1..] != [] {
        assert a[1..][|a[1..]| - 1] == a[|a| - 1];
      }
    }
  }

  /** Where no run is under way, the flag makes no difference. */
  lemma EscapeSpaceFromSettled(s: string)
    requires s == [] || !IsSpace(s[0])
    ensures EscapeSpaceFrom(s, true) == EscapeSpaceFrom(s, false)
  {
  }

  /** Inside a run, further whitespace writes nothing. */
  lemma {:induction false} EscapeSpaceFromInRun(w: string)
    requires AllSpace(w)
    ensures EscapeSpaceFrom(w, true) == []
  {
    if w != [] {
      EscapeSpaceFromInRun(w[1..]);
    }
  }

  /** The output holds no whitespace at all. */
  lemma {:induction false} EscapeSpaceNoWhitespace(s: string, inRun: bool)
    ensures NoSpace(EscapeSpaceFrom(s, inRun))
  {
    if s != [] {
      EscapeSpaceNoWhitespace(s[1..], IsSpace(s[0]));
    }
  }

  /** The whole of a nonempty whitespace run becomes a single \s*. */
  lemma EscapeSpaceRun(w: string)
    requires w != [] && AllSpace(w)
    ensures EscapeSpace(w) == SpaceToken
  {
    EscapeSpaceFromInRun(w[1..]);
    assert SpaceToken + [] == SpaceToken;
  }

  /** Text without whitespace is copied unchanged, whatever came before it. */
  lemma {:induction false} EscapeSpaceNoSpace(s: string, inRun: bool)
    requires NoSpace(s)
    ensures EscapeSpaceFrom(s, inRun) == s
  {
    if s != [] {
      EscapeSpaceNoSpace(s[1..], false);
    }
  }

  /**
   Splitting the input anywhere but inside a whitespace run splits the output at
   the same place.
   */
  lemma EscapeSpaceAppend(a: string, b: string)
    requires a == [] || b == [] || !IsSpace(a[|a| - 1]) || !IsSpace(b[0])
    ensures EscapeSpace(a + b) == EscapeSpace(a) + EscapeSpace(b)
  {
    EscapeSpaceFromAppend(a, b, false);
    if InRunAfter(a, false) {
      EscapeSpaceFromSettled(b);
    }
  }

  /** One more whitespace character at the end of a run changes nothing. */
  lemma EscapeSpaceExtendRun(a: string, c: char)
    requires a != [] && IsSpace(a[|a| - 1]) && IsSpace(c)
    ensures EscapeSpace(a + [c]) == EscapeSpace(a)
  {
    EscapeSpaceFromAppend(a, [c], false);
    assert EscapeSpaceFrom([c], true) == [] by {
      assert [c][1..] == [];
    }
  }

  /** What one character contributes, given the text before it. */
  function SpacePiece(before: string, c: char): string
  {
    if !IsSpace(c) then [c]
    else if before != [] && IsSpace(before[|before| - 1]) then []
    else SpaceToken
  }

  /**
   Reference definition of the whitespace collapse, position by position: a
   non-whitespace character is copied, the first character of a run writes \s*,
   and the rest of the run writes nothing.
   */
  function EscapeSpaceSpec(s: string): string
  {
    if s == [] then []
    else EscapeSpaceSpec(s[..|s| - 1]) + SpacePiece(s[..|s| - 1], s[|s| - 1])
  }

  /** The recursive rewrite agrees with the position-by-position description. */
  lemma {:induction false} EscapeSpaceMatchesSpec(s: string)
    ensures EscapeSpace(s) == EscapeSpaceSpec(s)
  {
    if s != [] {
      var init, c := s[..|s| - 1], s[|s| - 1];
      assert s == init + [c];
      EscapeSpaceMatchesSpec(init);
      if !IsSpace(c) {
        EscapeSpaceAppend(init, [c]);
        EscapeSpaceNoSpace([c], false);
      } else if init == [] || !IsSpace(init[|init| - 1]) {
        EscapeSpaceAppend(init, [c]);
        EscapeSpaceRun([c]);
      } else {
        EscapeSpaceExtendRun(init, c);
      }
    }
  }

  // ---------------------------------------------------------------------------
  // escapeGraphQlQuery
  // ---------------------------------------------------------------------------

  /** Escape the metacharacters first, then collapse whitespace runs. */
  function EscapeGraphQlQuery(s: string): (r: string)
    ensures NoSpace(r)
    ensures r == [] <==> s == []
  {
    EscapeSpaceNoWhitespace(EscapeRegexChars(s), false);
    EscapeSpace(EscapeRegexChars(s))
  }

  /**
   The composition read as a single pass over the query: each whitespace run
   writes the token \s* as it is, every other character writes its escape.
   */
  function OnePass(s: string): string
    decreases |s|
  {
    if s == [] then []
    else if IsSpace(s[0]) then SpaceToken + OnePass(s[RunLength(s)..])
    else EscapeChar(s[0]) + OnePass(s[1..])
  }

  /**
   Because whitespace passes through the escaping untouched, the two-step
   rewrite equals the single pass: one \s* per whitespace run of the query, and
   no \s* ever escaped.
   */
  lemma {:induction false} EscapeGraphQlQueryOnePass(s: string)
    ensures EscapeGraphQlQuery(s) == OnePass(s)
    decreases |s|
  {
    if s == [] {
    } else if IsSpace(s[0]) {
      var n := RunLength(s);
      EscapeRegexCharsRun(s);
      RunLengthAllSpace(s);
      EscapeSpaceRunThen(s[..n], EscapeRegexChars(s[n..]));
      EscapeGraphQlQueryOnePass(s[n..]);
    } else {
      var e := EscapeChar(s[0]);
      EscapeSpaceAppend(e, EscapeRegexChars(s[1..]));
      EscapeSpaceNoSpace(e, false);
      EscapeGraphQlQueryOnePass(s[1..]);
    }
  }

  /** A leading whitespace run passes through the escaping unchanged. */
  lemma EscapeRegexCharsRun(s: string)
    ensures EscapeRegexChars(s) == s[..RunLength(s)] + EscapeRegexChars(s[RunLength(s)..])
  {
    var n := RunLength(s);
    assert s == s[..n] + s[n..];
    RunLengthAllSpace(s);
    EscapeRegexCharsAppend(s[..n], s[n..]);
    EscapeRegexCharsPlain(s[..n]);
  }

  /** A whole run followed by text that does not continue it gives one \s*. */
  lemma EscapeSpaceRunThen(w: string, x: string)
    requires w != [] && AllSpace(w)
    requires x == [] || !IsSpace(x[0])
    ensures EscapeSpace(w + x) == SpaceToken + EscapeSpace(x)
  {
    EscapeSpaceFromAppend(w, x, false);
    EscapeSpaceRun(w);
    EscapeSpaceFromSettled(x);
  }

  /** The query with each whitespace run shortened to one space. */
  function Collapse(s: string): (r: string)
    ensures s != [] ==> r != [] && (IsSpace(r[0]) <==> IsSpace(s[0]))
    decreases |s|
  {
    if s == [] then []
    else if IsSpace(s[0]) then [' '] + Collapse(s[RunLength(s)..])
    else [s[0]] + Collapse(s[1..])
  }

  /** Reads a pattern back: \s* gives one space, \c gives c, anything else itself. */
  function Unpattern(r: string): (s: string)
    ensures |s| <= |r|
  {
    if r == [] then []
    else if |r| >= 3 && r[..3] == SpaceToken then [' '] + Unpattern(r[3..])
    else if r[0] == '\\' && |r| >= 2 then [r[1]] + Unpattern(r[2..])
    else [r[0]] + Unpattern(r[1..])
  }

  /** Reading back a \s* token gives one space. */
  lemma UnpatternToken(rest: string)
    ensures Unpattern(SpaceToken + rest) == [' '] + Unpattern(rest)
  {
    assert (SpaceToken + rest)[..3] == SpaceToken;
    assert (SpaceToken + rest)[3..] == rest;
  }

  /** Reading back an escaped metacharacter \c gives c. */
  lemma UnpatternEscaped(c: char, rest: string)
    requires IsMeta(c)
    ensures Unpattern(['\\', c] + rest) == [c] + Unpattern(rest)
  {
    var r := ['\\', c] + rest;
    assert c != 's';
    assert |r| >= 3 ==> r[..3][1] != SpaceToken[1];
    assert r[2..] == rest;
  }

  /** Reading back a character that is not a metacharacter gives it unchanged. */
  lemma UnpatternPlain(c: char, rest: string)
    requires !IsMeta(c)
    ensures Unpattern([c] + rest) == [c] + Unpattern(rest)
  {
    var r := [c] + rest;
    assert c != '\\';
    assert |r| >= 3 ==> r[..3][0] != SpaceToken[0];
    assert r[1..] == rest;
  }

  /** Reading back the escape of any character gives that character. */
  lemma UnpatternChar(c: char, rest: string)
    ensures Unpattern(EscapeChar(c) + rest) == [c] + Unpattern(rest)
  {
    if IsMeta(c) {
      UnpatternEscaped(c, rest);
    } else {
      UnpatternPlain(c, rest);
    }
  }

  /** Reading back the one-pass pattern gives the collapsed query. */
  lemma {:induction false} UnpatternOnePass(s: string)
    ensures Unpattern(OnePass(s)) == Collapse(s)
    decreases |s|
  {
    if s != [] {
      if IsSpace(s[0]) {
        UnpatternToken(OnePass(s[RunLength(s)..]));
        UnpatternOnePass(s[RunLength(s)..]);
      } else {
        UnpatternChar(s[0], OnePass(s[1..]));
        UnpatternOnePass(s[1..]);
      }
    }
  }

  /**
   The pattern determines the query up to what each whitespace run holds:
   reading it back gives the query with every run shortened to one space.
   */
  lemma PatternDecodes(s: string)
    ensures Unpattern(EscapeGraphQlQuery(s)) == Collapse(s)
  {
    EscapeGraphQlQueryOnePass(s);
    UnpatternOnePass(s);
  }

  /** Collapsing the query first does not change its one-pass pattern. */
  lemma {:induction false} OnePassCollapse(s: string)
    ensures OnePass(Collapse(s)) == OnePass(s)
    decreases |s|
  {
    if s != [] {
      if IsSpace(s[0]) {
        var t := s[RunLength(s)..];
        var ct := Collapse(t);
        assert ([' '] + ct)[0] == ' ';
        assert ([' '] + ct)[1..] == ct;
        assert RunLength([' '] + ct) == 1;
        OnePassCollapse(t);
      } else {
        assert ([s[0]] + Collapse(s[1..]))[1..] == Collapse(s[1..]);
        OnePassCollapse(s[1..]);
      }
    }
  }

  /** What a whitespace run holds does not change the pattern. */
  lemma EscapeGraphQlQueryCollapse(s: string)
    ensures EscapeGraphQlQuery(Collapse(s)) == EscapeGraphQlQuery(s)
  {
    OnePassCollapse(s);
    EscapeGraphQlQueryOnePass(s);
    EscapeGraphQlQueryOnePass(Collapse(s));
  }

  /**
   Two queries give the same pattern exactly when they agree after every
   whitespace run is shortened to one space.
   */
  lemma SamePatternIff(a: string, b: string)
    ensures EscapeGraphQlQuery(a) == EscapeGraphQlQuery(b) <==> Collapse(a) == Collapse(b)
  {
    PatternDecodes(a);
    PatternDecodes(b);
    EscapeGraphQlQueryCollapse(a);
    EscapeGraphQlQueryCollapse(b);
  }

  /** A query with neither metacharacters nor whitespace is its own pattern. */
  lemma PlainQuery(s: string)
    requires forall i :: 0 <= i < |s| ==> !IsMeta(s[i]) && !IsSpace(s[i])
    ensures EscapeGraphQlQuery(s) == s
  {
    EscapeRegexCharsPlain(s);
    EscapeSpaceNoSpace(s, false);
  }

  /**
   The order is load-bearing: collapsing whitespace first and escaping after
   would escape the token itself.
   */
  lemma OrderMatters()
    ensures EscapeGraphQlQuery(" ") == "\\s*"
    ensures EscapeRegexChars(EscapeSpace(" ")) == "\\\\s\\*"
  {
    EscapeRegexCharsSingle(' ');
    EscapeSpaceRun(" ");
    assert "\\s*" == ['\\'] + ['s'] + ['*'];
    EscapeRegexCharsAppend(['\\'], ['s'] + ['*']);
    EscapeRegexCharsAppend(['s'], ['*']);
    EscapeRegexCharsSingle('\\');
    EscapeRegexCharsSingle('s');
    EscapeRegexCharsSingle('*');
  }
}
