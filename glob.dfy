/** Shell-style wildcard matching as Python's `fnmatch.fnmatch` performs it
    on POSIX (where `normcase` is the identity): the pattern is read into
    tokens the way `fnmatch.translate` reads it, and the whole name must
    match. `*` matches any run of characters (newlines included), `?` any one
    character, `[...]` / `[!...]` a character class with `a-z` ranges, and an
    unterminated `[` stands for itself. */
module Glob {

  datatype ClassItem = Single(c: char) | Range(lo: char, hi: char)

  datatype Token =
    | Star
    | AnyChar
    | Literal(c: char)
    | Bracket(negated: bool, items: seq<ClassItem>)

  predicate IsSpecial(c: char)
  {
    c == '*' || c == '?' || c == '['
  }

  /** First index at or after `j` holding `]`, or `|p|` when there is none. */
  function FindClose(p: string, j: nat): (k: nat)
    requires j <= |p|
    ensures j <= k <= |p|
    ensures k < |p| ==> p[k] == ']'
    decreases |p| - j
  {
    if j == |p| || p[j] == ']' then j else FindClose(p, j + 1)
  }

  /** Where the class opened by a `[` just before index `i` closes: a leading
      `!` and then a leading `]` belong to the class. */
  function BracketEnd(p: string, i: nat): (k: nat)
    requires i <= |p|
    ensures i <= k <= |p|
  {
    var j := if i < |p| && p[i] == '!' then i + 1 else i;
    var j' := if j < |p| && p[j] == ']' then j + 1 else j;
    FindClose(p, j')
  }

  /** The members of a class body: `x-y` is a range, anything else a single
      character (a `-` first or last is literal). */
  function ClassItems(body: string): seq<ClassItem>
    decreases |body|
  {
    if body == [] then []
    else if |body| >= 3 && body[1] == '-' then [Range(body[0], body[2])] + ClassItems(body[3..])
    else [Single(body[0])] + ClassItems(body[1..])
  }

  function BracketToken(body: string): Token
  {
    if body != [] && body[0] == '!' then Bracket(true, ClassItems(body[1..]))
    else Bracket(false, ClassItems(body))
  }

  /** The tokens of `p[i..]`. */
  function Tokenize(p: string, i: nat): seq<Token>
    requires i <= |p|
    decreases |p| - i
  {
    if i == |p| then []
    else if p[i] == '*' then [Star] + Tokenize(p, i + 1)
    else if p[i] == '?' then [AnyChar] + Tokenize(p, i + 1)
    else if p[i] == '[' then
      var k := BracketEnd(p, i + 1);
      if k == |p| then [Literal('[')] + Tokenize(p, i + 1)
      else [BracketToken(p[i + 1..k])] + Tokenize(p, k + 1)
    else [Literal(p[i])] + Tokenize(p, i + 1)
  }

  predicate InClass(items: seq<ClassItem>, c: char)
    decreases |items|
  {
    if items == [] then false
    else
      (match items[0]
       case Single(d) => c == d
       case Range(lo, hi) => lo <= c <= hi)
      || InClass(items[1..], c)
  }

  /** Whether the token sequence matches the whole of `s`. */
  predicate MatchTokens(t: seq<Token>, s: string)
    decreases |t|, |s|
  {
    if t == [] then s == []
    else match t[0]
      case Star => MatchTokens(t[1..], s) || (s != [] && MatchTokens(t, s[1..]))
      case AnyChar => s != [] && MatchTokens(t[1..], s[1..])
      case Literal(c) => s != [] && s[0] == c && MatchTokens(t[1..], s[1..])
      case Bracket(negated, items) =>
        s != [] && InClass(items, s[0]) != negated && MatchTokens(t[1..], s[1..])
  }

  /** `fnmatch.fnmatch(name, pattern)` on POSIX. */
  predicate Matches(pattern: string, name: string)
  {
    MatchTokens(Tokenize(pattern, 0), name)
  }

  function Literals(w: string): seq<Token>
  {
    seq(|w|, i requires 0 <= i < |w| => Literal(w[i]))
  }

  predicate NoSpecial(w: string)
  {
    forall i :: 0 <= i < |w| ==> !IsSpecial(w[i])
  }

  lemma {:induction false} TokenizeLiteral(w: string, i: nat)
    requires i <= |w| && NoSpecial(w[i..])
    ensures Tokenize(w, i) == Literals(w[i..])
    decreases |w| - i
  {
    if i < |w| {
      assert w[i + 1..] == w[i..][1..];
      TokenizeLiteral(w, i + 1);
      assert Literals(w[i..]) == [Literal(w[i])] + Literals(w[i + 1..]);
    }
  }

  lemma {:induction false} MatchLiterals(w: string, s: string)
    ensures MatchTokens(Literals(w), s) <==> s == w
    decreases |w|
  {
    if w != [] {
      assert Literals(w)[1..] == Literals(w[1..]);
      if s != [] {
        MatchLiterals(w[1..], s[1..]);
        if s[0] == w[0] && s[1..] == w[1..] {
          assert s == [s[0]] + s[1..] && w == [w[0]] + w[1..];
        }
      }
    }
  }

  /** A pattern without wildcard characters matches exactly itself. */
  lemma LiteralPatternMatchesOnlyItself(w: string, name: string)
    requires NoSpecial(w)
    ensures Matches(w, name) <==> name == w
  {
    assert w[0..] == w;
    TokenizeLiteral(w, 0);
    MatchLiterals(w, name);
  }

  /** A leading `*` lets the rest of the pattern match any suffix. */
  lemma {:induction false} MatchStar(t: seq<Token>, s: string)
    ensures MatchTokens([Star] + t, s) <==>
            exists k :: 0 <= k <= |s| && MatchTokens(t, s[k..])
    decreases |s|
  {
    var st := [Star] + t;
    assert st[1..] == t;
    if s == [] {
      assert s[0..] == s;
    } else {
      MatchStar(t, s[1..]);
      if MatchTokens(st, s) {
        if MatchTokens(t, s) {
          assert s[0..] == s;
        } else {
          var k :| 0 <= k <= |s[1..]| && MatchTokens(t, s[1..][k..]);
          assert s[1..][k..] == s[k + 1..];
        }
      } else {
        forall k | 0 <= k <= |s| ensures !MatchTokens(t, s[k..]) {
          if k == 0 {
            assert s[0..] == s;
          } else {
            assert s[1..][k - 1..] == s[k..];
          }
        }
      }
    }
  }

  /** `*` followed by a wildcard-free suffix (`*.txt`) matches exactly the
      names that end with that suffix. */
  lemma StarSuffixMatchesEndings(w: string, name: string)
    requires NoSpecial(w)
    ensures Matches("*" + w, name) <==> |w| <= |name| && name[|name| - |w|..] == w
  {
    var p := "*" + w;
    assert p[1..] == w;
    TokenizeLiteral(p, 1);
    assert Tokenize(p, 0) == [Star] + Literals(w);
    MatchStar(Literals(w), name);
    forall k | 0 <= k <= |name| ensures MatchTokens(Literals(w), name[k..]) <==> name[k..] == w {
      MatchLiterals(w, name[k..]);
    }
    if |w| <= |name| && name[|name| - |w|..] == w {
      assert MatchTokens(Literals(w), name[|name| - |w|..]);
    }
  }

  /** A lone `*` token matches every string. */
  lemma {:induction false} StarMatchesAnything(s: string)
    ensures MatchTokens([Star], s)
    decreases |s|
  {
    assert [Star][1..] == [];
    if s != [] {
      StarMatchesAnything(s[1..]);
    }
  }

  /** A lone `*` matches every name. */
  lemma StarMatchesEverything(name: string)
    ensures Matches("*", name)
  {
    assert Tokenize("*", 1) == [];
    assert Tokenize("*", 0) == [Star];
    StarMatchesAnything(name);
  }
}
