/** String helpers the backup model needs: Python's argument-less
    `str.split()` and `' '.join`, `str.lower()` on ASCII letters, the `in`
    substring test, and the decimal rendering used by f-strings for naturals. */
module Text {

  /** Characters for which Python's `str.isspace()` holds (the separators of
      an argument-less `str.split()`). */
  predicate IsSpace(c: char)
  {
    || c == ' '
    || ('\t' <= c <= '\r')
    || ('\U{1C}' <= c <= '\U{1F}')
    || c == '\U{85}' || c == '\U{A0}' || c == '\U{1680}'
    || ('\U{2000}' <= c <= '\U{200A}')
    || c == '\U{2028}' || c == '\U{2029}' || c == '\U{202F}'
    || c == '\U{205F}' || c == '\U{3000}'
  }

  predicate NoSpace(s: string)
  {
    forall i :: 0 <= i < |s| ==> !IsSpace(s[i])
  }

  /** What `Split` produces: non-empty strings without separators. */
  predicate AreFields(fields: seq<string>)
  {
    forall i :: 0 <= i < |fields| ==> fields[i] != [] && NoSpace(fields[i])
  }

  /** Length of the run of non-space characters that starts `s`. */
  function TokenLength(s: string): (n: nat)
    ensures n <= |s|
    ensures s != [] && !IsSpace(s[0]) ==> n >= 1
    decreases |s|
  {
    if s == [] || IsSpace(s[0]) then 0 else 1 + TokenLength(s[1..])
  }

  /** Python's `s.split()`: the maximal runs of non-space characters, in order. */
  function Split(s: string): (fields: seq<string>)
    decreases |s|
  {
    if s == [] then []
    else if IsSpace(s[0]) then Split(s[1..])
    else
      var n := TokenLength(s);
      [s[..n]] + Split(s[n..])
  }

  /** Python's `sep.join(parts)`. */
  function JoinWith(parts: seq<string>, sep: string): string
    decreases |parts|
  {
    if parts == [] then ""
    else if |parts| == 1 then parts[0]
    else parts[0] + sep + JoinWith(parts[1..], sep)
  }

  lemma {:induction false} TokenLengthOfField(f: string, rest: string)
    requires f != [] && NoSpace(f)
    requires rest == [] || IsSpace(rest[0])
    ensures TokenLength(f + rest) == |f|
    decreases |f|
  {
    var s := f + rest;
    assert s[0] == f[0] && !IsSpace(f[0]);
    if |f| > 1 {
      assert s[1..] == f[1..] + rest;
      assert NoSpace(f[1..]) by {
        forall i | 0 <= i < |f[1..]| ensures !IsSpace(f[1..][i]) {
          assert f[1..][i] == f[i + 1];
        }
      }
      TokenLengthOfField(f[1..], rest);
    } else {
      assert s[1..] == rest;
    }
  }

  /** A field followed by a separator (or nothing) splits off as one field. */
  lemma SplitAtField(f: string, rest: string)
    requires f != [] && NoSpace(f)
    requires rest == [] || IsSpace(rest[0])
    ensures Split(f + rest) == [f] + Split(rest)
  {
    var s := f + rest;
    TokenLengthOfField(f, rest);
    assert s[0] == f[0];
    assert s[..|f|] == f;
    assert s[|f|..] == rest;
  }

  /** Leading separators are skipped by the split. */
  lemma {:induction false} SplitSkipsSpaces(ws: string, more: string)
    requires forall i :: 0 <= i < |ws| ==> IsSpace(ws[i])
    ensures Split(ws + more) == Split(more)
    decreases |ws|
  {
    if ws != [] {
      assert (ws + more)[0] == ws[0];
      assert (ws + more)[1..] == ws[1..] + more;
      SplitSkipsSpaces(ws[1..], more);
    } else {
      assert ws + more == more;
    }
  }

  /** A single space before a string is skipped by the split. */
  lemma SplitAfterSpace(more: string)
    ensures Split(" " + more) == Split(more)
  {
    assert (" " + more)[1..] == more;
  }

  /** Splitting fields joined by single spaces, followed by anything that
      starts at a separator, gives the fields back and then the fields of
      the rest: the round trip behind reading a name out of a `LIST` line. */
  lemma {:induction false} SplitJoinRoundTrip(fields: seq<string>, tail: string)
    requires AreFields(fields)
    requires tail == [] || IsSpace(tail[0])
    ensures Split(JoinWith(fields, " ") + tail) == fields + Split(tail)
    decreases |fields|
  {
    if fields == [] {
      assert JoinWith(fields, " ") + tail == tail;
    } else if |fields| == 1 {
      SplitAtField(fields[0], tail);
    } else {
      var f, rest := fields[0], fields[1..];
      assert fields == [f] + rest;
      assert AreFields(rest) by {
        forall i | 0 <= i < |rest| ensures rest[i] == fields[i + 1] { }
      }
      var more := JoinWith(rest, " ") + tail;
      calc {
        Split(JoinWith(fields, " ") + tail);
        { assert JoinWith(fields, " ") + tail == f + (" " + more); }
        Split(f + (" " + more));
        { SplitAtField(f, " " + more); }
        [f] + Split(" " + more);
        { SplitAfterSpace(more); }
        [f] + Split(more);
        { SplitJoinRoundTrip(rest, tail); }
        [f] + (rest + Split(tail));
        fields + Split(tail);
      }
    }
  }

  /** Python's `str.lower()` restricted to ASCII: upper-case Latin letters
      become lower-case, every other character is kept. */
  function LowerChar(c: char): char
  {
    if 'A' <= c <= 'Z' then (c as int - 'A' as int + 'a' as int) as char else c
  }

  function Lower(s: string): (r: string)
    ensures |r| == |s|
    ensures forall i :: 0 <= i < |s| ==> r[i] == LowerChar(s[i])
  {
    seq(|s|, i requires 0 <= i < |s| => LowerChar(s[i]))
  }

  /** `needle in hay` for strings. */
  predicate Contains(hay: string, needle: string)
    decreases |hay|
  {
    (|needle| <= |hay| && hay[..|needle|] == needle)
    || (hay != [] && Contains(hay[1..], needle))
  }

  /** Python's `str(n)` for a natural number: decimal digits, no leading zero. */
  function NatToString(n: nat): (s: string)
    ensures |s| >= 1
    ensures forall i :: 0 <= i < |s| ==> '0' <= s[i] <= '9'
    decreases n
  {
    if n < 10 then [('0' as int + n) as char]
    else NatToString(n / 10) + [('0' as int + n % 10) as char]
  }

  /** Reads a string of decimal digits back as a number. */
  function DigitsValue(s: string): nat
    requires forall i :: 0 <= i < |s| ==> '0' <= s[i] <= '9'
    decreases |s|
  {
    if s == [] then 0
    else DigitsValue(s[..|s| - 1]) * 10 + (s[|s| - 1] as int - '0' as int)
  }

  lemma {:induction false} NatToStringRoundTrip(n: nat)
    ensures DigitsValue(NatToString(n)) == n
    decreases n
  {
    if n >= 10 {
      NatToStringRoundTrip(n / 10);
      var s := NatToString(n);
      assert s[..|s| - 1] == NatToString(n / 10);
    }
  }

  /** Distinct numbers print differently. */
  lemma NatToStringInjective(a: nat, b: nat)
    requires NatToString(a) == NatToString(b)
    ensures a == b
  {
    NatToStringRoundTrip(a);
    NatToStringRoundTrip(b);
  }
}
