/** POSIX path manipulation as Python's `posixpath` performs it: `join` of two
    components, `basename`, `dirname`, and the two clean-ups the backup code
    applies to remote paths (`replace('\\', '/')` and `lstrip('/\\')`). */
module Paths {

  predicate NoSlash(s: string)
  {
    forall i :: 0 <= i < |s| ==> s[i] != '/'
  }

  predicate EndsWithSlash(s: string)
  {
    s != [] && s[|s| - 1] == '/'
  }

  /** `os.path.join(a, b)`: an absolute `b` replaces `a`; otherwise a
      separator is inserted unless `a` is empty or already ends with one. */
  function Join(a: string, b: string): string
  {
    if b != [] && b[0] == '/' then b
    else if a == [] || EndsWithSlash(a) then a + b
    else a + "/" + b
  }

  /** Index of the last `/` in `p`, or -1 (`str.rfind('/')`). */
  function LastSlash(p: string): (k: int)
    ensures -1 <= k < |p|
    ensures k >= 0 ==> p[k] == '/'
    ensures forall j :: k < j < |p| ==> p[j] != '/'
    decreases |p|
  {
    if p == [] then -1
    else if p[|p| - 1] == '/' then |p| - 1
    else LastSlash(p[..|p| - 1])
  }

  /** `os.path.basename(p)`: everything after the last separator. */
  function Basename(p: string): string
  {
    p[LastSlash(p) + 1..]
  }

  predicate AllSlashes(s: string)
  {
    forall i :: 0 <= i < |s| ==> s[i] == '/'
  }

  /** `s.rstrip('/')`. */
  function StripTrailingSlashes(s: string): (r: string)
    ensures |r| <= |s| && r == s[..|r|]
    ensures !EndsWithSlash(r)
    decreases |s|
  {
    if EndsWithSlash(s) then StripTrailingSlashes(s[..|s| - 1]) else s
  }

  /** `os.path.dirname(p)`: everything up to the last separator, with
      trailing separators removed unless the head consists only of them. */
  function Dirname(p: string): string
  {
    var head := p[..LastSlash(p) + 1];
    if head != [] && !AllSlashes(head) then StripTrailingSlashes(head) else head
  }

  /** `s.replace('\\', '/')`. */
  function ReplaceBackslashes(s: string): string
  {
    seq(|s|, i requires 0 <= i < |s| => if s[i] == '\\' then '/' else s[i])
  }

  /** `s.lstrip('/\\')`. */
  function StripLeadingSeparators(s: string): (r: string)
    ensures |r| <= |s| && r == s[|s| - |r|..]
    ensures r == [] || (r[0] != '/' && r[0] != '\\')
    decreases |s|
  {
    if s != [] && (s[0] == '/' || s[0] == '\\') then StripLeadingSeparators(s[1..]) else s
  }

  /** Joining a separator-free name and taking the base name returns the name. */
  lemma BasenameOfJoin(a: string, n: string)
    requires NoSlash(n)
    ensures Basename(Join(a, n)) == n
  {
    if n != [] { assert n[0] != '/'; }
    var p := Join(a, n);
    var k := LastSlash(p);
    var sep := |p| - |n| - 1;
    assert p[sep + 1..] == n;
    forall j | sep < j < |p| ensures p[j] != '/' {
      assert p[j] == n[j - sep - 1];
    }
    if a == [] {
      assert p == n;
      assert k == -1;
    } else {
      if EndsWithSlash(a) {
        assert p == a + n;
      } else {
        assert p == (a + "/") + n;
      }
      assert p[sep] == '/';
      assert k == sep;
    }
  }

  /** ... and taking the directory name returns the directory it was joined
      onto, when that is a non-empty path without a trailing separator. */
  lemma DirnameOfJoin(a: string, n: string)
    requires NoSlash(n)
    requires a != [] && !EndsWithSlash(a)
    ensures Dirname(Join(a, n)) == a
  {
    var p := Join(a, n);
    if n != [] { assert n[0] != '/'; }
    assert p == (a + "/") + n;
    assert p[|a|] == '/';
    var k := LastSlash(p);
    assert k == |a|;
    var head := p[..k + 1];
    assert head == a + "/";
    assert head[|head| - 1] == '/';
    assert head[|a| - 1] != '/';
    assert !AllSlashes(head);
    assert EndsWithSlash(head);
    assert head[..|head| - 1] == a;
    assert StripTrailingSlashes(head) == StripTrailingSlashes(a) == a;
  }
}
