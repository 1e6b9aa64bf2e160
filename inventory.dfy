/** The remote inventory the files phase downloads: the recursive FTP and SFTP
    listings (a pre-order sequence of `(path, isDir)` pairs) and the glob
    filter applied to it before the download loop. */
module Inventory {
  import opened Seqs
  import opened Text
  import opened Paths
  import opened Glob
  import opened FtpList

  /** One listed item: its remote path and whether it is a directory. */
  datatype Entry = Entry(path: string, isDir: bool)


  /** `os.path.join(dir, name).replace('\\', '/')`. */
  function ChildPath(dir: string, name: string): string
  {
    ReplaceBackslashes(Join(dir, name))
  }

  /** The items a listing call at `dir` returns. `depth` is how many nested
      calls the interpreter's stack still allows: a nested call beyond it
      raises in the calling frame. There the FTP listing's handler returns
      the items collected so far, the directory entry included. The SFTP
      listing's per-item handler instead keeps the directory entry and goes
      on with the next item. */
  function Scan(r: Remote, dir: string, depth: nat): seq<Entry>
    decreases depth, 2, 0
  {
    match Children(r, dir)
    case None => []
    case Some(children) => ScanChildren(r, dir, children, depth)
  }

  /** The items collected from the remaining raw items `cs` of `dir`. */
  function ScanChildren(r: Remote, dir: string, cs: seq<Option<Listed>>, depth: nat): seq<Entry>
    decreases depth, 1, |cs|
  {
    if cs == [] then []
    else match cs[0]
      case None => ScanChildren(r, dir, cs[1..], depth)
      case Some(c) =>
        ItemEntries(r, dir, c, depth) + (if EndsListing(r, c, depth) then [] else ScanChildren(r, dir, cs[1..], depth))
  }

  /** Whether descending into `c` is the nested call that overflows. */
  predicate TooDeep(c: Listed, depth: nat)
  {
    c.isDir && depth == 0
  }

  /** Whether that overflow ends the whole listing of the directory. It does
      for FTP, whose nested call sits in the outer `try`. For SFTP the nested
      call sits in the per-item `try`, whose handler continues the loop. */
  predicate EndsListing(r: Remote, c: Listed, depth: nat)
  {
    r.Ftp? && TooDeep(c, depth)
  }

  /** The items one listed name contributes: its own entry and, for a
      directory, everything under it immediately after. */
  function ItemEntries(r: Remote, dir: string, c: Listed, depth: nat): seq<Entry>
    decreases depth, 0, 0
  {
    var p := ChildPath(dir, c.name);
    if !c.isDir || depth == 0 then [Entry(p, c.isDir)]
    else [Entry(p, true)] + Scan(r, p, depth - 1)
  }

  // One step of `ScanChildren`, phrased as the loop invariant
  // `done + ScanChildren(r, dir, rest, depth) == whole` of a loop that walks
  // the raw items of a directory.

  lemma StepSkipped(r: Remote, dir: string, cs: seq<Option<Listed>>, depth: nat,
                    done: seq<Entry>, whole: seq<Entry>)
    requires done + ScanChildren(r, dir, [None] + cs, depth) == whole
    ensures done + ScanChildren(r, dir, cs, depth) == whole
  {
    assert ([None] + cs)[1..] == cs;
  }

  lemma StepListed(r: Remote, dir: string, c: Listed, cs: seq<Option<Listed>>, depth: nat,
                   done: seq<Entry>, got: seq<Entry>, whole: seq<Entry>)
    requires got == ItemEntries(r, dir, c, depth)
    requires done + ScanChildren(r, dir, [Some(c)] + cs, depth) == whole
    ensures EndsListing(r, c, depth) ==> done + got == whole
    ensures !EndsListing(r, c, depth) ==> (done + got) + ScanChildren(r, dir, cs, depth) == whole
  {
    assert ([Some(c)] + cs)[1..] == cs;
  }

  // ---------------------------------------------------------------- FTP

  /** The FTP server as seen through `LIST <path>`: the reply lines, or
      `None` when `retrlines` raised. */
  type FtpServer = string -> Option<seq<string>>

  function ParsedLines(lines: seq<string>): (r: seq<Option<Listed>>)
    ensures |r| == |lines|
    ensures forall i :: 0 <= i < |lines| ==> r[i] == ParseListLine(lines[i])
  {
    seq(|lines|, i requires 0 <= i < |lines| => ParseListLine(lines[i]))
  }

  function FtpChildren(ftp: FtpServer, dir: string): Option<seq<Option<Listed>>>
  {
    match ftp(dir)
    case None => None
    case Some(lines) => Some(ParsedLines(lines))
  }


  /** `_ftp_list_recursive(ftp, path)`. */
  method FtpListRecursive(ftp: FtpServer, path: string, depth: nat) returns (items: seq<Entry>)
    ensures items == Scan(Ftp(ftp), path, depth)
    decreases depth, 1
  {
    items := [];
    var reply := ftp(path);
    if reply.None? {
      return;
    }
    var lines := reply.value;
    ghost var r := Ftp(ftp);
    ghost var cs := ParsedLines(lines);
    assert Children(r, path) == Some(cs);
    assert cs[0..] == cs;
    var i := 0;
    while i < |lines|
      invariant 0 <= i <= |lines|
      invariant items + ScanChildren(r, path, cs[i..], depth) == Scan(r, path, depth)
    {
      var parsed := ParseListLine(lines[i]);
      ghost var more := cs[i + 1..];
      assert cs[i..] == [parsed] + more;
      if parsed.Some? {
        var c := parsed.value;
        var got := FtpVisit(ftp, path, c, depth);
        StepListed(r, path, c, more, depth, items, got, Scan(r, path, depth));
        items := items + got;
        if TooDeep(c, depth) {
          return;
        }
        assert items + ScanChildren(r, path, more, depth) == Scan(r, path, depth);
      } else {
        StepSkipped(r, path, more, depth, items, Scan(r, path, depth));
      }
      assert more == cs[i + 1..];
      i := i + 1;
    }
    assert cs[i..] == [];
  }

  /** The body of the listing loop for one parsed item: its entry, and for a
      directory the recursive listing below it. */
  method FtpVisit(ftp: FtpServer, path: string, c: Listed, depth: nat) returns (got: seq<Entry>)
    ensures got == ItemEntries(Ftp(ftp), path, c, depth)
    decreases depth, 0
  {
    var fullPath := ChildPath(path, c.name);
    if !c.isDir {
      got := [Entry(fullPath, false)];
    } else if depth == 0 {
      // the nested call would overflow the stack; the handler of this
      // call returns what it has
      got := [Entry(fullPath, true)];
    } else {
      var sub := FtpListRecursive(ftp, fullPath, depth - 1);
      got := [Entry(fullPath, true)] + sub;
    }
  }

  // ---------------------------------------------------------------- SFTP

  /** The SFTP server: `listdir` (`None` when it raised) and the `st_mode`
      that `stat` reports for a path (`None` when `stat` raised or the mode
      bit test could not be made). */
  datatype SftpServer = SftpServer(listdir: string -> Option<seq<string>>, stat: string -> Option<nat>)

  /** `st_mode & 0o40000` is non-zero. */
  predicate IsDirMode(mode: nat)
  {
    (mode / 0x4000) % 2 == 1
  }

  function StatChild(sftp: SftpServer, dir: string, name: string): Option<Listed>
  {
    match sftp.stat(ChildPath(dir, name))
    case None => None
    case Some(mode) => Some(Listed(name, IsDirMode(mode)))
  }

  function StatNames(sftp: SftpServer, dir: string, names: seq<string>): (r: seq<Option<Listed>>)
    ensures |r| == |names|
    ensures forall i :: 0 <= i < |names| ==> r[i] == StatChild(sftp, dir, names[i])
  {
    seq(|names|, i requires 0 <= i < |names| => StatChild(sftp, dir, names[i]))
  }

  function SftpChildren(sftp: SftpServer, dir: string): Option<seq<Option<Listed>>>
  {
    match sftp.listdir(dir)
    case None => None
    case Some(names) => Some(StatNames(sftp, dir, names))
  }

  /** The server a backup lists, by protocol. */
  datatype Remote = Ftp(ftp: FtpServer) | Sftp(sftp: SftpServer)

  /** What listing one directory yields: `None` when the listing itself
      raised, otherwise one slot per raw item, `None` for an item that is
      skipped, `Some` for a name with its directory flag. */
  function Children(r: Remote, dir: string): Option<seq<Option<Listed>>>
  {
    match r
    case Ftp(ftp) => FtpChildren(ftp, dir)
    case Sftp(sftp) => SftpChildren(sftp, dir)
  }

  /** `_sftp_list_recursive(sftp, path)`. */
  method SftpListRecursive(sftp: SftpServer, path: string, depth: nat) returns (items: seq<Entry>)
    ensures items == Scan(Sftp(sftp), path, depth)
    decreases depth, 1
  {
    items := [];
    var listing := sftp.listdir(path);
    if listing.None? {
      return;
    }
    var names := listing.value;
    ghost var r := Sftp(sftp);
    ghost var cs := StatNames(sftp, path, names);
    assert Children(r, path) == Some(cs);
    assert cs[0..] == cs;
    var i := 0;
    while i < |names|
      invariant 0 <= i <= |names|
      invariant items + ScanChildren(r, path, cs[i..], depth) == Scan(r, path, depth)
    {
      // `stat` of the joined path, and the mode bit test
      var stated := StatChild(sftp, path, names[i]);
      ghost var more := cs[i + 1..];
      assert cs[i..] == [stated] + more;
      if stated.Some? {
        var c := stated.value;
        var got := SftpVisit(sftp, path, c, depth);
        assert !EndsListing(r, c, depth);
        StepListed(r, path, c, more, depth, items, got, Scan(r, path, depth));
        // a nested call that overflowed was caught by the per-item handler:
        // the directory's entry stays and the loop goes on
        items := items + got;
        assert items + ScanChildren(r, path, more, depth) == Scan(r, path, depth);
      } else {
        // `stat` raised: the item is skipped
        StepSkipped(r, path, more, depth, items, Scan(r, path, depth));
      }
      assert more == cs[i + 1..];
      i := i + 1;
    }
    assert cs[i..] == [];
  }

  /** The body of the SFTP listing loop for one item whose `stat` succeeded. */
  method SftpVisit(sftp: SftpServer, path: string, c: Listed, depth: nat) returns (got: seq<Entry>)
    ensures got == ItemEntries(Sftp(sftp), path, c, depth)
    decreases depth, 0
  {
    var fullPath := ChildPath(path, c.name);
    if !c.isDir {
      got := [Entry(fullPath, false)];
    } else if depth == 0 {
      got := [Entry(fullPath, true)];
    } else {
      var sub := SftpListRecursive(sftp, fullPath, depth - 1);
      got := [Entry(fullPath, true)] + sub;
    }
  }

  // ---------------------------------------------------------------- properties

  /** A name as servers list it: non-empty, without either separator. */
  predicate CleanName(n: string)
  {
    n != [] && NoSlash(n) && forall i :: 0 <= i < |n| ==> n[i] != '\\'
  }

  predicate CleanNames(cs: seq<Option<Listed>>)
  {
    forall k :: 0 <= k < |cs| && cs[k].Some? ==> CleanName(cs[k].value.name)
  }

  /** Every directory listing of the server yields clean names. */
  ghost predicate CleanRemote(r: Remote)
  {
    forall d :: Children(r, d).Some? ==> CleanNames(Children(r, d).value)
  }

  /** A directory a listing can start from or descend into: the FTP root
      `""`, or a path without a trailing separator or a backslash. */
  predicate GoodDir(d: string)
  {
    d == [] || (!EndsWithSlash(d) && forall i :: 0 <= i < |d| ==> d[i] != '\\')
  }

  lemma ChildPathOfClean(d: string, n: string)
    requires GoodDir(d) && CleanName(n)
    ensures Dirname(ChildPath(d, n)) == d
    ensures GoodDir(ChildPath(d, n)) && ChildPath(d, n) != []
  {
    var j := Join(d, n);
    assert n[0] != '/';
    assert forall i :: 0 <= i < |j| ==> j[i] != '\\' by {
      if d == [] {
        assert j == n;
      } else {
        assert j == d + "/" + n;
        forall i | 0 <= i < |j| ensures j[i] != '\\' {
          if i < |d| { assert j[i] == d[i]; }
          else if i > |d| { assert j[i] == n[i - |d| - 1]; }
        }
      }
    }
    assert ReplaceBackslashes(j) == j;
    assert j[|j| - 1] == n[|n| - 1];
    if d == [] {
      assert j == n;
      assert LastSlash(n) == -1;
      assert n[..0] == [];
    } else {
      DirnameOfJoin(d, n);
    }
  }

  /** A symbolic link in an FTP `LIST` reply is read with its arrow and
      target as part of the name. */
  lemma SymlinkNameKeepsTarget()
    ensures ParseListLine(JoinWith(SymlinkFields, " ")) == Some(Listed("www -> /var/www", false))
  {
    var fields := SymlinkFields;
    assert AreFields(fields) by {
      forall i | 0 <= i < |fields| ensures fields[i] != [] && NoSpace(fields[i]) {
        assert fields[i] in SymlinkFields;
      }
    }
    assert JoinWith(fields[10..], " ") == "/var/www";
    assert JoinWith(fields[9..], " ") == "-> /var/www";
    assert JoinWith(fields[8..], " ") == "www -> /var/www";
    ParseWellFormedLine(fields);
  }

  /** That name holds a separator, so it is not clean, and its entry's
      parent is neither the listing root nor a listed directory. */
  lemma SymlinkNameNotClean()
    ensures !CleanName("www -> /var/www")
    ensures Dirname(ChildPath("", "www -> /var/www")) == "www -> /var"
  {
    var p := ChildPath("", "www -> /var/www");
    SymlinkPathUnchanged();
    assert p[11] == '/';
    assert LastSlash(p) == 11;
    var head := p[..12];
    assert head[0] != '/';
    assert head[..11] == "www -> /var" && head[10] != '/';
    assert StripTrailingSlashes(head) == StripTrailingSlashes(head[..11]) == "www -> /var";
  }

  /** The symbolic link's name holds no backslash, so its path is the name. */
  lemma SymlinkPathUnchanged()
    ensures ChildPath("", "www -> /var/www") == "www -> /var/www"
  {
    var n := "www -> /var/www";
    assert Join("", n) == n;
    assert forall i :: 0 <= i < |n| ==> n[i] != '\\';
  }

  /** The fields of `lrwxrwxrwx 1 u g 9 Jan 1 00:00 www -> /var/www`. */
  const SymlinkFields: seq<string> := ["lrwxrwxrwx", "1", "u", "g", "9", "Jan", "1", "00:00", "www", "->", "/var/www"]

  /** Every entry's parent directory is the root of the listing or a
      directory entry that comes earlier. */
  predicate ParentsPrecede(items: seq<Entry>, root: string)
  {
    forall j :: 0 <= j < |items| ==>
      Dirname(items[j].path) == root || Entry(Dirname(items[j].path), true) in items[..j]
  }

  lemma PrecedeAppend(a: seq<Entry>, b: seq<Entry>, root: string)
    requires ParentsPrecede(a, root) && ParentsPrecede(b, root)
    ensures ParentsPrecede(a + b, root)
  {
    var ab := a + b;
    forall j | 0 <= j < |ab| && Dirname(ab[j].path) != root
      ensures Entry(Dirname(ab[j].path), true) in ab[..j]
    {
      var e := Entry(Dirname(ab[j].path), true);
      if j < |a| {
        assert ab[j] == a[j];
        assert e in a[..j];
        var m :| 0 <= m < j && a[..j][m] == e;
        assert ab[..j][m] == e;
      } else {
        var k := j - |a|;
        assert ab[j] == b[k];
        assert e in b[..k];
        var m :| 0 <= m < k && b[..k][m] == e;
        assert ab[..j][|a| + m] == e;
      }
    }
  }

  lemma PrecedeNest(p: string, sub: seq<Entry>, root: string)
    requires Dirname(p) == root && ParentsPrecede(sub, p)
    ensures ParentsPrecede([Entry(p, true)] + sub, root)
  {
    var all := [Entry(p, true)] + sub;
    forall j | 0 < j < |all| && Dirname(all[j].path) != root
      ensures Entry(Dirname(all[j].path), true) in all[..j]
    {
      assert all[j] == sub[j - 1];
      assert all[..j] == [Entry(p, true)] + sub[..j - 1];
      assert all[..j][0] == Entry(p, true);
    }
  }

  /** Pre-order: a directory entry precedes everything listed under it, so
      every entry's parent directory is already present when it appears. */
  lemma {:induction false} ScanParentsPrecede(r: Remote, dir: string, depth: nat)
    requires CleanRemote(r) && GoodDir(dir)
    ensures ParentsPrecede(Scan(r, dir, depth), dir)
    decreases depth, 2, 0
  {
    match Children(r, dir)
    case None =>
    case Some(cs) => ChildrenParentsPrecede(r, dir, cs, depth);
  }

  lemma {:induction false} ChildrenParentsPrecede(r: Remote, dir: string, cs: seq<Option<Listed>>, depth: nat)
    requires CleanRemote(r) && GoodDir(dir) && CleanNames(cs)
    ensures ParentsPrecede(ScanChildren(r, dir, cs, depth), dir)
    decreases depth, 1, |cs|
  {
    if cs != [] {
      assert CleanNames(cs[1..]) by {
        forall k | 0 <= k < |cs[1..]| ensures cs[1..][k] == cs[k + 1] { }
      }
      match cs[0]
      case None => ChildrenParentsPrecede(r, dir, cs[1..], depth);
      case Some(c) =>
        ItemParentsPrecede(r, dir, c, depth);
        if !EndsListing(r, c, depth) {
          ChildrenParentsPrecede(r, dir, cs[1..], depth);
          PrecedeAppend(ItemEntries(r, dir, c, depth), ScanChildren(r, dir, cs[1..], depth), dir);
        } else {
          assert ItemEntries(r, dir, c, depth) + [] == ItemEntries(r, dir, c, depth);
        }
    }
  }

  lemma {:induction false} ItemParentsPrecede(r: Remote, dir: string, c: Listed, depth: nat)
    requires CleanRemote(r) && GoodDir(dir) && CleanName(c.name)
    ensures ParentsPrecede(ItemEntries(r, dir, c, depth), dir)
    decreases depth, 0, 0
  {
    var p := ChildPath(dir, c.name);
    ChildPathOfClean(dir, c.name);
    if c.isDir && depth > 0 {
      ScanParentsPrecede(r, p, depth - 1);
      PrecedeNest(p, Scan(r, p, depth - 1), dir);
    }
  }

  /** Every name `r` lists satisfies `q` at the path it is given. */
  ghost predicate ChildrenSatisfy(r: Remote, q: (string, bool) -> bool)
  {
    forall d :: Children(r, d).Some? ==> NamesSatisfy(d, Children(r, d).value, q)
  }

  predicate NamesSatisfy(dir: string, cs: seq<Option<Listed>>, q: (string, bool) -> bool)
  {
    forall k :: 0 <= k < |cs| && cs[k].Some? ==> q(ChildPath(dir, cs[k].value.name), cs[k].value.isDir)
  }

  predicate EntriesSatisfy(items: seq<Entry>, q: (string, bool) -> bool)
  {
    forall k :: 0 <= k < |items| ==> q(items[k].path, items[k].isDir)
  }

  lemma {:induction false} ScanSatisfies(r: Remote, q: (string, bool) -> bool, dir: string, depth: nat)
    requires ChildrenSatisfy(r, q)
    ensures EntriesSatisfy(Scan(r, dir, depth), q)
    decreases depth, 2, 0
  {
    match Children(r, dir)
    case None =>
    case Some(cs) => ChildrenSatisfyScan(r, q, dir, cs, depth);
  }

  lemma {:induction false} ChildrenSatisfyScan(r: Remote, q: (string, bool) -> bool, dir: string,
                                               cs: seq<Option<Listed>>, depth: nat)
    requires ChildrenSatisfy(r, q) && NamesSatisfy(dir, cs, q)
    ensures EntriesSatisfy(ScanChildren(r, dir, cs, depth), q)
    decreases depth, 1, |cs|
  {
    if cs != [] {
      assert NamesSatisfy(dir, cs[1..], q) by {
        forall k | 0 <= k < |cs[1..]| ensures cs[1..][k] == cs[k + 1] { }
      }
      match cs[0]
      case None => ChildrenSatisfyScan(r, q, dir, cs[1..], depth);
      case Some(c) =>
        var p := ChildPath(dir, c.name);
        var head := ItemEntries(r, dir, c, depth);
        if c.isDir && depth > 0 {
          ScanSatisfies(r, q, p, depth - 1);
          assert head == [Entry(p, true)] + Scan(r, p, depth - 1);
        }
        assert EntriesSatisfy(head, q) by {
          forall k | 0 <= k < |head| ensures q(head[k].path, head[k].isDir) {
            if k == 0 { assert head[0] == Entry(p, c.isDir); }
          }
        }
        if !EndsListing(r, c, depth) {
          ChildrenSatisfyScan(r, q, dir, cs[1..], depth);
          var tail := ScanChildren(r, dir, cs[1..], depth);
          forall k | 0 <= k < |head + tail| ensures q((head + tail)[k].path, (head + tail)[k].isDir) {
            if k >= |head| { assert (head + tail)[k] == tail[k - |head|]; }
          }
        } else {
          assert head + [] == head;
        }
    }
  }

  /** What `stat` reported for a path: it succeeded and its mode bit agrees
      with the directory flag. */
  function StatAgrees(sftp: SftpServer): (string, bool) -> bool
  {
    (p, isDir) => sftp.stat(p).Some? && isDir == IsDirMode(sftp.stat(p).value)
  }

  /** An SFTP listing holds only items whose `stat` succeeded, each flagged
      as a directory exactly when its mode has the directory bit: an item
      whose `stat` raises is dropped and the scan carries on. */
  lemma SftpEntriesStated(sftp: SftpServer, dir: string, depth: nat)
    ensures EntriesSatisfy(Scan(Sftp(sftp), dir, depth), StatAgrees(sftp))
  {
    var r, q := Sftp(sftp), StatAgrees(sftp);
    forall d | Children(r, d).Some? ensures NamesSatisfy(d, Children(r, d).value, q) {
      var names := sftp.listdir(d).value;
      var cs := StatNames(sftp, d, names);
      assert Children(r, d).value == cs;
      forall k | 0 <= k < |cs| && cs[k].Some?
        ensures q(ChildPath(d, cs[k].value.name), cs[k].value.isDir)
      {
        assert cs[k] == StatChild(sftp, d, names[k]);
      }
    }
    ScanSatisfies(r, q, dir, depth);
  }

  /** When the stack allows no further nesting, an FTP listing returns the
      files before its first directory, then that directory's entry, and
      nothing after: what was collected before the failing nested call is
      kept. */
  lemma {:induction false} CollectedKeptWhenTooDeep(ftp: FtpServer, dir: string, before: seq<Option<Listed>>,
                                                    c: Listed, after: seq<Option<Listed>>)
    requires c.isDir
    requires forall k :: 0 <= k < |before| && before[k].Some? ==> !before[k].value.isDir
    ensures ScanChildren(Ftp(ftp), dir, before + [Some(c)] + after, 0) ==
            ScanChildren(Ftp(ftp), dir, before, 0) + [Entry(ChildPath(dir, c.name), true)]
    decreases |before|
  {
    var r := Ftp(ftp);
    var cs := before + [Some(c)] + after;
    if before == [] {
      assert cs == [Some(c)] + after;
      assert cs[1..] == after;
    } else {
      assert cs[0] == before[0];
      assert cs[1..] == before[1..] + [Some(c)] + after;
      CollectedKeptWhenTooDeep(ftp, dir, before[1..], c, after);
      match before[0]
      case None =>
      case Some(b) =>
        assert !b.isDir;
        assert ItemEntries(r, dir, b, 0) == [Entry(ChildPath(dir, b.name), false)];
    }
  }

  /** The entry a listed item gets when nothing is listed below it. */
  function ShallowEntry(dir: string, c: Listed): Entry
  {
    Entry(ChildPath(dir, c.name), c.isDir)
  }

  /** When the stack allows no further nesting, an SFTP listing still holds
      one entry per item whose `stat` succeeded. A directory's failing
      nested call is caught by the per-item handler, which keeps the
      directory's entry and goes on with its siblings. */
  lemma {:induction false} SftpTooDeepListsAll(sftp: SftpServer, dir: string, cs: seq<Option<Listed>>)
    ensures |ScanChildren(Sftp(sftp), dir, cs, 0)| == Count(cs, IsListed)
    ensures forall k :: 0 <= k < |cs| && cs[k].Some? ==> ShallowEntry(dir, cs[k].value) in ScanChildren(Sftp(sftp), dir, cs, 0)
    decreases |cs|
  {
    if cs != [] {
      var tail := cs[1..];
      SftpTooDeepListsAll(sftp, dir, tail);
      CountFront(cs, IsListed);
      SftpShallowStep(sftp, dir, cs);
      forall k | 0 <= k < |cs| && cs[k].Some? ensures ShallowEntry(dir, cs[k].value) in ScanChildren(Sftp(sftp), dir, cs, 0) {
        if k > 0 { assert cs[k] == tail[k - 1]; }
      }
    }
  }

  /** When the stack allows no further nesting, every entry of an SFTP
      listing is the entry of one of the directory's items. */
  lemma {:induction false} SftpTooDeepListsOnlyItems(sftp: SftpServer, dir: string, cs: seq<Option<Listed>>)
    ensures forall e :: e in ScanChildren(Sftp(sftp), dir, cs, 0) ==>
              exists k :: 0 <= k < |cs| && cs[k].Some? && e == ShallowEntry(dir, cs[k].value)
    decreases |cs|
  {
    if cs != [] {
      var tail := cs[1..];
      SftpTooDeepListsOnlyItems(sftp, dir, tail);
      SftpShallowStep(sftp, dir, cs);
      var head := if cs[0].Some? then [ShallowEntry(dir, cs[0].value)] else [];
      forall e | e in ScanChildren(Sftp(sftp), dir, cs, 0)
        ensures exists k :: 0 <= k < |cs| && cs[k].Some? && e == ShallowEntry(dir, cs[k].value)
      {
        if e in head {
          assert cs[0].Some? && e == ShallowEntry(dir, cs[0].value);
        } else {
          assert e in ScanChildren(Sftp(sftp), dir, tail, 0);
          var k :| 0 <= k < |tail| && tail[k].Some? && e == ShallowEntry(dir, tail[k].value);
          assert cs[k + 1] == tail[k];
        }
      }
    }
  }

  /** One item of an SFTP listing whose nested calls all overflow. */
  lemma SftpShallowStep(sftp: SftpServer, dir: string, cs: seq<Option<Listed>>)
    requires cs != []
    ensures ScanChildren(Sftp(sftp), dir, cs, 0) ==
              (if cs[0].Some? then [ShallowEntry(dir, cs[0].value)] else []) + ScanChildren(Sftp(sftp), dir, cs[1..], 0)
  {
    match cs[0] {
      case None =>
      case Some(c) =>
        assert ItemEntries(Sftp(sftp), dir, c, 0) == [ShallowEntry(dir, c)];
        assert !EndsListing(Sftp(sftp), c, 0);
    }
  }

  predicate IsListed(o: Option<Listed>)
  {
    o.Some?
  }

  // ---------------------------------------------------------------- filter

  /** A file is kept when its base name matches the pattern; directories
      are always kept. */
  predicate Kept(pattern: string, e: Entry)
  {
    e.isDir || Matches(pattern, Basename(e.path))
  }

  function KeptBy(pattern: string): Entry -> bool
  {
    e => Kept(pattern, e)
  }

  /** `_filter_items(items, file_filter)`: `'*.*'` and the empty pattern
      keep the listing as it is; any other pattern keeps the directories and
      the files whose base name glob-matches it, in listing order. */
  function FilterItems(items: seq<Entry>, pattern: string): (r: seq<Entry>)
    ensures |r| <= |items|
  {
    if pattern == "*.*" || pattern == "" then items
    else Filter(items, KeptBy(pattern))
  }

  /** Any other pattern keeps exactly the directories and the matching files. */
  lemma FilterItemsKeeps(items: seq<Entry>, pattern: string)
    requires pattern != "*.*" && pattern != ""
    ensures forall e :: e in FilterItems(items, pattern) <==> e in items && Kept(pattern, e)
  {
    var r := FilterItems(items, pattern);
    forall e | e in r ensures e in items && Kept(pattern, e) {
      var k :| 0 <= k < |r| && r[k] == e;
    }
    forall e | e in items && Kept(pattern, e) ensures e in r {
      var k :| 0 <= k < |items| && items[k] == e;
    }
  }

  /** The filter only deletes entries; it never reorders or invents them. */
  lemma FilterItemsIsSubsequence(items: seq<Entry>, pattern: string)
    ensures IsSubsequence(FilterItems(items, pattern), items)
  {
    if pattern == "*.*" || pattern == "" {
      SubsequenceOfItself(items);
    } else {
      FilterIsSubsequence(items, KeptBy(pattern));
    }
  }

  /** Directories survive every pattern, so the download loop can create
      every directory of the tree. */
  lemma FilterItemsKeepsDirectories(items: seq<Entry>, pattern: string)
    ensures forall k :: 0 <= k < |items| && items[k].isDir ==> items[k] in FilterItems(items, pattern)
  {
    if pattern != "*.*" && pattern != "" {
      FilterItemsKeeps(items, pattern);
    }
  }

  /** `*.*` keeps a file without a dot in its name although, as a glob, it
      matches only names containing a dot. */
  lemma StarDotStarKeepsEveryFile(items: seq<Entry>)
    ensures FilterItems(items, "*.*") == items
    ensures forall name :: Matches("*.*", name) <==> '.' in name
  {
    forall name ensures Matches("*.*", name) <==> '.' in name {
      StarDotStarMatches(name);
    }
  }

  lemma StarDotStarMatches(name: string)
    ensures Matches("*.*", name) <==> '.' in name
  {
    var p := "*.*";
    assert Tokenize(p, 2) == [Star] + Tokenize(p, 3);
    assert Tokenize(p, 1) == [Literal('.')] + Tokenize(p, 2);
    var dotStar := [Literal('.'), Star];
    assert Tokenize(p, 0) == [Star] + dotStar;
    MatchStar(dotStar, name);
    if '.' in name {
      var k :| 0 <= k < |name| && name[k] == '.';
      var s := name[k..];
      assert dotStar[1..] == [Star];
      StarMatchesAnything(s[1..]);
      assert MatchTokens(dotStar, s);
    } else {
      forall k | 0 <= k <= |name| ensures !MatchTokens(dotStar, name[k..]) {
        if k < |name| { assert name[k..][0] == name[k]; }
      }
    }
  }
}
