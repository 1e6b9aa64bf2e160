/** `ConfigManager`: the saved server list and the two ways of importing
    servers into it, from a plain JSON export and from a FileZilla site
    manager file. Reading, parsing, encryption and writing are not modelled:
    a parsed input file is a parameter, and the decrypted content of the
    server file is the field `stored`. */
module Config {
  import opened Seqs
  import opened Text
  import opened Databases

  /** One server record as the configuration stores it. */
  datatype Server = Server(
    name: string,
    host: string,
    port: string,
    protocol: string,
    username: string,
    password: string,
    webRoot: string,
    databases: seq<DbConfig>)

  /** An input file after reading and parsing: its content, or the text of
      the exception raised while reading or parsing it. */
  datatype Parsed<T> = Parsed(value: T) | Unreadable(error: string)

  /** One `Server` element of a FileZilla file: each child element that
      is present, with its text. */
  datatype XmlServer = XmlServer(
    name: Option<string>,
    host: Option<string>,
    port: Option<string>,
    user: Option<string>,
    pass: Option<string>,
    remoteDir: Option<string>)

  const NoFileZillaServers: string := "FileZilla dosyasında sunucu bulunamadı"

  function ImportError(error: string): string
  {
    "İçe aktarma hatası: " + error
  }

  function FileZillaError(error: string): string
  {
    "FileZilla içe aktarma hatası: " + error
  }

  function Imported(count: nat): string
  {
    NatToString(count) + " sunucu başarıyla içe aktarıldı"
  }

  function FileZillaImported(count: nat): string
  {
    "FileZilla'dan " + NatToString(count) + " sunucu içe aktarıldı"
  }

  predicate NoDuplicates<T(==)>(s: seq<T>)
  {
    forall i, j :: 0 <= i < j < |s| ==> s[i] != s[j]
  }

  // ---------------------------------------------------------------------
  // Importing a JSON export
  // ---------------------------------------------------------------------

  /** The list after appending, in order, every imported record not equal
      to a record already in it (including records appended before it). */
  function MergeNew(current: seq<Server>, imported: seq<Server>): seq<Server>
    decreases |imported|
  {
    if imported == [] then current
    else
      var before := MergeNew(current, imported[..|imported| - 1]);
      var s := imported[|imported| - 1];
      if s in before then before else before + [s]
  }

  /** The existing list is kept, unchanged, at the front. */
  lemma {:induction false} MergeKeepsPrefix(current: seq<Server>, imported: seq<Server>)
    ensures |current| <= |MergeNew(current, imported)|
    ensures MergeNew(current, imported)[..|current|] == current
    decreases |imported|
  {
    if imported != [] {
      MergeKeepsPrefix(current, imported[..|imported| - 1]);
      var before := MergeNew(current, imported[..|imported| - 1]);
      assert (before + [imported[|imported| - 1]])[..|current|] == before[..|current|];
    }
  }

  /** The result holds exactly the existing and the imported records. */
  lemma {:induction false} MergeMembers(current: seq<Server>, imported: seq<Server>)
    ensures forall s :: s in MergeNew(current, imported) <==> s in current || s in imported
    decreases |imported|
  {
    if imported != [] {
      var init := imported[..|imported| - 1];
      MergeMembers(current, init);
      assert imported == init + [imported[|imported| - 1]];
    }
  }

  /** No record is appended twice, nor when already present: a list without
      duplicates stays without duplicates. */
  lemma {:induction false} MergeNoDuplicates(current: seq<Server>, imported: seq<Server>)
    requires NoDuplicates(current)
    ensures NoDuplicates(MergeNew(current, imported))
    decreases |imported|
  {
    if imported != [] {
      MergeNoDuplicates(current, imported[..|imported| - 1]);
    }
  }

  /** Importing records that are all present already changes nothing. */
  lemma {:induction false} MergeAllPresent(current: seq<Server>, imported: seq<Server>)
    requires forall s :: s in imported ==> s in current
    ensures MergeNew(current, imported) == current
    decreases |imported|
  {
    if imported != [] {
      MergeAllPresent(current, imported[..|imported| - 1]);
      assert imported[|imported| - 1] in imported;
    }
  }

  /** Importing the same file twice gives the list the first import gave. */
  lemma MergeIdempotent(current: seq<Server>, imported: seq<Server>)
    ensures MergeNew(MergeNew(current, imported), imported) == MergeNew(current, imported)
  {
    MergeMembers(current, imported);
    MergeAllPresent(MergeNew(current, imported), imported);
  }

  // ---------------------------------------------------------------------
  // Importing a FileZilla file
  // ---------------------------------------------------------------------

  function OrElse(text: Option<string>, default: string): string
  {
    if text.Some? then text.value else default
  }

  /** The record built from one `Server` element, before renaming. */
  function FromXml(x: XmlServer): (r: Server)
    ensures r.protocol == "ftp" && r.databases == []
    ensures x.name.None? ==> r.name == "FileZilla_Server"
    ensures x.host.None? ==> r.host == ""
    ensures x.port.None? ==> r.port == "21"
    ensures x.user.None? ==> r.username == ""
    ensures x.pass.None? ==> r.password == ""
    ensures x.remoteDir.None? ==> r.webRoot == "/"
    ensures x.name.Some? ==> r.name == x.name.value
  {
    Server(OrElse(x.name, "FileZilla_Server"), OrElse(x.host, ""), OrElse(x.port, "21"), "ftp",
           OrElse(x.user, ""), OrElse(x.pass, ""), OrElse(x.remoteDir, "/"), [])
  }

  /** The `k`-th name tried: the original name first, then
      `<original>_1`, `<original>_2`, ... — always built from the original. */
  function Candidate(original: string, k: nat): string
  {
    if k == 0 then original else original + "_" + NatToString(k)
  }

  /** The names in a server list. */
  ghost function Names(servers: seq<Server>): (r: set<string>)
    ensures |r| <= |servers|
    ensures forall n :: n in r <==> exists i :: 0 <= i < |servers| && servers[i].name == n
    decreases |servers|
  {
    if servers == [] then {}
    else
      var init := servers[..|servers| - 1];
      assert forall i :: 0 <= i < |init| ==> init[i] == servers[i];
      Names(init) + {servers[|servers| - 1].name}
  }

  /** `any(s['name'] == name for s in current_servers)`. */
  predicate NameTaken(servers: seq<Server>, name: string)
  {
    exists i :: 0 <= i < |servers| && servers[i].name == name
  }

  /** Different suffixes give different names. */
  lemma CandidateInjective(original: string, j: nat, k: nat)
    requires j != k
    ensures Candidate(original, j) != Candidate(original, k)
  {
    if j != 0 && k != 0 && Candidate(original, j) == Candidate(original, k) {
      var n := |original| + 1;
      assert Candidate(original, j)[n..] == NatToString(j);
      assert Candidate(original, k)[n..] == NatToString(k);
      NatToStringInjective(j, k);
    }
  }

  /** A set holding the first `n` candidates has at least `n` elements. */
  lemma {:induction false} CandidatesBound(names: set<string>, original: string, n: nat)
    requires forall j :: 0 <= j < n ==> Candidate(original, j) in names
    ensures n <= |names|
    decreases n
  {
    if n > 0 {
      var last := Candidate(original, n - 1);
      var rest := names - {last};
      forall j | 0 <= j < n - 1
        ensures Candidate(original, j) in rest
      {
        CandidateInjective(original, j, n - 1);
      }
      CandidatesBound(rest, original, n - 1);
    }
  }

  /** The least suffix from `k` on whose candidate is free; the candidates
      before `k` are taken. There is one, and it is at most the number of
      names taken. */
  ghost function FirstFree(names: set<string>, original: string, k: nat): (r: nat)
    requires forall j :: 0 <= j < k ==> Candidate(original, j) in names
    ensures k <= r <= |names|
    ensures Candidate(original, r) !in names
    ensures forall j :: 0 <= j < r ==> Candidate(original, j) in names
    decreases |names| + 1 - k
  {
    CandidatesBound(names, original, k);
    if Candidate(original, k) !in names then k
    else FirstFree(names, original, k + 1)
  }

  /** The name an imported server receives in a list. */
  ghost function UniqueName(servers: seq<Server>, original: string): string
  {
    Candidate(original, FirstFree(Names(servers), original, 0))
  }

  /** The list after importing the elements one by one, each renamed
      against the list as it stands when it is appended. */
  ghost function ImportNamed(current: seq<Server>, elems: seq<XmlServer>): seq<Server>
    decreases |elems|
  {
    if elems == [] then current
    else
      var before := ImportNamed(current, elems[..|elems| - 1]);
      var s := FromXml(elems[|elems| - 1]);
      before + [s.(name := UniqueName(before, s.name))]
  }

  /** A free original name is kept as it is. */
  lemma FreeNameKept(servers: seq<Server>, original: string)
    requires !NameTaken(servers, original)
    ensures UniqueName(servers, original) == original
  {
  }

  /** A taken name becomes `<original>_k` for the least `k >= 1` that is
      free, and `k` is at most the length of the list. */
  lemma TakenNameSuffixed(servers: seq<Server>, original: string)
    requires NameTaken(servers, original)
    ensures exists k :: 1 <= k <= |servers| && UniqueName(servers, original) == original + "_" + NatToString(k)
                        && !NameTaken(servers, original + "_" + NatToString(k))
                        && forall j :: 1 <= j < k ==> NameTaken(servers, original + "_" + NatToString(j))
  {
    var names := Names(servers);
    var k := FirstFree(names, original, 0);
    assert Candidate(original, 0) in names;
    forall j | 1 <= j < k
      ensures NameTaken(servers, original + "_" + NatToString(j))
    {
      assert Candidate(original, j) in names;
    }
  }

  /** The imported records follow the existing list, one per element, each
      the element's record under a name no earlier record of the list has. */
  lemma {:induction false} ImportNamedAppends(current: seq<Server>, elems: seq<XmlServer>)
    ensures |ImportNamed(current, elems)| == |current| + |elems|
    ensures ImportNamed(current, elems)[..|current|] == current
    ensures forall k :: 0 <= k < |elems| ==>
      ImportNamed(current, elems)[|current| + k] == FromXml(elems[k]).(name := ImportNamed(current, elems)[|current| + k].name)
    ensures forall i, j :: 0 <= i < j < |ImportNamed(current, elems)| && |current| <= j ==>
      ImportNamed(current, elems)[i].name != ImportNamed(current, elems)[j].name
    decreases |elems|
  {
    if elems != [] {
      var init := elems[..|elems| - 1];
      ImportNamedAppends(current, init);
      var before := ImportNamed(current, init);
      var s := FromXml(elems[|elems| - 1]);
      var added := s.(name := UniqueName(before, s.name));
      var r := before + [added];
      assert r == ImportNamed(current, elems);
      assert r[..|current|] == before[..|current|];
      forall k | 0 <= k < |elems|
        ensures r[|current| + k] == FromXml(elems[k]).(name := r[|current| + k].name)
      {
        if k < |elems| - 1 {
          assert elems[k] == init[k];
        }
      }
      forall i, j | 0 <= i < j < |r| && |current| <= j
        ensures r[i].name != r[j].name
      {
        if j == |r| - 1 {
          assert r[i] == before[i];
          assert before[i].name in Names(before);
        }
      }
    }
  }

  /** A list with unique names keeps unique names after a FileZilla import. */
  lemma UniqueNamesStayUnique(current: seq<Server>, elems: seq<XmlServer>)
    requires forall i, j :: 0 <= i < j < |current| ==> current[i].name != current[j].name
    ensures var r := ImportNamed(current, elems);
      forall i, j :: 0 <= i < j < |r| ==> r[i].name != r[j].name
  {
    ImportNamedAppends(current, elems);
    var r := ImportNamed(current, elems);
    forall i, j | 0 <= i < j < |r|
      ensures r[i].name != r[j].name
    {
      if j < |current| {
        assert r[i] == current[i] && r[j] == current[j];
      }
    }
  }

  // ---------------------------------------------------------------------
  // The manager
  // ---------------------------------------------------------------------

  class ConfigManager {
    /** The decrypted content of the server file; `None` when the file is
        missing or does not decrypt. */
    var stored: Option<seq<Server>>

    constructor (stored: Option<seq<Server>>)
      ensures this.stored == stored
    {
      this.stored := stored;
    }

    /** `load_servers()`: the stored list, or no servers at all. */
    function Load(): seq<Server>
      reads this
    {
      if stored.Some? then stored.value else []
    }

    /** `import_servers(filepath)`. The reported count is the number of
        records in the file, whatever number was appended. */
    method ImportServers(file: Parsed<seq<Server>>) returns (ok: bool, message: string)
      modifies this
      ensures ok <==> file.Parsed?
      ensures !ok ==> message == ImportError(file.error) && stored == old(stored)
      ensures ok ==> message == Imported(|file.value|)
      ensures ok ==> stored == Some(MergeNew(old(Load()), file.value))
    {
      if file.Unreadable? {
        return false, ImportError(file.error);
      }
      var imported := file.value;
      var current := Load();
      ghost var base := current;
      for i := 0 to |imported|
        invariant current == MergeNew(base, imported[..i])
      {
        assert imported[..i + 1][..i] == imported[..i];
        if imported[i] !in current {
          current := current + [imported[i]];
        }
      }
      assert imported[..|imported|] == imported;
      stored := Some(current);
      ok, message := true, Imported(|imported|);
    }

    /** `import_from_filezilla(filepath)`: every `Server` element becomes a
        record with the defaults for missing children, renamed until its
        name is free in the list as it stands, and appended. With no
        element nothing is saved. */
    method ImportFromFileZilla(file: Parsed<seq<XmlServer>>) returns (ok: bool, message: string)
      modifies this
      ensures ok <==> file.Parsed? && file.value != []
      ensures file.Unreadable? ==> message == FileZillaError(file.error)
      ensures file.Parsed? && file.value == [] ==> message == NoFileZillaServers
      ensures !ok ==> stored == old(stored)
      ensures ok ==> stored == Some(ImportNamed(old(Load()), file.value))
      ensures ok ==> message == FileZillaImported(|file.value|)
    {
      if file.Unreadable? {
        return false, FileZillaError(file.error);
      }
      var elems := file.value;
      var current := Load();
      ghost var base := current;
      var count := 0;
      for i := 0 to |elems|
        invariant current == ImportNamed(base, elems[..i])
        invariant count == i
        invariant stored == old(stored)
      {
        assert elems[..i + 1][..i] == elems[..i];
        var server := FromXml(elems[i]);
        var name, counter := ChooseName(current, server.name);
        current := current + [server.(name := name)];
        count := count + 1;
      }
      assert elems[..|elems|] == elems;
      if count > 0 {
        stored := Some(current);
        ok, message := true, FileZillaImported(count);
      } else {
        ok, message := false, NoFileZillaServers;
      }
    }

    /** The renaming loop: try the original name, then `<original>_1`,
        `<original>_2`, ... until no server in the list has it. The loop
        stops, and `counter` ends at most one past the length of the list. */
    static method ChooseName(current: seq<Server>, original: string) returns (name: string, counter: nat)
      ensures name == UniqueName(current, original)
      ensures !NameTaken(current, name)
      ensures 1 <= counter <= |current| + 1
    {
      name := original;
      counter := 1;
      while NameTaken(current, name)
        invariant 1 <= counter
        invariant name == Candidate(original, counter - 1)
        invariant forall j :: 0 <= j < counter - 1 ==> Candidate(original, j) in Names(current)
        decreases |Names(current)| + 1 - counter
      {
        CandidatesBound(Names(current), original, counter);
        name := original + "_" + NatToString(counter);
        counter := counter + 1;
      }
    }
  }
}
