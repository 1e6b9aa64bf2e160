/** `ArchiveManager`: packing the staging directory and the database dumps
    into one ZIP file. The local file system is a parameter: for each path,
    whether it is a directory (with the files `os.walk` finds below it, as
    paths relative to it), a regular file, or absent. */
module Archive {
  import opened Seqs
  import opened Paths

  datatype LocalKind = Directory(files: seq<string>) | RegularFile | Absent

  type FileSystem = string -> LocalKind

  /** One archive member: the local file written and its name in the ZIP. */
  datatype Member = Member(file: string, arcname: string)

  /** `os.path.relpath(os.path.join(root, file), os.path.dirname(source))`
      for a file found below `source` at relative path `rel`. */
  function ArcName(source: string, rel: string): string
  {
    Join(Basename(source), rel)
  }

  /** How many files one source contributes. */
  function SourceCount(kind: LocalKind): nat
  {
    match kind
    case Directory(files) => |files|
    case RegularFile => 1
    case Absent => 0
  }

  /** `_count_files(sources)`: files below each directory, one per regular
      file, none for a path that does not exist. */
  function TotalFiles(sources: seq<string>, fs: FileSystem): nat
    decreases |sources|
  {
    if sources == [] then 0
    else TotalFiles(sources[..|sources| - 1], fs) + SourceCount(fs(sources[|sources| - 1]))
  }

  /** The members a directory source adds, in walk order. */
  function DirectoryMembers(source: string, files: seq<string>): (r: seq<Member>)
    ensures |r| == |files|
    decreases |files|
  {
    if files == [] then []
    else
      var rel := files[|files| - 1];
      DirectoryMembers(source, files[..|files| - 1]) + [Member(Join(source, rel), ArcName(source, rel))]
  }

  /** The members one source adds. */
  function SourceMembers(source: string, kind: LocalKind): (r: seq<Member>)
    ensures |r| == SourceCount(kind)
  {
    match kind
    case Directory(files) => DirectoryMembers(source, files)
    case RegularFile => [Member(source, Basename(source))]
    case Absent => []
  }

  /** All members of the archive, source by source. */
  function Members(sources: seq<string>, fs: FileSystem): seq<Member>
    decreases |sources|
  {
    if sources == [] then []
    else Members(sources[..|sources| - 1], fs) + SourceMembers(sources[|sources| - 1], fs(sources[|sources| - 1]))
  }

  /** The count taken before writing is the number of members written. */
  lemma {:induction false} MembersCounted(sources: seq<string>, fs: FileSystem)
    ensures |Members(sources, fs)| == TotalFiles(sources, fs)
    decreases |sources|
  {
    if sources != [] {
      MembersCounted(sources[..|sources| - 1], fs);
    }
  }

  /** `_count_files(source_paths)`. */
  method CountFiles(sources: seq<string>, fs: FileSystem) returns (count: nat)
    ensures count == TotalFiles(sources, fs)
  {
    count := 0;
    for i := 0 to |sources|
      invariant count == TotalFiles(sources[..i], fs)
    {
      assert sources[..i + 1][..i] == sources[..i];
      match fs(sources[i])
      case Directory(files) =>
        count := count + |files|;
      case RegularFile =>
        count := count + 1;
      case Absent =>
    }
    assert sources[..|sources|] == sources;
  }

  /** `create_zip_archive(sources, output)`. `failure` is the text of the
      exception `zipfile` raised, if it raised; the model then reports the
      failure without the members written before it. On success the members
      are exactly `Members(sources, fs)` and the final count of processed
      files equals the count taken beforehand. */
  method CreateZipArchive(sources: seq<string>, output: string, fs: FileSystem, failure: Option<string>)
    returns (ok: bool, result: string, archived: seq<Member>, total: nat, processed: nat)
    ensures ok <==> failure.None?
    ensures ok ==> result == output && archived == Members(sources, fs)
    ensures ok ==> total == processed == TotalFiles(sources, fs)
    ensures !ok ==> result == failure.value && archived == []
  {
    archived := [];
    processed := 0;
    if failure.Some? {
      return false, failure.value, [], 0, 0;
    }
    total := CountFiles(sources, fs);
    for i := 0 to |sources|
      invariant archived == Members(sources[..i], fs)
      invariant processed == |archived|
    {
      assert sources[..i + 1][..i] == sources[..i];
      var source := sources[i];
      match fs(source)
      case Directory(files) =>
        var added;
        archived, added := WalkDirectory(source, files, archived);
        processed := processed + added;
      case RegularFile =>
        archived := archived + [Member(source, Basename(source))];
        processed := processed + 1;
      case Absent =>
    }
    assert sources[..|sources|] == sources;
    MembersCounted(sources, fs);
    ok, result := true, output;
  }

  /** The `os.walk` loop over one directory source: every file below it is
      written under its archive name, and each one counts as processed. */
  method WalkDirectory(source: string, files: seq<string>, before: seq<Member>)
    returns (after: seq<Member>, added: nat)
    ensures after == before + DirectoryMembers(source, files)
    ensures added == |files|
  {
    after, added := before, 0;
    for j := 0 to |files|
      invariant after == before + DirectoryMembers(source, files[..j])
      invariant added == j
    {
      var m := Member(Join(source, files[j]), ArcName(source, files[j]));
      WalkStep(source, files, j, before, after, m);
      after := after + [m];
      added := added + 1;
    }
    assert files[..|files|] == files;
  }

  lemma WalkStep(source: string, files: seq<string>, j: nat, before: seq<Member>, after: seq<Member>, m: Member)
    requires j < |files|
    requires after == before + DirectoryMembers(source, files[..j])
    requires m == Member(Join(source, files[j]), ArcName(source, files[j]))
    ensures after + [m] == before + DirectoryMembers(source, files[..j + 1])
  {
    assert files[..j + 1][..j] == files[..j];
  }

  /** A file below a directory source is stored under the source's own name:
      unpacking next to where the source was restores the original path. */
  lemma ArcNameRoundTrip(parent: string, name: string, rel: string)
    requires parent != [] && !EndsWithSlash(parent)
    requires name != [] && NoSlash(name)
    requires rel == [] || rel[0] != '/'
    ensures ArcName(Join(parent, name), rel) == Join(name, rel)
    ensures Join(parent, ArcName(Join(parent, name), rel)) == Join(Join(parent, name), rel)
  {
    var source := Join(parent, name);
    BasenameOfJoin(parent, name);
    var inner := Join(name, rel);
    JoinKeepsLast(parent, name);
    JoinRelative(name, rel);
    JoinRelative(source, rel);
    assert inner[0] == name[0];
    JoinRelative(parent, inner);
    assert inner == name + "/" + rel;
    assert source + "/" + rel == parent + "/" + name + "/" + rel;
    assert parent + "/" + inner == parent + "/" + name + "/" + rel;
  }

  /** Joining a relative, non-empty name onto a path keeps the name's last
      character at the end. */
  lemma JoinKeepsLast(parent: string, name: string)
    requires parent != [] && !EndsWithSlash(parent)
    requires name != [] && NoSlash(name)
    ensures Join(parent, name) == parent + "/" + name
    ensures !EndsWithSlash(Join(parent, name))
  {
    assert name[0] != '/';
    assert name[|name| - 1] != '/';
  }

  lemma JoinRelative(a: string, b: string)
    requires a != [] && !EndsWithSlash(a)
    requires b == [] || b[0] != '/'
    ensures Join(a, b) == a + "/" + b
  {
  }
}
