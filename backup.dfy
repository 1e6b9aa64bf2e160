/** `AdvancedBackupManager`: the single-flight start, the cooperative stop
    flag, the download loops of the files phase, the database phase and the
    worker that runs files -> databases -> ZIP -> cleanup.

    Every effect outside the process is a parameter: the server (an FTP or
    SFTP oracle), whether `os.makedirs` succeeds for a path, whether one
    item's download succeeds, the dump tools and their outcome, the local
    file tree the ZIP walks and whether `zipfile` raises. A stop request
    from the interface thread is a `StopPoint`: the place, relative to the
    worker's reads of `is_running`, where `stop_backup` runs. */
module Backup {
  import opened Seqs
  import opened Paths
  import opened FtpList
  import opened Inventory
  import opened Databases
  import opened Archive

  /** Arguments of `on_complete_callback`. */
  const Completed: string := "Tamamlandı"
  const Failed: string := "Başarısız"
  const Stopped: string := "Durduruldu"

  /** Replies of `create_complete_backup`. */
  const AlreadyRunning: string := "Zaten bir yedekleme çalışıyor!"
  const Started: string := "Yedekleme başlatıldı!"

  // ---------------------------------------------------------------- progress

  /** `int(25 + (i / total_items) * 65)`, on exact rationals. */
  function PhaseProgress(i: nat, total: nat): nat
    requires i < total
  {
    25 + (65 * i) / total
  }

  /** The per-item progress of a download loop stays inside 25..89. */
  lemma PhaseProgressBounds(i: nat, total: nat)
    requires i < total
    ensures 25 <= PhaseProgress(i, total) <= 89
  {
    DivBelow(65 * i, total, 65);
  }

  /** ... and never decreases as the loop advances. */
  lemma PhaseProgressMonotone(i: nat, j: nat, total: nat)
    requires i <= j < total
    ensures PhaseProgress(i, total) <= PhaseProgress(j, total)
  {
    DivMonotone(65 * i, 65 * j, total);
  }

  lemma MulMonotone(x: int, y: int, t: int)
    requires t >= 0 && x <= y
    ensures x * t <= y * t
  {
    assert y * t - x * t == (y - x) * t;
  }

  lemma MulLessCancel(x: int, b: int, t: int)
    requires t > 0 && x * t < b * t
    ensures x < b
  {
    if x >= b {
      MulMonotone(b, x, t);
    }
  }

  lemma DivBelow(a: nat, t: nat, b: nat)
    requires t > 0 && a < b * t
    ensures a / t < b
  {
    assert (a / t) * t <= a;
    MulLessCancel(a / t, b, t);
  }

  lemma DivMonotone(a: nat, b: nat, t: nat)
    requires t > 0 && a <= b
    ensures a / t <= b / t
  {
    assert (a / t) * t <= a;
    assert b < (b / t + 1) * t;
    MulLessCancel(a / t, b / t + 1, t);
  }

  // ---------------------------------------------------------------- downloads

  datatype Protocol = FtpProtocol | SftpProtocol

  function ProtocolOf(r: Remote): Protocol
  {
    match r
    case Ftp(_) => FtpProtocol
    case Sftp(_) => SftpProtocol
  }

  /** The local file or directory an item is written to: the FTP loop joins
      the item path as listed; the SFTP loop first strips leading separators. */
  function LocalPath(proto: Protocol, backupPath: string, e: Entry): string
  {
    match proto
    case FtpProtocol => Join(backupPath, e.path)
    case SftpProtocol => Join(backupPath, StripLeadingSeparators(e.path))
  }

  /** Where the interface thread's `stop_backup` runs, relative to the
      worker's reads of `is_running`: before the check of download item `k`,
      before the check of database `k`, just before the critical-error and
      cancellation checks, or after them (during the archive). */
  datatype StopPoint =
    | NoStop
    | BeforeItem(item: nat)
    | BeforeDatabase(db: nat)
    | BeforeChecks
    | AfterChecks

  /** How many of `total` filtered items the download loop starts. */
  function Attempts(running: bool, stop: StopPoint, total: nat): (n: nat)
    ensures n <= total
  {
    if !running then 0
    else match stop
      case BeforeItem(k) => if k < total then k else total
      case _ => total
  }

  /** Whether the stop request lands inside the download loop. */
  predicate StopsDownload(running: bool, stop: StopPoint, total: nat)
  {
    stop.BeforeItem? && stop.item < total && (running || stop.item == 0)
  }

  /** The progress values reported for the items `done`, the first `|done|`
      of `total`: one after each item that completed, none for an item whose
      download raised. */
  function Reports(done: seq<Entry>, ok: Entry -> bool, total: nat): seq<nat>
    requires |done| <= total
    decreases |done|
  {
    if done == [] then []
    else
      var i := |done| - 1;
      Reports(done[..i], ok, total) + (if ok(done[i]) then [PhaseProgress(i, total)] else [])
  }

  /** The local paths written for the items `done`, in order. */
  function Saved(proto: Protocol, backupPath: string, done: seq<Entry>, ok: Entry -> bool): seq<string>
    decreases |done|
  {
    if done == [] then []
    else
      var i := |done| - 1;
      Saved(proto, backupPath, done[..i], ok) + (if ok(done[i]) then [LocalPath(proto, backupPath, done[i])] else [])
  }

  /** One iteration of a download loop, phrased on its three accumulators. */
  lemma DownloadStep(proto: Protocol, backupPath: string, fs: seq<Entry>, i: nat, ok: Entry -> bool, total: nat,
                     downloaded: nat, progress: seq<nat>, saved: seq<string>)
    requires i < |fs| <= total
    requires downloaded == Count(fs[..i], ok)
    requires progress == Reports(fs[..i], ok, total)
    requires saved == Saved(proto, backupPath, fs[..i], ok)
    ensures ok(fs[i]) ==>
              downloaded + 1 == Count(fs[..i + 1], ok) &&
              progress + [PhaseProgress(i, total)] == Reports(fs[..i + 1], ok, total) &&
              saved + [LocalPath(proto, backupPath, fs[i])] == Saved(proto, backupPath, fs[..i + 1], ok)
    ensures !ok(fs[i]) ==>
              downloaded == Count(fs[..i + 1], ok) &&
              progress == Reports(fs[..i + 1], ok, total) &&
              saved == Saved(proto, backupPath, fs[..i + 1], ok)
  {
    assert fs[..i + 1][..i] == fs[..i];
  }

  predicate Within(s: seq<nat>, lo: nat, hi: nat)
  {
    forall k :: 0 <= k < |s| ==> lo <= s[k] <= hi
  }

  predicate NonDecreasing(s: seq<nat>)
  {
    forall k, l :: 0 <= k <= l < |s| ==> s[k] <= s[l]
  }

  /** The reports of a download loop: one per completed item, each inside
      25..89 and no later than the progress of the last item started, in
      non-decreasing order. */
  lemma {:induction false} ReportsInOrder(done: seq<Entry>, ok: Entry -> bool, total: nat)
    requires |done| <= total
    ensures |Reports(done, ok, total)| == Count(done, ok)
    ensures Within(Reports(done, ok, total), 25, 89)
    ensures done != [] ==> Within(Reports(done, ok, total), 25, PhaseProgress(|done| - 1, total))
    ensures NonDecreasing(Reports(done, ok, total))
    decreases |done|
  {
    if done != [] {
      var i := |done| - 1;
      var init := Reports(done[..i], ok, total);
      ReportsInOrder(done[..i], ok, total);
      PhaseProgressBounds(i, total);
      var p := PhaseProgress(i, total);
      if i > 0 {
        PhaseProgressMonotone(i - 1, i, total);
        assert Within(init, 25, p);
      }
      var r := Reports(done, ok, total);
      if ok(done[i]) {
        assert r == init + [p];
        forall k, l | 0 <= k <= l < |r| ensures r[k] <= r[l] {
          if l == |init| {
            assert r[l] == p;
            if k < |init| { assert r[k] == init[k]; }
          } else {
            assert r[k] == init[k] && r[l] == init[l];
          }
        }
      } else {
        assert r == init;
      }
    }
  }

  /** An SFTP item is always written inside the backup directory, whatever
      separators its remote path starts with. */
  lemma SftpPathInside(backupPath: string, e: Entry)
    requires backupPath != [] && !EndsWithSlash(backupPath)
    ensures LocalPath(SftpProtocol, backupPath, e) == backupPath + "/" + StripLeadingSeparators(e.path)
  {
  }

  /** The FTP loop joins the path as listed. A `LIST` reply line whose name
      field starts with `/` gives, at any level of the listing, an item path
      that is that name itself, and that path replaces the backup directory. */
  lemma FtpAbsolutePathEscapes(backupPath: string, line: string, dir: string, c: Listed)
    requires ParseListLine(line) == Some(c)
    requires c.name != [] && c.name[0] == '/'
    ensures ChildPath(dir, c.name) == ReplaceBackslashes(c.name)
    ensures LocalPath(FtpProtocol, backupPath, Entry(ChildPath(dir, c.name), c.isDir)) == ChildPath(dir, c.name)
  {
    assert ReplaceBackslashes(c.name)[0] == '/';
  }

  /** A stop notice or an outcome passed to `on_complete_callback`, when the
      manager has one. */
  function Notice(hasCallback: bool, fired: bool, outcome: string): seq<string>
  {
    if hasCallback && fired then [outcome] else []
  }

  /** Two notices of which at most one fires make one notice. */
  lemma NoticeEither(hasCallback: bool, a: bool, b: bool, outcome: string)
    requires !(a && b)
    ensures Notice(hasCallback, a, outcome) + Notice(hasCallback, b, outcome) == Notice(hasCallback, a || b, outcome)
  {
  }

  /** The outcome the worker reports: "Başarısız" from its exception
      handler, otherwise "Tamamlandı" if the flag still holds at the end,
      otherwise nothing. */
  function OutcomeOf(failure: Failure, running: bool): Option<string>
  {
    if failure != NoFailure then Some(Failed)
    else if running then Some(Completed)
    else None
  }

  function Announce(hasCallback: bool, outcome: Option<string>): seq<string>
  {
    if hasCallback && outcome.Some? then [outcome.value] else []
  }

  // ---------------------------------------------------------------- databases

  /** The dump oracles, by position of the database in the configured list:
      the timestamp of the dump file and the exception raised, if any. */
  datatype DumpEnv = DumpEnv(onPath: string -> bool, stamp: nat -> string, failure: nat -> Option<string>)

  /** The worker's locals across the database loop: `success` and `result`
      (unassigned until a dump or, for `success`, the connection of the files
      phase sets them), `db_backups`, `has_critical_error`, and whether the
      loop raised reading an unassigned local. */
  datatype DbState = DbState(
    success: Option<bool>,
    result: Option<string>,
    backups: seq<string>,
    critical: bool,
    raised: bool)

  /** What one dump call leaves in the locals. */
  function Record(st: DbState, r: DumpResult): DbState
  {
    DbState(Some(r.success), Some(r.result),
            if r.success then st.backups + [r.result] else st.backups,
            st.critical || !r.success, st.raised)
  }

  predicate KnownKind(db: DbConfig)
  {
    db.kind == "mysql" || db.kind == "postgresql"
  }

  /** The dump of database `k` as a known kind performs it. */
  function Dump(db: DbConfig, k: nat, root: string, dumps: DumpEnv): DumpResult
    requires KnownKind(db)
  {
    if db.kind == "mysql" then BackupMysql(db, root, dumps.stamp(k), dumps.onPath, dumps.failure(k))
    else BackupPostgresql(db, root, dumps.stamp(k), dumps.onPath, dumps.failure(k))
  }

  /** One iteration of the database loop. A kind other than `mysql` and
      `postgresql` calls nothing, so the `if success` test reads whatever
      the locals hold: unassigned raises, a stale success appends the stale
      result again, a stale failure counts as a critical error again. */
  function DbStep(st: DbState, db: DbConfig, k: nat, root: string, dumps: DumpEnv): DbState
  {
    if KnownKind(db) then Record(st, Dump(db, k, root, dumps))
    else if st.success.None? || st.result.None? then st.(raised := true)
    else if st.success.value then st.(backups := st.backups + [st.result.value])
    else st.(critical := true)
  }

  /** The locals after the loop has run over `dbs`, stopping at a raise. */
  function DbRun(dbs: seq<DbConfig>, root: string, dumps: DumpEnv, init: DbState): DbState
    decreases |dbs|
  {
    if dbs == [] then init
    else
      var st := DbRun(dbs[..|dbs| - 1], root, dumps, init);
      if st.raised then st else DbStep(st, dbs[|dbs| - 1], |dbs| - 1, root, dumps)
  }

  lemma DbRunStep(dbs: seq<DbConfig>, k: nat, root: string, dumps: DumpEnv, init: DbState)
    requires k < |dbs|
    requires !DbRun(dbs[..k], root, dumps, init).raised
    ensures DbRun(dbs[..k + 1], root, dumps, init) == DbStep(DbRun(dbs[..k], root, dumps, init), dbs[k], k, root, dumps)
  {
    assert dbs[..k + 1][..k] == dbs[..k];
  }

  /** A dump that fails, or a raise, is never forgotten by later iterations. */
  lemma {:induction false} FailedDumpIsCritical(dbs: seq<DbConfig>, j: nat, root: string, dumps: DumpEnv, init: DbState)
    requires j < |dbs| && KnownKind(dbs[j]) && !Dump(dbs[j], j, root, dumps).success
    ensures DbRun(dbs, root, dumps, init).critical || DbRun(dbs, root, dumps, init).raised
    decreases |dbs|
  {
    var n := |dbs| - 1;
    var st := DbRun(dbs[..n], root, dumps, init);
    if j < n {
      assert dbs[..n][j] == dbs[j];
      FailedDumpIsCritical(dbs[..n], j, root, dumps, init);
    }
  }

  /** When every database is of a known kind and every dump succeeds, no
      error is recorded and each database adds its dump file, in order. */
  lemma {:induction false} AllDumpsSucceed(dbs: seq<DbConfig>, root: string, dumps: DumpEnv, init: DbState)
    requires !init.raised && !init.critical
    requires forall k :: 0 <= k < |dbs| ==> KnownKind(dbs[k]) && Dump(dbs[k], k, root, dumps).success
    ensures !DbRun(dbs, root, dumps, init).raised && !DbRun(dbs, root, dumps, init).critical
    ensures |DbRun(dbs, root, dumps, init).backups| == |init.backups| + |dbs|
    ensures forall k :: 0 <= k < |dbs| ==>
              DbRun(dbs, root, dumps, init).backups[|init.backups| + k] == Dump(dbs[k], k, root, dumps).result
    decreases |dbs|
  {
    if dbs != [] {
      var n := |dbs| - 1;
      var pre := dbs[..n];
      forall k | 0 <= k < |pre| ensures KnownKind(pre[k]) && Dump(pre[k], k, root, dumps).success {
        assert pre[k] == dbs[k];
      }
      AllDumpsSucceed(pre, root, dumps, init);
      var st := DbRun(pre, root, dumps, init);
      var r := Dump(dbs[n], n, root, dumps);
      var all := DbRun(dbs, root, dumps, init).backups;
      assert all == st.backups + [r.result];
      forall k | 0 <= k < |dbs|
        ensures all[|init.backups| + k] == Dump(dbs[k], k, root, dumps).result
      {
        if k < n {
          assert pre[k] == dbs[k];
          assert all[|init.backups| + k] == st.backups[|init.backups| + k];
        }
      }
    }
  }

  /** A database of another kind before any dump has run raises: in a
      database-only backup `success` is unassigned, and after the files
      phase `result` still is. */
  lemma UnknownKindFirstRaises(dbs: seq<DbConfig>, root: string, dumps: DumpEnv, success: Option<bool>)
    requires dbs != [] && !KnownKind(dbs[0])
    ensures DbRun(dbs[..1], root, dumps, DbState(success, None, [], false, false)).raised
  {
    assert dbs[..1][..0] == [];
  }

  /** After a successful dump, a database of another kind appends the same
      dump file a second time. */
  lemma UnknownKindRepeatsResult(dbs: seq<DbConfig>, root: string, dumps: DumpEnv, init: DbState)
    requires |dbs| == 2 && KnownKind(dbs[0]) && !KnownKind(dbs[1])
    requires !init.raised
    requires Dump(dbs[0], 0, root, dumps).success
    ensures DbRun(dbs, root, dumps, init).backups ==
              init.backups + [Dump(dbs[0], 0, root, dumps).result, Dump(dbs[0], 0, root, dumps).result]
  {
    var r := Dump(dbs[0], 0, root, dumps);
    assert dbs[..1][..0] == [];
    assert dbs[..1][0] == dbs[0];
    var one := dbs[..1];
    assert |one| == 1 && one[..0] == [] && one[0] == dbs[0];
    assert DbRun(one[..0], root, dumps, init) == init;
    var st := DbRun(one, root, dumps, init);
    assert st == DbStep(init, dbs[0], 0, root, dumps);
    assert st == Record(init, r);
    assert dbs[..|dbs| - 1] == dbs[..1];
    assert DbRun(dbs, root, dumps, init) == DbStep(st, dbs[1], 1, root, dumps);
  }

  // ---------------------------------------------------------------- worker

  predicate FilesMode(backupType: string)
  {
    backupType == "files_only" || backupType == "full_backup"
  }

  predicate DbMode(backupType: string)
  {
    backupType == "db_only" || backupType == "full_backup"
  }

  /** `backup_config` and `db_configs` as the worker reads them. */
  datatype Job = Job(backupType: string, targetPath: string, pattern: string, createZip: bool, dbs: seq<DbConfig>)

  /** Everything outside the process the worker depends on. */
  datatype Environment = Environment(
    stamp: string,               // timestamp of the staging root
    filesStamp: string,          // timestamp of the directory nested under `files`
    mkdirOk: string -> bool,     // whether `os.makedirs` succeeds for a path
    connectError: Option<string>,
    server: Remote,              // an `ftp` server, or any other protocol as SFTP
    depth: nat,                  // nested listing calls the stack allows
    itemOk: Entry -> bool,       // whether downloading one item completes
    dumps: DumpEnv,
    localFs: FileSystem,         // what the archive walk finds
    zipFailure: Option<string>)  // the exception `zipfile` raises, if any

  /** `_create_backup_path(base)`: `<base>/backup_<timestamp>`. */
  function BackupDir(base: string, stamp: string): string
  {
    Join(base, "backup_" + stamp)
  }

  /** `backup_<basename(root)>.zip`, next to the staging root. */
  function ZipName(root: string): string
  {
    Join(Dirname(root), "backup_" + Basename(root) + ".zip")
  }

  /** The directory the files phase lists from. */
  function ListingRoot(r: Remote): string
  {
    match r
    case Ftp(_) => ""
    case Sftp(_) => "."
  }

  /** The files phase as it happened. */
  datatype FilesReport = FilesReport(
    raised: bool,          // an exception ended the phase
    connected: bool,
    listed: seq<Entry>,
    total: nat,            // items left after the filter
    attempted: nat,        // items the download loop started
    downloaded: nat,
    progress: seq<nat>,    // the per-item progress reports
    saved: seq<string>,
    closed: bool,          // `quit`/`close` was called
    stopped: bool)         // the stop request landed in the download loop

  /** The files phase that did not run. */
  const NoFiles: FilesReport := FilesReport(false, false, [], 0, 0, 0, [], [], false, false)

  /** The files phase as the source performs it, the flag holding `running`
      when it starts: the connection, the two directories, the listing from
      the server's root and the download loop over the filtered listing. */
  predicate FilesRan(f: FilesReport, filesPath: string, pattern: string, env: Environment,
                     running: bool, stop: StopPoint)
  {
    var target := BackupDir(filesPath, env.filesStamp);
    && (f.connected <==> env.connectError.None?)
    && (f.raised <==> !f.connected || !env.mkdirOk(filesPath) || !env.mkdirOk(target))
    && (f.closed <==> !f.raised)
    && f.listed == (if f.raised then [] else Scan(env.server, ListingRoot(env.server), env.depth))
    && (f.stopped ==> !f.raised && stop.BeforeItem?)
    && Downloaded(f, target, pattern, env, running, stop)
  }

  /** The download loop over the filtered listing `f.listed` into `target`:
      the items it started, those it counted, the progress it reported, the
      local paths it wrote, and whether the stop request landed in it. */
  predicate Downloaded(f: FilesReport, target: string, pattern: string, env: Environment,
                       running: bool, stop: StopPoint)
  {
    var fs := FilterItems(f.listed, pattern);
    && f.total == |fs|
    && f.attempted == Attempts(running, stop, f.total)
    && f.downloaded == Count(fs[..f.attempted], env.itemOk)
    && f.progress == Reports(fs[..f.attempted], env.itemOk, f.total)
    && f.saved == Saved(ProtocolOf(env.server), target, fs[..f.attempted], env.itemOk)
    && f.stopped == StopsDownload(running, stop, f.total)
  }

  /** An empty listing downloads nothing and reports nothing. */
  lemma NothingDownloaded(f: FilesReport, target: string, pattern: string, env: Environment,
                          running: bool, stop: StopPoint)
    requires f.listed == [] && f.total == 0 && f.attempted == 0 && f.downloaded == 0
    requires f.progress == [] && f.saved == [] && !f.stopped
    ensures Downloaded(f, target, pattern, env, running, stop)
  {
    assert FilterItems([], pattern) == [];
  }

  /** The database loop as the source performs it over `dbs`, the flag
      holding `running` when it starts: `started` databases were dumped, the
      locals are `DbRun` of them, and the loop ended at the end of the list,
      at the first raise, at the stop request or on a cleared flag. */
  predicate DbRan(st: DbState, started: nat, stopped: bool, dbs: seq<DbConfig>, root: string,
                  dumps: DumpEnv, init: DbState, running: bool, stop: StopPoint)
  {
    && started <= |dbs|
    && st == DbRun(dbs[..started], root, dumps, init)
    && (started > 0 ==> running && !DbRun(dbs[..started - 1], root, dumps, init).raised)
    && (started == |dbs| || st.raised || stopped || !running)
    && (stop.BeforeDatabase? ==> started <= stop.db)
    && (stopped <==> started < |dbs| && stop == BeforeDatabase(started) && !st.raised)
  }

  /** Why the worker took its exception handler. */
  datatype Failure = NoFailure | RootNotCreated | FilesFailed | DbRaised | CriticalDb | Cancelled

  /** The exception, if any, that the end of the database loop and the two
      checks raise: the unassigned local, the critical-error check, then the
      cancellation check on the flag `running`. */
  function DbFailure(db: DbState, running: bool): Failure
  {
    if db.raised then DbRaised
    else if db.critical then CriticalDb
    else if !running then Cancelled
    else NoFailure
  }

  /** The exception, if any, that the worker's body raises before the
      archive, in the order the source reaches them. */
  function FailureOf(rootMade: bool, filesRaised: bool, db: DbState, running: bool): Failure
  {
    if !rootMade then RootNotCreated
    else if filesRaised then FilesFailed
    else DbFailure(db, running)
  }

  /** Whether the database loop runs: a mode that includes databases, a
      non-empty list, and nothing raised before it. */
  predicate DbRuns(job: Job, rootMade: bool, files: FilesReport)
  {
    rootMade && !files.raised && DbMode(job.backupType) && job.dbs != []
  }

  /** Whether the worker reaches its two checks. */
  predicate ReachesChecks(rootMade: bool, files: FilesReport, db: DbState)
  {
    rootMade && !files.raised && !db.raised
  }

  /** A failing dump of a known kind among those the loop reached sends the
      worker to its exception handler, whatever the rest of the run did. */
  lemma FailedDumpFailsRun(dbs: seq<DbConfig>, started: nat, j: nat, root: string, dumps: DumpEnv,
                           init: DbState, db: DbState, rootMade: bool, filesRaised: bool, running: bool)
    requires j < started <= |dbs|
    requires db == DbRun(dbs[..started], root, dumps, init)
    requires KnownKind(dbs[j]) && !Dump(dbs[j], j, root, dumps).success
    ensures FailureOf(rootMade, filesRaised, db, running) != NoFailure
  {
    assert dbs[..started][j] == dbs[j];
    FailedDumpIsCritical(dbs[..started], j, root, dumps, init);
  }

  /** What the worker's body did up to and including its two checks. */
  datatype Phases = Phases(
    failure: Failure,      // the exception that sends it to its handler, if any
    files: FilesReport,
    started: nat,          // databases whose dump the loop reached
    db: DbState,
    dbStopped: bool,       // the stop request landed in the database loop
    stopped: bool)         // the stop request landed before the checks

  /** The worker's body up to its checks as the source performs it, the flag
      holding `running` when it starts: the files phase runs, in full, in a
      mode that includes files once the staging root exists; the database
      loop runs in a mode that includes databases, over a non-empty list,
      when nothing raised before it; the first exception in source order
      decides the failure. */
  predicate PhasesRan(ph: Phases, job: Job, env: Environment, root: string, running: bool, stop: StopPoint)
  {
    var rootMade := env.mkdirOk(root);
    && (rootMade && FilesMode(job.backupType) ==>
          FilesRan(ph.files, Join(root, "files"), job.pattern, env, running, stop))
    && (!(rootMade && FilesMode(job.backupType)) ==> ph.files == NoFiles)
    && (DbRuns(job, rootMade, ph.files) ==>
          DbRan(ph.db, ph.started, ph.dbStopped, job.dbs, root, env.dumps, DbLocals(ph.files.connected),
                running && !ph.files.stopped, stop))
    && (!DbRuns(job, rootMade, ph.files) ==>
          ph.started == 0 && !ph.dbStopped && ph.db == DbLocals(ph.files.connected))
    && ph.stopped == (ph.files.stopped || ph.dbStopped || (ReachesChecks(rootMade, ph.files, ph.db) && stop == BeforeChecks))
    && ph.failure == FailureOf(rootMade, ph.files.raised, ph.db, running && !ph.stopped)
  }

  /** The staging root and, in a mode that includes files, the files phase,
      the flag holding `running` beforehand: `failure` is the exception
      raised so far. */
  predicate FilesStaged(failure: Failure, files: FilesReport, job: Job, env: Environment, root: string,
                        running: bool, stop: StopPoint)
  {
    && (env.mkdirOk(root) && FilesMode(job.backupType) ==>
          FilesRan(files, Join(root, "files"), job.pattern, env, running, stop))
    && (!(env.mkdirOk(root) && FilesMode(job.backupType)) ==> files == NoFiles)
    && failure == (if !env.mkdirOk(root) then RootNotCreated else if files.raised then FilesFailed else NoFailure)
    && (files.stopped ==> stop.BeforeItem?)
  }

  /** The database loop (in a mode that includes databases, over a non-empty
      list), the stop window before the checks and the checks, the flag
      holding `running` beforehand. */
  predicate DbStaged(failure: Failure, started: nat, db: DbState, dbStopped: bool, stopped: bool,
                     job: Job, env: Environment, root: string, connected: bool, running: bool, stop: StopPoint)
  {
    && (DbMode(job.backupType) && job.dbs != [] ==>
          DbRan(db, started, dbStopped, job.dbs, root, env.dumps, DbLocals(connected), running, stop))
    && (!(DbMode(job.backupType) && job.dbs != []) ==>
          started == 0 && !dbStopped && db == DbLocals(connected))
    && stopped == (dbStopped || (!db.raised && stop == BeforeChecks))
    && failure == DbFailure(db, running && !stopped)
  }

  /** An exception in the first stage skips the database loop and the checks. */
  lemma StagesEndEarly(failure: Failure, files: FilesReport, job: Job, env: Environment, root: string,
                       running: bool, stop: StopPoint)
    requires FilesStaged(failure, files, job, env, root, running, stop)
    requires failure != NoFailure
    ensures PhasesRan(Phases(failure, files, 0, DbLocals(files.connected), false, files.stopped), job, env, root, running, stop)
  {
  }

  /** Without an exception in the first stage, the second stage completes
      the phases. */
  lemma StagesRunOn(ph: Phases, stoppedLater: bool, job: Job, env: Environment, root: string,
                    running: bool, stop: StopPoint)
    requires FilesStaged(NoFailure, ph.files, job, env, root, running, stop)
    requires DbStaged(ph.failure, ph.started, ph.db, ph.dbStopped, stoppedLater, job, env, root,
                      ph.files.connected, running && !ph.files.stopped, stop)
    requires ph.stopped == (ph.files.stopped || stoppedLater)
    ensures PhasesRan(ph, job, env, root, running, stop)
  {
  }

  /** A failing dump of a known kind among those the loop reached, a failed
      connection in a mode that includes files, or a staging root that
      cannot be created sends the worker to its exception handler. */
  lemma PhasesFail(ph: Phases, job: Job, env: Environment, root: string, running: bool, stop: StopPoint)
    requires PhasesRan(ph, job, env, root, running, stop)
    ensures ph.started <= |job.dbs|
    ensures forall j :: (0 <= j < ph.started && KnownKind(job.dbs[j]) &&
                         !Dump(job.dbs[j], j, root, env.dumps).success) ==> ph.failure != NoFailure
    ensures FilesMode(job.backupType) && env.connectError.Some? ==> ph.failure != NoFailure
    ensures !env.mkdirOk(root) ==> ph.failure != NoFailure
  {
    forall j | 0 <= j < ph.started && KnownKind(job.dbs[j]) && !Dump(job.dbs[j], j, root, env.dumps).success
      ensures ph.failure != NoFailure
    {
      FailedDumpFailsRun(job.dbs, ph.started, j, root, env.dumps, DbLocals(ph.files.connected), ph.db,
                         env.mkdirOk(root), ph.files.raised, running && !ph.stopped);
    }
  }

  /** With the flag raised, no stop before the checks, every directory and
      the connection succeeding, and every database of a known kind dumped
      successfully, the worker reaches its archive step without an
      exception, every database dumped, its dump files in order. */
  lemma PhasesSucceed(ph: Phases, job: Job, env: Environment, root: string, running: bool, stop: StopPoint)
    requires PhasesRan(ph, job, env, root, running, stop)
    requires running && (stop == NoStop || stop == AfterChecks)
    requires env.mkdirOk(root)
    requires FilesMode(job.backupType) ==>
               env.connectError.None? && env.mkdirOk(Join(root, "files")) &&
               env.mkdirOk(BackupDir(Join(root, "files"), env.filesStamp))
    requires forall k :: 0 <= k < |job.dbs| ==> KnownKind(job.dbs[k]) && Dump(job.dbs[k], k, root, env.dumps).success
    ensures ph.failure == NoFailure && !ph.stopped
    ensures FilesMode(job.backupType) ==> ph.files.connected && ph.files.closed
    ensures DbMode(job.backupType) ==> ph.started == |job.dbs|
    ensures DbMode(job.backupType) ==> |ph.db.backups| == |job.dbs|
    ensures DbMode(job.backupType) ==>
              forall k :: 0 <= k < |job.dbs| ==> ph.db.backups[k] == Dump(job.dbs[k], k, root, env.dumps).result
  {
    var init := DbLocals(ph.files.connected);
    assert !ph.files.raised && !ph.files.stopped;
    if DbRuns(job, true, ph.files) {
      var pre := job.dbs[..ph.started];
      forall k | 0 <= k < |pre| ensures KnownKind(pre[k]) && Dump(pre[k], k, root, env.dumps).success {
        assert pre[k] == job.dbs[k];
      }
      AllDumpsSucceed(pre, root, env.dumps, init);
      assert ph.started == |job.dbs|;
      assert pre == job.dbs;
      AllDumpsSucceed(job.dbs, root, env.dumps, init);
    }
  }

  datatype ZipJob = ZipJob(sources: seq<string>, output: string)

  /** What the archive holds: the files directory, when the files phase
      connected, then the dump files in the order they were made. */
  function ZipSources(root: string, connected: bool, backups: seq<string>): seq<string>
  {
    (if connected then [Join(root, "files")] else []) + backups
  }

  /** The worker's run as it happened. */
  datatype Report = Report(
    root: string,
    phases: Phases,
    archive: Option<ZipJob>,
    removed: bool,         // the staging root was deleted
    stopped: bool,
    outcome: Option<string>)

  /** The worker's whole run as the source performs it, the flag holding
      `running` when it starts: the phases up to the checks, then, without
      an exception, the stop window during the archive and the archive
      itself; the outcome its handler or its normal path reports. */
  predicate WorkerRan(rep: Report, job: Job, env: Environment, running: bool, stop: StopPoint)
  {
    var ph := rep.phases;
    && rep.root == BackupDir(job.targetPath, env.stamp)
    && PhasesRan(ph, job, env, rep.root, running, stop)
    && rep.stopped == (ph.stopped || (ph.failure == NoFailure && stop == AfterChecks))
    && rep.outcome == OutcomeOf(ph.failure, running && !rep.stopped)
    && (rep.archive.Some? <==> ph.failure == NoFailure && job.createZip)
    && (rep.archive.Some? ==>
          rep.archive.value == ZipJob(ZipSources(rep.root, ph.files.connected, ph.db.backups), ZipName(rep.root)))
    && (rep.removed <==> rep.archive.Some? && env.zipFailure.None?)
  }

  /** "Başarısız" is reported exactly when the body raised, and then no
      archive is made. A failing dump of a known kind among those the loop
      reached, a failed connection in a mode that includes files, or a
      staging root that cannot be created all end that way. Without an
      exception, "Tamamlandı" is reported exactly when no stop came. */
  lemma WorkerOutcome(rep: Report, job: Job, env: Environment, running: bool, stop: StopPoint)
    requires WorkerRan(rep, job, env, running, stop)
    ensures rep.outcome == Some(Failed) <==> rep.phases.failure != NoFailure
    ensures rep.outcome == Some(Failed) ==> rep.archive.None? && !rep.removed
    ensures rep.phases.failure == NoFailure ==> (rep.outcome == Some(Completed) <==> !rep.stopped)
    ensures forall j :: (0 <= j < rep.phases.started && KnownKind(job.dbs[j]) &&
                         !Dump(job.dbs[j], j, rep.root, env.dumps).success) ==>
              rep.outcome == Some(Failed)
    ensures FilesMode(job.backupType) && env.connectError.Some? ==> rep.outcome == Some(Failed)
    ensures !env.mkdirOk(rep.root) ==> rep.outcome == Some(Failed)
    ensures rep.stopped ==> rep.outcome != Some(Completed)
  {
    PhasesFail(rep.phases, job, env, rep.root, running, stop);
    assert rep.phases.failure == NoFailure ==> !rep.phases.stopped;
  }

  /** With the flag raised, no stop, every directory and the connection
      succeeding, every database of a known kind dumped successfully and the
      archive written, the worker reports "Tamamlandı". Its archive holds
      the files directory (in a mode that includes files) and every dump
      file, in order, and the staging root is removed. */
  lemma WorkerSucceeds(rep: Report, job: Job, env: Environment, stop: StopPoint)
    requires WorkerRan(rep, job, env, true, stop)
    requires stop == NoStop
    requires env.mkdirOk(rep.root)
    requires FilesMode(job.backupType) ==>
               env.connectError.None? && env.mkdirOk(Join(rep.root, "files")) &&
               env.mkdirOk(BackupDir(Join(rep.root, "files"), env.filesStamp))
    requires forall k :: 0 <= k < |job.dbs| ==> KnownKind(job.dbs[k]) && Dump(job.dbs[k], k, rep.root, env.dumps).success
    requires job.createZip && env.zipFailure.None?
    ensures rep.outcome == Some(Completed) && rep.removed
    ensures rep.archive ==
              Some(ZipJob(ZipSources(rep.root, FilesMode(job.backupType), rep.phases.db.backups), ZipName(rep.root)))
    ensures DbMode(job.backupType) ==>
              |rep.phases.db.backups| == |job.dbs| &&
              forall k :: 0 <= k < |job.dbs| ==>
                rep.phases.db.backups[k] == Dump(job.dbs[k], k, rep.root, env.dumps).result
  {
    PhasesSucceed(rep.phases, job, env, rep.root, true, stop);
  }

  /** The locals before the database loop: `success` is assigned only
      when the files phase connected. */
  function DbLocals(connected: bool): DbState
  {
    DbState(if connected then Some(true) else None, None, [], false, false)
  }

  /** The staging root zipped next to itself: both names carry the same
      timestamp, the archive's with the prefix `backup_` twice. */
  lemma ZipBesideRoot(target: string, stamp: string)
    requires target != [] && !EndsWithSlash(target)
    requires NoSlash(stamp)
    ensures ZipName(BackupDir(target, stamp)) == Join(target, "backup_backup_" + stamp + ".zip")
  {
    var n := "backup_" + stamp;
    assert NoSlash(n) by {
      forall i | 0 <= i < |n| ensures n[i] != '/' {
        if i >= 7 { assert n[i] == stamp[i - 7]; }
      }
    }
    BasenameOfJoin(target, n);
    DirnameOfJoin(target, n);
    assert "backup_" + n + ".zip" == "backup_backup_" + stamp + ".zip";
  }

  class BackupManager {
    var isRunning: bool
    /** Whether `on_complete_callback` is set (`hasattr`). */
    var hasCompletionCallback: bool
    /** The arguments passed to `on_complete_callback`, in order. */
    var completions: seq<string>

    constructor(hasCompletionCallback: bool)
      ensures !isRunning && completions == []
      ensures this.hasCompletionCallback == hasCompletionCallback
    {
      isRunning := false;
      this.hasCompletionCallback := hasCompletionCallback;
      completions := [];
    }

    /** `stop_backup`: clears the flag and reports "Durduruldu". */
    method StopBackup()
      modifies this
      ensures !isRunning
      ensures hasCompletionCallback == old(hasCompletionCallback)
      ensures completions == old(completions) + Notice(hasCompletionCallback, true, Stopped)
    {
      isRunning := false;
      if hasCompletionCallback {
        completions := completions + [Stopped];
      }
    }

    /** `create_complete_backup`: at most one worker at a time. The worker
        itself is `CompleteBackupThread`, started once this returns true. */
    method CreateCompleteBackup() returns (started: bool, message: string)
      modifies this
      ensures started <==> !old(isRunning)
      ensures message == (if started then Started else AlreadyRunning)
      ensures isRunning
      ensures completions == old(completions) && hasCompletionCallback == old(hasCompletionCallback)
    {
      if isRunning {
        return false, AlreadyRunning;
      }
      isRunning := true;
      return true, Started;
    }

    /** `_download_items_ftp` / `_download_items_sftp`: filter the listing,
        then walk it while `is_running` holds. Each item that completes is
        counted (directories and files alike), written to its local path
        and followed by a progress report. */
    method DownloadItems(proto: Protocol, items: seq<Entry>, backupPath: string, pattern: string,
                         ok: Entry -> bool, stop: StopPoint)
      returns (total: nat, attempted: nat, downloaded: nat, progress: seq<nat>, saved: seq<string>)
      modifies this
      ensures total == |FilterItems(items, pattern)|
      ensures attempted == Attempts(old(isRunning), stop, total)
      ensures downloaded == Count(FilterItems(items, pattern)[..attempted], ok)
      ensures progress == Reports(FilterItems(items, pattern)[..attempted], ok, total)
      ensures saved == Saved(proto, backupPath, FilterItems(items, pattern)[..attempted], ok)
      ensures isRunning == (old(isRunning) && !StopsDownload(old(isRunning), stop, total))
      ensures hasCompletionCallback == old(hasCompletionCallback)
      ensures completions ==
                old(completions) + Notice(hasCompletionCallback, StopsDownload(old(isRunning), stop, total), Stopped)
    {
      var filtered := FilterItems(items, pattern);
      total := |filtered|;
      downloaded, progress, saved := 0, [], [];
      var i := 0;
      while i < total
        invariant i <= total
        invariant i > 0 ==> old(isRunning)
        invariant stop.BeforeItem? ==> i <= stop.item
        invariant isRunning == old(isRunning) && completions == old(completions)
        invariant hasCompletionCallback == old(hasCompletionCallback)
        invariant downloaded == Count(filtered[..i], ok)
        invariant progress == Reports(filtered[..i], ok, total)
        invariant saved == Saved(proto, backupPath, filtered[..i], ok)
      {
        if stop == BeforeItem(i) {
          StopBackup();
        }
        if !isRunning {
          break;
        }
        DownloadStep(proto, backupPath, filtered, i, ok, total, downloaded, progress, saved);
        if ok(filtered[i]) {
          downloaded := downloaded + 1;
          saved := saved + [LocalPath(proto, backupPath, filtered[i])];
          progress := progress + [PhaseProgress(i, total)];
        }
        i := i + 1;
      }
      attempted := i;
    }

    /** The database loop: before each dump the flag is read; a raise ends
        the loop (and the worker). */
    method DatabasePhase(dbs: seq<DbConfig>, root: string, dumps: DumpEnv, init: DbState, stop: StopPoint)
      returns (st: DbState, started: nat, stopped: bool)
      modifies this
      requires !init.raised
      ensures DbRan(st, started, stopped, dbs, root, dumps, init, old(isRunning), stop)
      ensures isRunning == (old(isRunning) && !stopped)
      ensures hasCompletionCallback == old(hasCompletionCallback)
      ensures completions == old(completions) + Notice(hasCompletionCallback, stopped, Stopped)
    {
      st, started, stopped := init, 0, false;
      assert dbs[..0] == [];
      while started < |dbs|
        invariant started <= |dbs|
        invariant !st.raised && !stopped
        invariant st == DbRun(dbs[..started], root, dumps, init)
        invariant started > 0 ==> old(isRunning) && !DbRun(dbs[..started - 1], root, dumps, init).raised
        invariant stop.BeforeDatabase? ==> started <= stop.db
        invariant isRunning == old(isRunning) && completions == old(completions)
        invariant hasCompletionCallback == old(hasCompletionCallback)
      {
        if stop == BeforeDatabase(started) {
          StopBackup();
          stopped := true;
        }
        if !isRunning {
          return;
        }
        DbRunStep(dbs, started, root, dumps, init);
        st := DbStep(st, dbs[started], started, root, dumps);
        started := started + 1;
        if st.raised {
          return;
        }
      }
    }

    /** The files phase: connect, create `files` and the directory nested in
        it, list the server, download, close. An exception leaves the
        connection open. */
    method FilesPhase(filesPath: string, pattern: string, env: Environment, stop: StopPoint)
      returns (f: FilesReport)
      modifies this
      ensures FilesRan(f, filesPath, pattern, env, old(isRunning), stop)
      ensures isRunning == (old(isRunning) && !f.stopped)
      ensures hasCompletionCallback == old(hasCompletionCallback)
      ensures completions == old(completions) + Notice(hasCompletionCallback, f.stopped, Stopped)
    {
      var connected := env.connectError.None?;
      var target := BackupDir(filesPath, env.filesStamp);
      // the connection, then `os.makedirs` of `files`, then that of the
      // directory nested in it; the first that fails raises
      if !connected || !env.mkdirOk(filesPath) || !env.mkdirOk(target) {
        f := NoFiles.(raised := true, connected := connected);
        NothingDownloaded(f, target, pattern, env, isRunning, stop);
        return;
      }
      f := ListAndDownload(target, pattern, env, stop);
    }

    /** The connected part of the files phase: the listing from the
        server's root, the download loop when it is not empty, then `quit`
        or `close`. */
    method ListAndDownload(target: string, pattern: string, env: Environment, stop: StopPoint)
      returns (f: FilesReport)
      modifies this
      ensures f.connected && !f.raised && f.closed
      ensures f.listed == Scan(env.server, ListingRoot(env.server), env.depth)
      ensures f.stopped ==> stop.BeforeItem?
      ensures Downloaded(f, target, pattern, env, old(isRunning), stop)
      ensures isRunning == (old(isRunning) && !f.stopped)
      ensures hasCompletionCallback == old(hasCompletionCallback)
      ensures completions == old(completions) + Notice(hasCompletionCallback, f.stopped, Stopped)
    {
      var running := isRunning;
      var listed;
      match env.server {
        case Ftp(ftp) =>
          listed := FtpListRecursive(ftp, "", env.depth);
        case Sftp(sftp) =>
          listed := SftpListRecursive(sftp, ".", env.depth);
      }
      f := NoFiles.(connected := true, listed := listed, closed := true);
      if listed == [] {
        NothingDownloaded(f, target, pattern, env, running, stop);
        return;
      }
      var total, attempted, downloaded, progress, saved :=
        DownloadItems(ProtocolOf(env.server), listed, target, pattern, env.itemOk, stop);
      f := f.(total := total, attempted := attempted, downloaded := downloaded, progress := progress,
              saved := saved, stopped := StopsDownload(running, stop, total));
    }

    /** The end of the worker: the exception handler reports "Başarısız";
        the normal path reports "Tamamlandı" only while the flag still
        holds; the `finally` clears the flag. */
    method Finish(rep: Report) returns (done: Report)
      modifies this
      ensures done == rep.(outcome := OutcomeOf(rep.phases.failure, old(isRunning)))
      ensures !isRunning
      ensures hasCompletionCallback == old(hasCompletionCallback)
      ensures completions == old(completions) + Announce(hasCompletionCallback, done.outcome)
    {
      done := rep.(outcome := OutcomeOf(rep.phases.failure, isRunning));
      if hasCompletionCallback && done.outcome.Some? {
        completions := completions + [done.outcome.value];
      }
      isRunning := false;
    }

    /** The worker up to and including its two checks: the staging root,
        the files phase, the database phase, then the critical-error and
        cancellation checks. */
    method RunPhases(job: Job, env: Environment, stop: StopPoint, root: string) returns (ph: Phases)
      modifies this
      ensures PhasesRan(ph, job, env, root, old(isRunning), stop)
      ensures isRunning == (old(isRunning) && !ph.stopped)
      ensures hasCompletionCallback == old(hasCompletionCallback)
      ensures completions == old(completions) + Notice(hasCompletionCallback, ph.stopped, Stopped)
    {
      ghost var running := isRunning;
      var failure, files := FilesStage(job, env, stop, root);
      if failure != NoFailure {
        return Phases(failure, files, 0, DbLocals(files.connected), false, files.stopped);
      }
      var dbFailure, started, db, dbStopped, stoppedLater := DatabaseStage(job, env, stop, root, files.connected);
      NoticeEither(hasCompletionCallback, files.stopped, stoppedLater, Stopped);
      ph := Phases(dbFailure, files, started, db, dbStopped, files.stopped || stoppedLater);
      StagesRunOn(ph, stoppedLater, job, env, root, running, stop);
    }

    /** The staging root and, in a mode that includes files, the files phase. */
    method FilesStage(job: Job, env: Environment, stop: StopPoint, root: string)
      returns (failure: Failure, files: FilesReport)
      modifies this
      ensures FilesStaged(failure, files, job, env, root, old(isRunning), stop)
      ensures failure != NoFailure ==>
                PhasesRan(Phases(failure, files, 0, DbLocals(files.connected), false, files.stopped),
                          job, env, root, old(isRunning), stop)
      ensures isRunning == (old(isRunning) && !files.stopped)
      ensures hasCompletionCallback == old(hasCompletionCallback)
      ensures completions == old(completions) + Notice(hasCompletionCallback, files.stopped, Stopped)
    {
      files := NoFiles;
      if !env.mkdirOk(root) {
        failure := RootNotCreated;
      } else {
        failure := NoFailure;
        if FilesMode(job.backupType) {
          files := FilesPhase(Join(root, "files"), job.pattern, env, stop);
          if files.raised {
            failure := FilesFailed;
          }
        }
      }
      if failure != NoFailure {
        StagesEndEarly(failure, files, job, env, root, old(isRunning), stop);
      }
    }

    /** In a mode that includes databases, the database loop; then the
        stop window before the checks, and the checks themselves. */
    method DatabaseStage(job: Job, env: Environment, stop: StopPoint, root: string, connected: bool)
      returns (failure: Failure, started: nat, db: DbState, dbStopped: bool, stopped: bool)
      modifies this
      ensures DbStaged(failure, started, db, dbStopped, stopped, job, env, root, connected, old(isRunning), stop)
      ensures isRunning == (old(isRunning) && !stopped)
      ensures hasCompletionCallback == old(hasCompletionCallback)
      ensures completions == old(completions) + Notice(hasCompletionCallback, stopped, Stopped)
    {
      started, db, dbStopped := 0, DbLocals(connected), false;
      if DbMode(job.backupType) && job.dbs != [] {
        db, started, dbStopped := DatabasePhase(job.dbs, root, env.dumps, db, stop);
        if db.raised {
          return DbRaised, started, db, dbStopped, dbStopped;
        }
      }
      stopped := dbStopped;
      if stop == BeforeChecks {
        StopBackup();
        NoticeEither(hasCompletionCallback, dbStopped, true, Stopped);
        stopped := true;
      }
      if db.critical {
        return CriticalDb, started, db, dbStopped, stopped;
      }
      if !isRunning {
        return Cancelled, started, db, dbStopped, stopped;
      }
      failure := NoFailure;
    }

    /** `_create_complete_backup_thread`. */
    method CompleteBackupThread(job: Job, env: Environment, stop: StopPoint) returns (rep: Report)
      modifies this
      ensures WorkerRan(rep, job, env, old(isRunning), stop)
      ensures !isRunning
      ensures hasCompletionCallback == old(hasCompletionCallback)
      ensures completions == old(completions) + Notice(hasCompletionCallback, rep.stopped, Stopped)
                               + Announce(hasCompletionCallback, rep.outcome)
    {
      var root := BackupDir(job.targetPath, env.stamp);
      var ph := RunPhases(job, env, stop, root);
      var archive: Option<ZipJob> := None;
      var removed := false;
      var stopped := ph.stopped;
      if ph.failure == NoFailure {
        var stoppedNow;
        archive, removed, stoppedNow := ArchiveStage(job, env, stop, root, ph.files.connected, ph.db.backups);
        stopped := stoppedNow;
      }
      rep := Finish(Report(root, ph, archive, removed, stopped, None));
    }

    /** After the checks: the stop window during the archive, then, when
        requested, the ZIP of the files directory (when the files phase
        connected) and the dump files, and the removal of the staging root
        once the ZIP succeeded. */
    method ArchiveStage(job: Job, env: Environment, stop: StopPoint, root: string, connected: bool,
                        backups: seq<string>)
      returns (archive: Option<ZipJob>, removed: bool, stopped: bool)
      modifies this
      ensures stopped == (stop == AfterChecks)
      ensures archive.Some? <==> job.createZip
      ensures archive.Some? ==>
                archive.value == ZipJob(ZipSources(root, connected, backups), ZipName(root))
      ensures removed <==> archive.Some? && env.zipFailure.None?
      ensures isRunning == (old(isRunning) && !stopped)
      ensures hasCompletionCallback == old(hasCompletionCallback)
      ensures completions == old(completions) + Notice(hasCompletionCallback, stopped, Stopped)
    {
      archive, removed, stopped := None, false, false;
      if stop == AfterChecks {
        StopBackup();
        stopped := true;
      }
      if job.createZip {
        var sources := ZipSources(root, connected, backups);
        var ok, result, archived, total, processed :=
          CreateZipArchive(sources, ZipName(root), env.localFs, env.zipFailure);
        archive := Some(ZipJob(sources, ZipName(root)));
        removed := ok;
      }
    }
  }
}
