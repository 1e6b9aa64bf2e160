# FileZilla full backup system: a Dafny model of the backup engine

This project models the core of a desktop backup tool written in Python. The
tool copies a remote FTP or SFTP file tree to a local staging directory. It
also dumps the configured MySQL and PostgreSQL databases next to that tree and
can pack both into one ZIP archive. Around that engine sit a few calculations
in the window class and the server-list imports of the configuration manager.
The model covers them too.

Modules, in dependency order:

- `Seqs` holds `Option`, the loop-append filter, the subsequence relation, counting and sums.
- `Text` holds `str.split()` and `' '.join`, ASCII `lower()`, substring search and decimal printing.
- `Paths` holds `posixpath.join`, `basename`, `dirname`, and the two path clean-ups the listings apply.
- `Glob` holds `fnmatch.fnmatch` on POSIX.
- `FtpList` reads one line of an FTP `LIST` reply.
- `Inventory` holds the recursive FTP and SFTP listings (`_ftp_list_recursive`, `_sftp_list_recursive`) and `_filter_items`.
- `Databases` holds the tool checks and results of `backup_mysql` and `backup_postgresql`.
- `Archive` holds `ArchiveManager.create_zip_archive` and `_count_files`.
- `Backup` holds the class `BackupManager`: the `is_running` flag, `stop_backup`, the single-flight `create_complete_backup`, the two download loops and the worker `_create_complete_backup_thread`.
- `Gui` holds `handle_byte_progress`, the checks and the database selection of `start_backup`, the `update_progress` percentage and `filter_servers`.
- `Config` holds the class `ConfigManager` with `import_servers` and `import_from_filezilla`.

Code that changes state in place is modelled by classes whose methods carry
`modifies` clauses. That covers the backup manager's flag and its
completion notices, the window's byte counters, and the saved server list.
Each loop of the source is a `while`/`for` loop proved against a function:
- the listings against `Scan`;
- the download loop against `Count`, `Reports` and `Saved`;
- the database loop against `DbRun`;
- the merges against `MergeNew` and `ImportNamed`.

The world outside the process is made of parameters, as oracles:
- the servers' replies;
- whether a directory can be created, a download completes, or a dump fails;
- which tools are on the `PATH`;
- the local file system seen by the archive walk;
- the timestamps.

Where the interface thread calls `stop_backup` is a parameter of the worker. It
is a `StopPoint`: before a given download item, before a given database, just
before the worker's final checks, or after them.

Behaviours of the code a reader might not expect:
- A stop request is not a terminal outcome of its own. `stop_backup` reports
  "Durduruldu". Unless the stop lands during the archive, the worker then
  raises and reports "Başarısız" as well (`WorkerOutcome`).
- A run sends two completion notices after a stop. With no callback set it
  sends none, and the window never sets one.
- The download progress lies in 25..89 (`ReportsInOrder`).
- The connection is closed only on the normal path. An exception in the files
  phase leaves it open (`FilesPhase`).
- The files land in `<root>/files/backup_<stamp>/...`: the files phase creates
  a second timestamped directory inside `<root>/files`. The PostgreSQL dump is
  named `pgsql_backup_<stamp>.sql`.
- When the stack allows no further nesting, the FTP listing stops at the
  first directory. The SFTP listing catches the overflow per item and still
  lists every item of the directory (`SftpTooDeepListsAll`).

Behaviours of the code as written that the model exhibits:
- `UnknownKindFirstRaises` and `UnknownKindRepeatsResult`: a database of
  another kind reuses the stale `success`/`result` locals.
- `FtpAbsolutePathEscapes`: a `LIST` name starting with `/` escapes the backup directory.
- `SymlinkNameKeepsTarget`: an FTP symbolic link keeps its ` -> target` in its name.
- `SftpNewFileUnnoticed`: a new SFTP file is missed when its first sample is
  not below the previous one.
- `StarDotStarKeepsEveryFile`: the pattern `*.*` keeps files without a dot.

## Model

| member | source | states |
|---|---|---|
| Inventory.FtpListRecursive | backup_manager.py:171-207 | The FTP listing returns exactly `Scan` of the server from `path`. That is a pre-order list of `(path, isDir)` entries, each directory followed by everything below it. A failed `LIST` gives nothing. Lines with fewer than nine fields are skipped, and so are `.` and `..`. A nested call beyond the stack depth ends the listing that made it, keeping what it had collected. |
| Inventory.FtpVisit | backup_manager.py:192-202 | One listed FTP name contributes its own entry and, for a directory, the nested listing of its joined path right after it. |
| Inventory.SftpListRecursive | backup_manager.py:209-235 | The SFTP listing returns exactly `Scan` of the server from `path`. An item whose `stat` raises is skipped and the loop goes on. A failed `listdir` gives nothing. A directory whose nested call overflows the stack keeps its own entry, and the loop goes on with its siblings. |
| Inventory.SftpVisit | backup_manager.py:215-226 | One stated SFTP item contributes its entry and, for a directory (mode bit `0o40000`), the nested listing right after it. |
| Inventory.ChildPathOfClean | backup_manager.py:192 | Joining a name without separators onto a listing directory gives a path whose `dirname` is that directory. |
| Inventory.ScanParentsPrecede | backup_manager.py:195-199 | For a server whose every listed name is non-empty and holds no `/` and no `\`, the listing is pre-order: every entry's parent directory is the listing root or a directory entry that comes earlier. |
| Inventory.SymlinkNameKeepsTarget | backup_manager.py:181-187 | The `LIST` line `lrwxrwxrwx 1 u g 9 Jan 1 00:00 www -> /var/www` yields a file named `www -> /var/www`, target included. |
| Inventory.SymlinkNameNotClean | backup_manager.py:192 | That name holds a `/`. The parent of its joined path at the FTP root is `www -> /var`, which is not the listing root. |
| Inventory.ScanSatisfies | backup_manager.py:171-235 | Any property that every name a server lists has, at its joined path, holds for every entry of the recursive listing. |
| Inventory.SftpEntriesStated | backup_manager.py:217-230 | Every SFTP entry is a path whose `stat` succeeded. It is flagged as a directory exactly when its mode has the directory bit. |
| Inventory.CollectedKeptWhenTooDeep | backup_manager.py:204-207 | When no further nesting is possible, an FTP listing returns the entries before the first directory, then that directory's entry, and nothing after it. |
| Inventory.SftpTooDeepListsAll | backup_manager.py:217-230 | When no further nesting is possible, an SFTP listing holds as many entries as the directory has items whose `stat` succeeded, and each of those items appears at its joined path. |
| Inventory.SftpTooDeepListsOnlyItems | backup_manager.py:217-230 | When no further nesting is possible, every entry of an SFTP listing is the entry of one of the directory's stated items. |
| Inventory.FilterItems | backup_manager.py:324-340 | The filter never returns more entries than it was given. |
| Inventory.FilterItemsKeeps | backup_manager.py:329-340 | For a pattern other than `*.*` and the empty one, an entry is kept if and only if it was listed and it is a directory or its base name glob-matches the pattern. |
| Inventory.FilterItemsIsSubsequence | backup_manager.py:324-340 | The filter only deletes entries. It never reorders or invents them. |
| Inventory.FilterItemsKeepsDirectories | backup_manager.py:331-333 | Every listed directory survives every pattern. |
| Inventory.StarDotStarKeepsEveryFile | backup_manager.py:326-327 | `*.*` keeps the whole listing, although as a glob it matches only names containing a dot. |
| Glob.LiteralPatternMatchesOnlyItself | backup_manager.py:336-337 | A pattern without `*`, `?` or `[` matches a base name if and only if the name equals it. |
| Glob.StarSuffixMatchesEndings | backup_manager.py:336-337 | `*` followed by a wildcard-free suffix matches exactly the names ending with that suffix. |
| Glob.StarMatchesEverything | backup_manager.py:336-337 | `*` matches every base name. |
| FtpList.ParseWellFormedLine | backup_manager.py:180-202 | A line made of at least nine single-space-separated fields yields the ninth field onwards as the name. It is a directory exactly when the permission field starts with `d`. |
| FtpList.ShortLineSkipped | backup_manager.py:181-183 | A line with fewer than nine fields is skipped. |
| FtpList.NameSpacesCollapse | backup_manager.py:181-187 | Runs of blanks inside a listed name read as one space. The recorded name differs from the remote one. |
| Text.SplitJoinRoundTrip | backup_manager.py:181-187 | Splitting fields joined by single spaces, followed by a blank or nothing, gives those fields back. |
| Databases.BackupMysql | backup_manager.py:367-410 | The MySQL dump succeeds if and only if `mysqldump` is on the `PATH` and neither the connection nor the dump raises. |
| Databases.BackupPostgresql | backup_manager.py:412-447 | The PostgreSQL dump succeeds if and only if `pg_dump` is on the `PATH` and the dump does not raise. |
| Databases.MissingToolAttemptsNothing | backup_manager.py:370-373 | Without the tool, the result is the fixed error message, whatever the database would have done. |
| Databases.DumpFileLocation | backup_manager.py:388-389 | A dump file lies directly in the backup directory, under `<prefix><stamp>.sql`. |
| Archive.CreateZipArchive | backup_manager.py:507-541 | The archive succeeds if and only if `zipfile` raises nothing. On success the members are exactly those of the sources in order: each file below a directory under its relative name, each regular file under its base name, nothing for a missing path. The processed count equals the count taken beforehand. On failure the result is the exception's text. |
| Archive.CountFiles | backup_manager.py:543-552 | The pre-count is the number of files below each directory plus one per regular file. |
| Archive.WalkDirectory | backup_manager.py:517-527 | The walk of one directory appends one member per file found and counts each one. |
| Archive.MembersCounted | backup_manager.py:513-533 | The count taken before writing equals the number of members written. |
| Archive.DirectoryMembers | backup_manager.py:519-525 | A directory source contributes one member per file below it. |
| Archive.SourceMembers | backup_manager.py:516-534 | Each source contributes as many members as the count gives it. |
| Archive.ArcNameRoundTrip | backup_manager.py:521-522 | A file below `<parent>/<name>` is stored as `<name>/<rel>`. Joining that name onto the parent restores the original path. |
| Backup.PhaseProgressBounds | backup_manager.py:273-274 | Every per-item progress value lies in 25..89. |
| Backup.PhaseProgressMonotone | backup_manager.py:273-274 | Per-item progress never decreases as the loop advances. |
| Backup.ReportsInOrder | backup_manager.py:268-274 | There is one report per completed item. Reports lie in 25..89, never exceed the progress of the last item started, and never decrease. |
| Backup.SftpPathInside | backup_manager.py:294-295 | An SFTP item is written below the backup directory, whatever separators its remote path starts with. |
| Backup.FtpAbsolutePathEscapes | backup_manager.py:186-250 | A `LIST` line whose name field starts with `/` gives, in whatever directory it is listed, that name as the item path. That path then replaces the backup directory in the local join. |
| Backup.FailedDumpIsCritical | backup_manager.py:618-631 | A failing dump of a known kind ends in the critical-error flag, or in a raise, whatever follows it. |
| Backup.AllDumpsSucceed | backup_manager.py:618-631 | When every database is of a known kind and every dump succeeds, no error is recorded. Each database adds its own dump file, in order. |
| Backup.UnknownKindFirstRaises | backup_manager.py:622-627 | A database of another kind before any dump reads an unassigned local and raises. |
| Backup.UnknownKindRepeatsResult | backup_manager.py:622-628 | After a successful dump, a database of another kind appends the same dump file again. |
| Backup.ZipBesideRoot | backup_manager.py:641-642 | The archive of `<target>/backup_<stamp>` is `<target>/backup_backup_<stamp>.zip`. |
| Backup.BackupManager.constructor | backup_manager.py:16-19 | A new manager is not running and has sent no completion notice. |
| Backup.BackupManager.StopBackup | backup_manager.py:38-43 | Stopping clears the flag and sends "Durduruldu" when a completion callback is set. |
| Backup.BackupManager.CreateCompleteBackup | backup_manager.py:564-573 | A run starts if and only if none is running, with the matching message. The flag is set afterwards. |
| Backup.BackupManager.DownloadItems | backup_manager.py:237-322 | The loop covers the filtered listing while the flag holds. It starts `Attempts` items, counts those that complete, and writes them to their local paths. It reports their progress. A stop before item `k` clears the flag and sends one "Durduruldu". |
| Backup.BackupManager.DatabasePhase | backup_manager.py:616-631 | The locals after the database loop are `DbRun` of the databases it started. It starts a database only while the flag holds and no earlier dump raised. It ends after the whole list, on a raise, or on a cleared flag. It stops there if and only if the stop lands before database `started` and nothing raised; the flag then ends cleared with one "Durduruldu". |
| Backup.BackupManager.FilesPhase | backup_manager.py:592-613 | The phase connects if and only if the connection succeeds. It raises if and only if the connection or one of the two directory creations fails, and then it lists and downloads nothing. It closes the connection if and only if it did not raise. Otherwise the listing is `Scan` from `""` (FTP) or `"."` (SFTP). The loop starts `Attempts` items of the filtered listing, completes `Count` of them, and reports and saves them as `DownloadItems` states. A stop in the phase lands only before an item. |
| Backup.BackupManager.ListAndDownload | backup_manager.py:121-166 | Once connected, the listing is `Scan` from the protocol's root. An empty listing downloads nothing. Otherwise the started, completed, reported and saved items are those of the download loop on the filtered listing. The connection is then closed. |
| Backup.BackupManager.Finish | backup_manager.py:658-666 | The handler reports "Başarısız". The normal path reports "Tamamlandı" only while the flag holds. The flag ends cleared. |
| Backup.BackupManager.RunPhases | backup_manager.py:582-636 | The files phase runs exactly when the staging root exists in `files_only`/`full_backup`, as `FilesPhase` states. The database loop runs exactly when nothing raised before it, in `db_only`/`full_backup` with a non-empty list, as `DatabasePhase` states, with the flag the files phase left. The failure is the first exception in source order: no root, the files phase, a dump that raises, the critical-error flag, a cleared flag. |
| Backup.BackupManager.FilesStage | backup_manager.py:583-613 | The staging root is created first, and a failure there is the exception. Once it exists, the files phase runs as `FilesPhase` states exactly in a mode that includes files, and a raise there is the exception. Otherwise nothing is fetched. |
| Backup.BackupManager.DatabaseStage | backup_manager.py:615-636 | In a mode that includes databases, with a non-empty list, the database loop runs as `DatabasePhase` states; otherwise nothing is dumped. A stop just before the checks stops the run when no dump raised. The failure is a dump's raise, then the critical-error flag, then a cleared flag. |
| Backup.FailedDumpFailsRun | backup_manager.py:616-634 | A failing dump of a known kind among those the loop started makes the body raise, whatever the other databases did. |
| Backup.PhasesFail | backup_manager.py:583-636 | A failing dump of a known kind among those started, a failed connection in a mode that includes files, or a staging root that cannot be created makes the body raise. |
| Backup.PhasesSucceed | backup_manager.py:583-636 | With the flag set, no stop before the archive, every directory creation and the connection succeeding, and every dump of a known kind succeeding, nothing raises and nothing stops. A mode with files connects and closes. A mode with databases starts every database and keeps one dump file per database, in order. |
| Backup.BackupManager.CompleteBackupThread | backup_manager.py:576-666 | The run is `WorkerRan`. The staging root is `<target>/backup_<stamp>` and the phases run as `RunPhases` states. Without an exception, the stop window after the checks comes next. A zip is built if and only if nothing raised and one was requested. It is named `dirname(root)/backup_<basename(root)>.zip` and holds the files directory (when connected) and the dump files. The staging root is removed if and only if the zip succeeds. "Başarısız" is reported on an exception, otherwise "Tamamlandı" while the flag holds. The flag is false on exit, and the notices are the stop notice, then the outcome. |
| Backup.BackupManager.ArchiveStage | backup_manager.py:638-656 | A ZIP job is made if and only if one was requested. Its sources are the files directory when connected, then the dump files, and its name is `dirname(root)/backup_<basename(root)>.zip`. The staging root is removed if and only if the ZIP succeeds. A stop there clears the flag and sends one "Durduruldu". |
| Backup.WorkerOutcome | backup_manager.py:576-666 | "Başarısız" is reported if and only if the body raised, and then no archive is made and nothing is removed. A failing dump of a known kind among those started, a failed connection in a mode with files, or a root that cannot be created each lead to it. Without an exception, "Tamamlandı" is reported if and only if no stop came. A stopped run never reports "Tamamlandı". |
| Backup.WorkerSucceeds | backup_manager.py:576-666 | With the flag set, no stop, every creation, the connection and every dump succeeding, and a ZIP that succeeds, the worker reports "Tamamlandı" and removes the staging root. The archive holds the files directory (in a mode with files), then every dump file in order. |
| Gui.SftpStepAccounts | gui.py:1812-1821 | Each SFTP sample grows `session + last` by exactly the increment it reports and sets `last` to the sample. For counts that are never negative, the increment is never negative and the session total never decreases. |
| Gui.SftpRunAccounts | gui.py:1812-1821 | Over any run of non-negative samples, `session + last` grows by the sum of the increments reported, one per sample. Every increment is non-negative and the session total never decreases. |
| Gui.SftpRunExample | gui.py:1814-1821 | From (0, 0), the samples 100, 300, 50 report 100, 200, 50 and leave 300 in the session total. |
| Gui.SftpNewFileUnnoticed | gui.py:1815-1821 | A new file whose first sample is not below the last count is taken for the same file, so the previous file's bytes never reach the session total. |
| Gui.SelectionIsTicked | gui.py:1694-1698 | The selected databases keep the server's order. A database is selected if and only if the type dumps databases, it belongs to the server, and its checkbox exists and is ticked. |
| Gui.SelectDatabases | gui.py:1694-1698 | The selection loop computes exactly that selection. |
| Gui.CheckSmtp | gui.py:1715-1720 | The SMTP check passes if and only if none of the five required fields is empty. |
| Gui.Percentage | gui.py:1796-1798 | The percentage is the floor of `100 * value / max` when `max > 0`, at most 100 when `value <= max`, and 0 when `max <= 0`. |
| Gui.FilterServersMatches | gui.py:1208-1218 | The listed servers keep their order. A server is listed if and only if its lower-cased name contains the lower-cased search term. |
| Gui.EmptySearchListsAll | gui.py:1209-1217 | An empty search lists every server. |
| Gui.ModernBackupMaster.constructor | gui.py:213-218 | The window starts with no operation running and both byte counters at 0. |
| Gui.ModernBackupMaster.HandleByteProgress | gui.py:1810-1823 | An SFTP sample moves the counters and reports the increment as `SftpStep` says. An FTP chunk is reported as it is and leaves both counters unchanged. |
| Gui.ModernBackupMaster.StartBackup | gui.py:1682-1731 | With no server or no target, nothing changes. Otherwise the operation flag is raised first. It ends early with no database selected (types that dump databases) or with an empty SMTP field (when mailing), and the flag stays raised. Otherwise it launches with the selection and resets both byte counters to 0. |
| Config.MergeKeepsPrefix | config.py:66-70 | The existing list stays unchanged at the front of the merged list. |
| Config.MergeMembers | config.py:68-70 | The merged list holds exactly the existing and the imported records. |
| Config.MergeNoDuplicates | config.py:68-70 | No record is appended twice or when already present, so a list without duplicates stays without them. |
| Config.MergeIdempotent | config.py:60-72 | Importing the same file twice gives the list the first import gave. |
| Config.ConfigManager.ImportServers | config.py:60-75 | An unreadable file reports the error and saves nothing. Otherwise the saved list becomes `MergeNew` of the loaded list and the file. The message reports the number of records in the file, however many were appended. |
| Config.FromXml | config.py:86-95 | Missing elements default to name `FileZilla_Server`, host `''`, port `'21'`, user and password `''`, and web root `'/'`. Protocol is always `ftp` and databases `[]`. |
| Config.FirstFree | config.py:97-102 | The suffix chosen is the least whose candidate name is free, and it is at most the number of names taken. |
| Config.FreeNameKept | config.py:98-100 | A free original name is kept. |
| Config.TakenNameSuffixed | config.py:97-102 | A taken name becomes `<original>_k` for the least free `k >= 1`, always built from the original, with `k` at most the length of the list. |
| Config.ConfigManager.ChooseName | config.py:97-102 | The renaming loop ends with the chosen free name and a counter of at most the list length plus one. |
| Config.ImportNamedAppends | config.py:85-105 | The existing list stays in front. One record is appended per element: the element's record with defaults, under a name no earlier record in the list has. |
| Config.UniqueNamesStayUnique | config.py:99-104 | A list with unique names keeps unique names after a FileZilla import. |
| Config.ConfigManager.ImportFromFileZilla | config.py:77-114 | An unreadable file, or one with no `Server` element, reports the matching message and saves nothing. Otherwise the list with every element appended and renamed is saved, and the count reported equals the number of elements. |

## Left out

- Gui.Percentage: computes the exact floor of `100 * value / max`. The source's float expression `int((value / max_value) * 100)` can be one lower: for 29 of 100 it gives 28.
- Backup.PhaseProgressBounds: the progress `25 + (i / total) * 65` is taken on exact rationals. Float rounding in the source's expression is not modelled.
- Logging, and the fixed progress values the worker reports (10, 20, 25, 90, 95, 100): these are observer calls with no effect on the run.
- Threads: the worker is one sequential method. A stop from the interface thread is a `StopPoint` parameter placed at one of the worker's reads of the flag.
- Inventory.ScanParentsPrecede: holds only for servers whose listed names are non-empty and hold no `/` and no `\`. An FTP symbolic link line such as `lrwxrwxrwx 1 u g 9 Jan 1 00:00 www -> /var/www` yields the name `www -> /var/www` (`SymlinkNameKeepsTarget`), whose joined path has the parent `www -> /var` (`SymlinkNameNotClean`). An SFTP name holding `\` is split into extra directories by the backslash replacement.
- Python's recursion limit is the `depth` parameter of the listings: how many nested calls the stack still allows.
- Remote servers, `zipfile`, `os.walk`, `os.makedirs`, `shutil.which`, `mysql.connector` and `subprocess` are oracles given as parameters. So are the timestamps, per dump and per directory.
- `os.path` is modelled with POSIX semantics only; Windows `ntpath` is left out. `relpath` is modelled for paths below the source as the source's base name joined with the relative path, without normalising `..` or `.`.
- Backup.BackupManager.CompleteBackupThread: `shutil.rmtree` and `conn.quit()`/`conn.close()` are assumed not to raise. A failing ZIP is reported without the members written before the failure.
- The archive includes the files directory exactly when the connection succeeded. In the source, the files phase then always creates a directory inside it, so the `os.listdir` test holds.
- A database entry without a `type` key (`KeyError`), and `port` values that `int()` rejects, fold into the dump's failure oracle or are not modelled.
- The GUI branches at gui.py:1750 and gui.py:1753: they call methods that `AdvancedBackupManager` does not have. Only the full backup dispatch is modelled, through `CompleteBackupThread`.
- Gui.ModernBackupMaster.StartBackup: an empty `current_server` dict (falsy in Python) cannot arise with a record type. The history record, the file-progress reset, and building and starting the manager and its thread are left out.
- The throughput computation of `handle_byte_progress` (gui.py:1825-1831) and `update_speed`: these are wall-clock time and float formatting.
- Gui.FilterServersMatches: lower-casing is ASCII only. Python's `str.lower()` also folds non-ASCII letters.
- Config.ConfigManager.ImportServers: JSON records are fixed-field `Server` values. Extra keys, and JSON that is not a list of objects, are not modelled.
- Config.ConfigManager.ImportFromFileZilla: an element that is present but has no text (Python `None`) is not modelled. Only present-with-text and absent are.
- Encryption, `save_servers`/`load_servers` file I/O and `export_servers`: the decrypted server file is the field `stored`. An unreadable file loads as the empty list.
- History (sqlite), e-mail (smtplib), restore, the scheduler, the legacy `_backup_thread`, the demo manager and all widget code are not part of this model.
