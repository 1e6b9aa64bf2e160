/** The two database dumps of the backup: `mysqldump` and `pg_dump`, each
    guarded by a check that the tool is on the `PATH`. The connection and
    the dump itself are one success-or-error oracle; the file name carries
    the timestamp of the moment the dump starts. */
module Databases {
  import opened Seqs
  import opened Paths

  /** One configured database of a server. */
  datatype DbConfig = DbConfig(
    name: string,
    kind: string,      // "mysql", "postgresql", or anything else
    host: string,
    port: string,
    username: string,
    password: string,
    database: string)

  /** What a dump call returns: `(success, result)`, the result being the
      dump file on success and an error text otherwise. */
  datatype DumpResult = DumpResult(success: bool, result: string)

  const MysqldumpMissing: string :=
    "❌ 'mysqldump' komutu bulunamadı. Lütfen MySQL/MariaDB client araçlarının yüklü ve sistem PATH'inde olduğundan emin olun."
  const PgDumpMissing: string :=
    "❌ 'pg_dump' komutu bulunamadı. Lütfen PostgreSQL client araçlarının yüklü ve sistem PATH'inde olduğundan emin olun."

  /** The file a dump writes: `<backupPath>/<prefix><stamp>.sql`. */
  function DumpFile(backupPath: string, prefix: string, stamp: string): string
  {
    Join(backupPath, prefix + stamp + ".sql")
  }

  /** `DatabaseManager.backup_mysql(db, backupPath)`. `onPath` says which
      commands `shutil.which` finds; `failure` is the text of the exception
      the connection or the dump raised, if any. */
  function BackupMysql(db: DbConfig, backupPath: string, stamp: string,
                       onPath: string -> bool, failure: Option<string>): (r: DumpResult)
    ensures r.success <==> onPath("mysqldump") && failure.None?
  {
    if !onPath("mysqldump") then DumpResult(false, MysqldumpMissing)
    else match failure
      case Some(e) => DumpResult(false, e)
      case None => DumpResult(true, DumpFile(backupPath, "mysql_backup_", stamp))
  }

  /** `DatabaseManager.backup_postgresql(db, backupPath)`. */
  function BackupPostgresql(db: DbConfig, backupPath: string, stamp: string,
                            onPath: string -> bool, failure: Option<string>): (r: DumpResult)
    ensures r.success <==> onPath("pg_dump") && failure.None?
  {
    if !onPath("pg_dump") then DumpResult(false, PgDumpMissing)
    else match failure
      case Some(e) => DumpResult(false, e)
      case None => DumpResult(true, DumpFile(backupPath, "pgsql_backup_", stamp))
  }

  /** Without the tool nothing is attempted: the result is the fixed
      message whatever the database would have done. */
  lemma MissingToolAttemptsNothing(db: DbConfig, backupPath: string, stamp: string,
                                   onPath: string -> bool, f1: Option<string>, f2: Option<string>)
    ensures !onPath("mysqldump") ==>
      BackupMysql(db, backupPath, stamp, onPath, f1) == BackupMysql(db, backupPath, stamp, onPath, f2)
        == DumpResult(false, MysqldumpMissing)
    ensures !onPath("pg_dump") ==>
      BackupPostgresql(db, backupPath, stamp, onPath, f1) == BackupPostgresql(db, backupPath, stamp, onPath, f2)
        == DumpResult(false, PgDumpMissing)
  {
  }

  /** A successful dump lands directly in the backup directory, under a
      name that carries the kind of database and the timestamp. */
  lemma DumpFileLocation(backupPath: string, prefix: string, stamp: string)
    requires NoSlash(prefix) && NoSlash(stamp)
    requires backupPath != [] && !EndsWithSlash(backupPath)
    ensures Basename(DumpFile(backupPath, prefix, stamp)) == prefix + stamp + ".sql"
    ensures Dirname(DumpFile(backupPath, prefix, stamp)) == backupPath
  {
    var n := prefix + stamp + ".sql";
    assert NoSlash(n) by {
      forall i | 0 <= i < |n| ensures n[i] != '/' {
        if i < |prefix| { assert n[i] == prefix[i]; }
        else if i < |prefix| + |stamp| { assert n[i] == stamp[i - |prefix|]; }
      }
    }
    BasenameOfJoin(backupPath, n);
    DirnameOfJoin(backupPath, n);
  }
}
