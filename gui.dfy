/** The parts of `ModernBackupMaster` that compute rather than draw: the byte
    counters fed by the download callbacks, the checks and the database
    selection that start a backup, the progress percentage and the server
    search. Widgets are replaced by the values read from them. */
module Gui {
  import opened Seqs
  import opened Text
  import opened Databases
  import opened Config
  import Backup

  // ---------------------------------------------------------------------
  // Byte accounting
  // ---------------------------------------------------------------------

  /** `last_bytes_transferred` and `total_bytes_transferred_session`. */
  datatype ByteState = ByteState(last: int, session: int)

  /** The counters after one callback, and the increment it reports. */
  datatype Step = Step(next: ByteState, increment: int)

  /** One SFTP sample: the bytes of the current file transferred so far.
      A sample below the previous one is read as the start of a new file,
      whose predecessor's last count moves into the session total. */
  function SftpStep(st: ByteState, sample: int): Step
  {
    if sample - st.last < 0 then Step(ByteState(sample, st.session + st.last), sample)
    else Step(ByteState(sample, st.session), sample - st.last)
  }

  /** Every SFTP step keeps `session + last` equal to what it was plus the
      increment reported; for counts that are never negative the increment
      is never negative and the session total never decreases. */
  lemma SftpStepAccounts(st: ByteState, sample: int)
    ensures SftpStep(st, sample).next.session + SftpStep(st, sample).next.last
            == st.session + st.last + SftpStep(st, sample).increment
    ensures SftpStep(st, sample).next.last == sample
    ensures sample >= 0 && st.last >= 0 ==>
      SftpStep(st, sample).increment >= 0 && SftpStep(st, sample).next.session >= st.session
  {
  }

  /** The counters after a run of SFTP samples, and the increments reported. */
  datatype Run = Run(state: ByteState, increments: seq<int>)

  function SftpRun(st: ByteState, samples: seq<int>): Run
    decreases |samples|
  {
    if samples == [] then Run(st, [])
    else
      var before := SftpRun(st, samples[..|samples| - 1]);
      var step := SftpStep(before.state, samples[|samples| - 1]);
      Run(step.next, before.increments + [step.increment])
  }

  /** Over any run of non-negative samples, `session + last` grows by
      exactly the sum of the increments reported, one per sample, none of
      them negative, and the session total never decreases. */
  lemma {:induction false} SftpRunAccounts(st: ByteState, samples: seq<int>)
    requires st.last >= 0
    requires forall i :: 0 <= i < |samples| ==> samples[i] >= 0
    ensures var r := SftpRun(st, samples);
      && |r.increments| == |samples|
      && r.state.session + r.state.last == st.session + st.last + Sum(r.increments)
      && (forall i :: 0 <= i < |r.increments| ==> r.increments[i] >= 0)
      && r.state.session >= st.session
      && r.state.last >= 0
    decreases |samples|
  {
    if samples != [] {
      var init := samples[..|samples| - 1];
      SftpRunAccounts(st, init);
      var before := SftpRun(st, init);
      var step := SftpStep(before.state, samples[|samples| - 1]);
      SftpStepAccounts(before.state, samples[|samples| - 1]);
      SumAppend(before.increments, step.increment);
    }
  }

  /** From zero, the samples 100, 300 and 50 (the third one a new file)
      report 100, 200 and 50 and leave 300 bytes in the session total. */
  lemma SftpRunExample()
    ensures SftpRun(ByteState(0, 0), [100, 300, 50]) == Run(ByteState(50, 300), [100, 200, 50])
  {
    var st := ByteState(0, 0);
    assert [100, 300, 50][..2] == [100, 300] && [100, 300][..1] == [100] && [100][..0] == [];
    var r1 := SftpRun(st, [100]);
    assert r1 == Run(ByteState(100, 0), [100]);
    var r2 := SftpRun(st, [100, 300]);
    assert r2 == Run(ByteState(300, 0), [100, 200]);
  }

  /** A new file whose first sample is not below the previous file's last
      count is not recognised as new: the previous file's bytes never reach
      the session total and only the difference is reported. */
  lemma SftpNewFileUnnoticed()
    ensures SftpStep(ByteState(100, 0), 150) == Step(ByteState(150, 0), 50)
  {
  }

  // ---------------------------------------------------------------------
  // Starting a backup
  // ---------------------------------------------------------------------

  /** The SMTP fields a backup that sends e-mail needs, in the order
      they are checked. */
  datatype SmtpSettings = SmtpSettings(server: string, port: string, fromEmail: string, password: string, toEmail: string)

  function SmtpValues(smtp: SmtpSettings): (r: seq<string>)
  {
    [smtp.server, smtp.port, smtp.fromEmail, smtp.password, smtp.toEmail]
  }

  predicate SmtpComplete(smtp: SmtpSettings)
  {
    forall i :: 0 <= i < |SmtpValues(smtp)| ==> SmtpValues(smtp)[i] != ""
  }

  /** How `start_backup` ends: one of its early returns, or the worker
      launched with the selected databases. */
  datatype StartOutcome = NoServer | NoTarget | NoDatabaseSelected | SmtpIncomplete | Launched(selected: seq<DbConfig>)

  /** A database whose checkbox exists and is ticked. */
  predicate Ticked(checkboxes: map<string, bool>, db: DbConfig)
  {
    db.name in checkboxes && checkboxes[db.name]
  }

  function TickedIn(checkboxes: map<string, bool>): DbConfig -> bool
  {
    (db: DbConfig) => Ticked(checkboxes, db)
  }

  /** The databases selected for a backup: none unless the backup type
      dumps databases, otherwise the server's ticked databases. */
  function Selected(server: Server, backupType: string, checkboxes: map<string, bool>): seq<DbConfig>
  {
    if Backup.DbMode(backupType) then Filter(server.databases, TickedIn(checkboxes)) else []
  }

  /** The selection keeps the server's order, and holds exactly the ticked
      databases when the backup type dumps databases. */
  lemma SelectionIsTicked(server: Server, backupType: string, checkboxes: map<string, bool>)
    ensures IsSubsequence(Selected(server, backupType, checkboxes), server.databases)
    ensures forall db :: db in Selected(server, backupType, checkboxes) <==>
      Backup.DbMode(backupType) && db in server.databases && Ticked(checkboxes, db)
  {
    if Backup.DbMode(backupType) {
      FilterIsSubsequence(server.databases, TickedIn(checkboxes));
    } else {
      assert IsSubsequence([], server.databases);
    }
  }

  /** Percentage of `update_progress`: the floor of `100 * value / maxValue`
      when `maxValue` is positive, and 0 otherwise. */
  function Percentage(value: nat, maxValue: int): (p: nat)
    ensures maxValue <= 0 ==> p == 0
    ensures maxValue > 0 ==> p * maxValue <= value * 100 < (p + 1) * maxValue
    ensures maxValue > 0 && value <= maxValue ==> p <= 100
  {
    if maxValue <= 0 then 0
    else
      var scaled := value * 100;
      FloorDiv(scaled, maxValue);
      WholeAtMostHundred(value, maxValue);
      scaled / maxValue
  }

  lemma WholeAtMostHundred(value: nat, maxValue: nat)
    requires maxValue > 0
    ensures value <= maxValue ==> (value * 100) / maxValue <= 100
  {
    if value <= maxValue {
      Backup.MulMonotone(value, maxValue, 100);
      Backup.DivBelow(value * 100, maxValue, 101);
    }
  }

  /** The quotient of Euclidean division is the floor. */
  lemma FloorDiv(a: nat, t: nat)
    requires t > 0
    ensures (a / t) * t <= a < (a / t + 1) * t
  {
    var q := a / t;
    assert a == q * t + a % t;
    assert (q + 1) * t == q * t + t;
  }

  // ---------------------------------------------------------------------
  // Server search
  // ---------------------------------------------------------------------

  function NameMatches(term: string): Server -> bool
  {
    (s: Server) => Contains(Lower(s.name), Lower(term))
  }

  /** `filter_servers`: the servers listed for a search term. */
  function FilterServers(servers: seq<Server>, term: string): seq<Server>
  {
    Filter(servers, NameMatches(term))
  }

  /** The servers listed keep their order and are exactly those whose
      lower-cased name contains the lower-cased term. */
  lemma FilterServersMatches(servers: seq<Server>, term: string)
    ensures IsSubsequence(FilterServers(servers, term), servers)
    ensures forall s :: s in FilterServers(servers, term) <==>
      s in servers && Contains(Lower(s.name), Lower(term))
  {
    FilterIsSubsequence(servers, NameMatches(term));
  }

  /** An empty search lists every server. */
  lemma EmptySearchListsAll(servers: seq<Server>)
    ensures FilterServers(servers, "") == servers
  {
    forall i | 0 <= i < |servers|
      ensures NameMatches("")(servers[i])
    {
      assert Lower(servers[i].name)[..0] == [];
    }
    FilterKeepsAll(servers, NameMatches(""));
  }

  /** The selection loop of `start_backup`: in a backup type that dumps
      databases, each of the server's databases whose checkbox is ticked,
      in order. */
  method SelectDatabases(dbs: seq<DbConfig>, backupType: string, checkboxes: map<string, bool>)
    returns (selected: seq<DbConfig>)
    ensures selected == (if Backup.DbMode(backupType) then Filter(dbs, TickedIn(checkboxes)) else [])
  {
    selected := [];
    if Backup.DbMode(backupType) {
      for i := 0 to |dbs|
        invariant selected == Filter(dbs[..i], TickedIn(checkboxes))
      {
        FilterExtend(dbs, i, TickedIn(checkboxes));
        if dbs[i].name in checkboxes && checkboxes[dbs[i].name] {
          selected := selected + [dbs[i]];
        }
      }
      assert dbs[..|dbs|] == dbs;
    }
  }

  /** The check of the SMTP fields, in order, stopping at the first empty one. */
  method CheckSmtp(smtp: SmtpSettings) returns (complete: bool)
    ensures complete <==> SmtpComplete(smtp)
  {
    var values := SmtpValues(smtp);
    for i := 0 to |values|
      invariant forall j :: 0 <= j < i ==> values[j] != ""
    {
      if values[i] == "" {
        return false;
      }
    }
    return true;
  }

  // ---------------------------------------------------------------------
  // The window's state
  // ---------------------------------------------------------------------

  class ModernBackupMaster {
    var lastBytes: int
    var sessionBytes: int
    var isOperationRunning: bool

    constructor ()
      ensures lastBytes == 0 && sessionBytes == 0 && !isOperationRunning
    {
      lastBytes, sessionBytes, isOperationRunning := 0, 0, false;
    }

    function Bytes(): ByteState
      reads this
    {
      ByteState(lastBytes, sessionBytes)
    }

    /** `handle_byte_progress(bytes_chunk, is_new_file)`: an SFTP sample
        (`isNewFile`) moves the counters as `SftpStep` says; an FTP chunk is
        reported as it is and leaves them alone. */
    method HandleByteProgress(bytesChunk: int, isNewFile: bool) returns (increment: int)
      modifies this
      ensures isNewFile ==> Step(Bytes(), increment) == SftpStep(old(Bytes()), bytesChunk)
      ensures !isNewFile ==> increment == bytesChunk && Bytes() == old(Bytes())
      ensures isOperationRunning == old(isOperationRunning)
    {
      if isNewFile {
        increment := bytesChunk - lastBytes;
        if increment < 0 {
          sessionBytes := sessionBytes + lastBytes;
          lastBytes := bytesChunk;
          increment := bytesChunk;
        } else {
          lastBytes := bytesChunk;
        }
      } else {
        increment := bytesChunk;
      }
    }

    /** `start_backup()`, up to launching the worker. `server` is the
        selected server, `target` the backup target field, `checkboxes`
        the database checkboxes by name. The flag that an operation runs is
        raised before the database and SMTP checks, so those two early
        returns leave it raised. */
    method StartBackup(server: Option<Server>, target: string, backupType: string,
                       checkboxes: map<string, bool>, sendEmail: bool, smtp: SmtpSettings)
      returns (outcome: StartOutcome)
      modifies this
      ensures server.None? ==> outcome == NoServer
      ensures server.Some? && target == "" ==> outcome == NoTarget
      ensures outcome.NoServer? || outcome.NoTarget? ==>
        isOperationRunning == old(isOperationRunning)
      ensures server.Some? && target != "" ==> isOperationRunning
      ensures outcome == NoDatabaseSelected <==>
        server.Some? && target != "" && Backup.DbMode(backupType) && Selected(server.value, backupType, checkboxes) == []
      ensures outcome == SmtpIncomplete <==>
        server.Some? && target != "" && !(Backup.DbMode(backupType) && Selected(server.value, backupType, checkboxes) == [])
        && sendEmail && !SmtpComplete(smtp)
      ensures outcome.Launched? ==> outcome.selected == Selected(server.value, backupType, checkboxes)
      ensures outcome.Launched? ==> Bytes() == ByteState(0, 0)
      ensures !outcome.Launched? ==> Bytes() == old(Bytes())
    {
      if server.None? {
        return NoServer;
      }
      if target == "" {
        return NoTarget;
      }
      isOperationRunning := true;

      var selected := SelectDatabases(server.value.databases, backupType, checkboxes);

      if Backup.DbMode(backupType) && selected == [] {
        return NoDatabaseSelected;
      }

      if sendEmail {
        var complete := CheckSmtp(smtp);
        if !complete {
          return SmtpIncomplete;
        }
      }

      lastBytes := 0;
      sessionBytes := 0;
      outcome := Launched(selected);
    }
  }
}
