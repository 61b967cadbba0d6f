/** Scheduled backups: the interval guard, archive rows and their retention, with writes that may
    fail. Times are in nanoseconds. */
module BackupSchedule {
  import opened Options
  import opened Time

  datatype Storage = Local | Ftp

  datatype Row = Row(id: int, storage: Storage, created: int)

  /** The settings; intervals and retention counts are kept positive when they are loaded. */
  datatype Config = Config(enabled: bool, interval: int, keep: int, localOn: bool, ftpOn: bool)

  predicate ValidConfig(cfg: Config) {
    cfg.interval >= 1 && cfg.keep >= 1
  }

  // ---------- Archive retention ----------

  /** Rows of one storage, oldest first. */
  function Of(rows: seq<Row>, storage: Storage): seq<Row> {
    if |rows| == 0 then [] else
      var rest := Of(rows[..|rows| - 1], storage);
      if rows[|rows| - 1].storage == storage then rest + [rows[|rows| - 1]] else rest
  }

  function Without(rows: seq<Row>, id: int): seq<Row> {
    if |rows| == 0 then [] else
      var rest := Without(rows[..|rows| - 1], id);
      if rows[|rows| - 1].id == id then rest else rest + [rows[|rows| - 1]]
  }

  /** Rows in the order of insertion: ids grow, creation times never fall. */
  predicate Sorted(rows: seq<Row>) {
    forall i, j :: 0 <= i < j < |rows| ==> rows[i].id < rows[j].id && rows[i].created <= rows[j].created
  }

  lemma {:induction false} OfAreRows(rows: seq<Row>, storage: Storage)
    requires Sorted(rows)
    ensures Sorted(Of(rows, storage))
    ensures forall i :: 0 <= i < |Of(rows, storage)| ==>
      Of(rows, storage)[i] in rows && Of(rows, storage)[i].storage == storage
    decreases |rows|
  {
    if |rows| > 0 {
      OfAreRows(rows[..|rows| - 1], storage);
    }
  }

  lemma {:induction false} WithoutOther(rows: seq<Row>, id: int)
    requires forall i :: 0 <= i < |rows| ==> rows[i].id != id
    ensures Without(rows, id) == rows
    decreases |rows|
  {
    if |rows| > 0 {
      WithoutOther(rows[..|rows| - 1], id);
    }
  }

  lemma {:induction false} WithoutAreRows(rows: seq<Row>, id: int)
    requires Sorted(rows)
    ensures Sorted(Without(rows, id))
    ensures forall i :: 0 <= i < |Without(rows, id)| ==> Without(rows, id)[i] in rows
    ensures |rows| > 0 && rows[|rows| - 1].id != id ==>
      |Without(rows, id)| > 0 && Without(rows, id)[|Without(rows, id)| - 1] == rows[|rows| - 1]
    decreases |rows|
  {
    if |rows| > 0 {
      WithoutAreRows(rows[..|rows| - 1], id);
    }
  }

  /** Deleting the oldest row of a storage takes the head off its list and leaves the other
      storage alone. */
  lemma {:induction false} DeletingTheOldest(rows: seq<Row>, storage: Storage, other: Storage)
    requires Sorted(rows) && Of(rows, storage) != []
    ensures var head := Of(rows, storage)[0];
      && Of(Without(rows, head.id), storage) == Of(rows, storage)[1..]
      && (other != storage ==> Of(Without(rows, head.id), other) == Of(rows, other))
    decreases |rows|
  {
    var n := |rows| - 1;
    var before, last := rows[..n], rows[n];
    var head := Of(rows, storage)[0];
    if Of(before, storage) == [] {
      assert head == last;
      WithoutOther(before, last.id);
    } else {
      DeletingTheOldest(before, storage, other);
      OfAreRows(before, storage);
      assert Of(before, storage)[0] == head && head in before && head.id != last.id;
      assert Without(rows, head.id) == Without(before, head.id) + [last];
      OfAppend(Without(before, head.id), last, storage);
      OfAppend(Without(before, head.id), last, other);
    }
  }

  lemma OfAppend(rows: seq<Row>, last: Row, storage: Storage)
    ensures Of(rows + [last], storage) == Of(rows, storage) + if last.storage == storage then [last] else []
  {
    assert (rows + [last])[..|rows|] == rows;
  }

  function Newest(rows: seq<Row>, keep: nat): seq<Row> {
    if |rows| <= keep then rows else rows[|rows| - keep..]
  }

  /** What retention keeps: as many rows as it may, and those from the end. */
  lemma NewestAreLast(rows: seq<Row>, keep: nat)
    ensures |Newest(rows, keep)| == if |rows| <= keep then |rows| else keep
    ensures Newest(rows, keep) == rows[|rows| - |Newest(rows, keep)|..]
  {
  }

  /** The list of a storage holds all its rows and no other. */
  lemma {:induction false} OfIsComplete(rows: seq<Row>)
    ensures forall storage, row :: row in Of(rows, storage) <==> row in rows && row.storage == storage
    ensures |Of(rows, Local)| + |Of(rows, Ftp)| == |rows|
    decreases |rows|
  {
    if |rows| > 0 {
      var n := |rows| - 1;
      OfIsComplete(rows[..n]);
      assert rows == rows[..n] + [rows[n]];
    }
  }

  /** As long as a storage has two rows, its oldest is not the newest row of all. */
  lemma OldestIsNotNewest(rows: seq<Row>, storage: Storage)
    requires Sorted(rows) && |Of(rows, storage)| >= 2
    ensures |rows| > 0 && Of(rows, storage)[0].id != rows[|rows| - 1].id
  {
    OfAreRows(rows, storage);
    var head, last := Of(rows, storage)[0], rows[|rows| - 1];
    if last.storage == storage {
      assert Of(rows, storage)[|Of(rows, storage)| - 1] == last;
    } else {
      var i :| 0 <= i < |rows| && rows[i] == head;
    }
  }

  datatype Outcome = Skipped | Disabled | Failed | NoTarget | Stored

  /** Which of the steps of a run succeed. */
  datatype Steps = Steps(passphrase: bool, package: bool, localFile: bool, localRow: bool,
                         ftpPassword: bool, upload: bool, ftpRow: bool, lastRun: bool)

  predicate LocalStored(cfg: Config, io: Steps) {
    cfg.localOn && io.localFile
  }

  predicate FtpStored(cfg: Config, io: Steps) {
    cfg.ftpOn && io.ftpPassword && io.upload
  }

  predicate RowWritten(cfg: Config, io: Steps) {
    (LocalStored(cfg, io) && io.localRow) || (FtpStored(cfg, io) && io.ftpRow)
  }

  /** The run leaves a trace: the last-run setting, or the row of an archive. */
  predicate Recorded(cfg: Config, io: Steps) {
    io.lastRun || RowWritten(cfg, io)
  }

  /** Creation time of the newest row. */
  function NewestTime(rows: seq<Row>): Option<int> {
    if rows == [] then None else Some(rows[|rows| - 1].created)
  }

  function Later(a: Option<int>, b: Option<int>): Option<int> {
    if b.None? || (a.Some? && b.value <= a.value) then a else b
  }

  // ---------- Runs that stored an archive ----------

  /** A run, `guarded` if the scheduler started it, and its readings of the clock: for the guard,
      for the local copy, for the copy on the server, and for the last-run setting. */
  datatype BackupRun = BackupRun(guarded: bool, io: Steps, t0: int, t1: int, t2: int, t3: int)

  predicate InOrder(b: BackupRun) {
    b.t0 <= b.t1 <= b.t2 <= b.t3
  }

  /** The times of the copies it made. */
  function Copies(cfg: Config, b: BackupRun): set<int> {
    (if LocalStored(cfg, b.io) then {b.t1} else {}) + if FtpStored(cfg, b.io) then {b.t2} else {}
  }

  /** A copy is made of every enabled target whose every step succeeds. */
  lemma CopiesAreExact(cfg: Config, b: BackupRun)
    requires b.t1 != b.t2
    ensures b.t1 in Copies(cfg, b) <==> cfg.localOn && b.io.localFile
    ensures b.t2 in Copies(cfg, b) <==> cfg.ftpOn && b.io.ftpPassword && b.io.upload
  {
  }

  /** The time of the last row it wrote. */
  function RowTime(cfg: Config, b: BackupRun): Option<int> {
    if FtpStored(cfg, b.io) && b.io.ftpRow then Some(b.t2)
    else if LocalStored(cfg, b.io) && b.io.localRow then Some(b.t1)
    else None
  }

  /** The latest time it left on record. */
  function Known(cfg: Config, b: BackupRun): Option<int> {
    if b.io.lastRun then Some(b.t3) else RowTime(cfg, b)
  }

  /** The record is no older than the copy. */
  predicate Covers(cfg: Config, b: BackupRun, copy: int) {
    Known(cfg, b).Some? && Known(cfg, b).value >= copy
  }

  /** Either record covers the local copy. The copy on the server, made later, is not covered by
      the row of the local one. */
  lemma CoveredCopies(cfg: Config, b: BackupRun)
    requires InOrder(b)
    ensures LocalStored(cfg, b.io) ==> (Covers(cfg, b, b.t1) <==> Recorded(cfg, b.io))
    ensures FtpStored(cfg, b.io) ==> (Covers(cfg, b, b.t2) <==>
      b.io.lastRun || b.io.ftpRow || (LocalStored(cfg, b.io) && b.io.localRow && b.t1 == b.t2))
  {
  }

  /** Every scheduled run kept the interval from all that was on record. */
  ghost predicate Spaced(cfg: Config, history: seq<BackupRun>) {
    forall i, j :: 0 <= i < j < |history| && history[j].guarded && Known(cfg, history[i]).Some? ==>
      history[j].t0 - Known(cfg, history[i]).value >= cfg.interval
  }

  /** Nothing on record is later than what the guard goes by. */
  ghost predicate Remembers(cfg: Config, last: Option<int>, history: seq<BackupRun>) {
    forall i :: 0 <= i < |history| && Known(cfg, history[i]).Some? ==>
      last.Some? && last.value >= Known(cfg, history[i]).value
  }

  ghost predicate AllInOrder(history: seq<BackupRun>) {
    forall i :: 0 <= i < |history| ==> InOrder(history[i])
  }

  lemma SpacedExtends(cfg: Config, history: seq<BackupRun>, last: Option<int>, b: BackupRun)
    requires Spaced(cfg, history) && Remembers(cfg, last, history)
    requires b.guarded && last.Some? ==> b.t0 - last.value >= cfg.interval
    ensures Spaced(cfg, history + [b])
  {
    var all := history + [b];
    forall i, j | 0 <= i < j < |all| && all[j].guarded && Known(cfg, all[i]).Some?
      ensures all[j].t0 - Known(cfg, all[i]).value >= cfg.interval
    {
      if j < |history| {
        assert all[i] == history[i] && all[j] == history[j];
      } else {
        assert all[i] == history[i];
      }
    }
  }

  class Schedule {
    const cfg: Config
    var lastRun: Option<int>
    var rows: seq<Row>
    var nextId: int
    ghost var clock: int
    /** The runs, scheduled or manual, that stored an archive. */
    ghost var history: seq<BackupRun>

    ghost predicate RowsValid()
      reads this`rows, this`nextId, this`clock
    {
      Sorted(rows) && forall i :: 0 <= i < |rows| ==> rows[i].id < nextId && rows[i].created <= clock
    }

    /** What the guard goes by: the later of the setting and the newest row. */
    function LastKnown(): Option<int>
      reads this`lastRun, this`rows
    {
      Later(lastRun, NewestTime(rows))
    }

    ghost predicate StoreValid()
      reads this`rows, this`nextId, this`clock, this`lastRun
    {
      ValidConfig(cfg) && RowsValid() && (lastRun.Some? ==> lastRun.value <= clock)
    }

    ghost predicate Valid()
      reads this
    {
      StoreValid() && AllInOrder(history) && Spaced(cfg, history) && Remembers(cfg, LastKnown(), history)
    }

    /** Archives keep the interval: a copy made by a scheduled run is at least the interval later
        than every copy of an earlier run, scheduled or manual, that this run's record covers. What
        other runs have failed to record does not matter. */
    lemma ArchivesAreSpaced(i: nat, j: nat, earlier: int, later: int)
      requires Valid() && i < j < |history| && history[j].guarded
      requires earlier in Copies(cfg, history[i]) && later in Copies(cfg, history[j])
      requires Covers(cfg, history[i], earlier)
      ensures later - earlier >= cfg.interval
    {
      assert InOrder(history[j]);
    }

    constructor (cfg: Config, ghost now: int)
      requires ValidConfig(cfg)
      ensures Valid() && history == [] && rows == [] && lastRun == None
      ensures this.cfg == cfg && clock == now
    {
      this.cfg, lastRun, rows, nextId := cfg, None, [], 1;
      clock, history := now, [];
    }

    /** A row for an archive; the write may fail. */
    method InsertArchive(storage: Storage, ok: bool, now: int)
      requires RowsValid() && clock <= now
      modifies this`rows, this`nextId, this`clock
      ensures RowsValid() && clock == now
      ensures ok ==> |rows| > 0 && rows[|rows| - 1].storage == storage && rows[|rows| - 1].created == now
      ensures rows == if ok then old(rows) + [rows[|rows| - 1]] else old(rows)
    {
      clock := now;
      if ok {
        rows := rows + [Row(nextId, storage, now)];
        nextId := nextId + 1;
      }
    }

    /** Retention leaves exactly the newest rows of the storage, the other storage as it was, and
        never drops the newest row of all. */
    method EnforceRetention(storage: Storage)
      requires RowsValid() && ValidConfig(cfg)
      modifies this`rows
      ensures RowsValid() && NewestTime(rows) == old(NewestTime(rows))
      ensures Of(rows, storage) == Newest(old(Of(rows, storage)), cfg.keep)
      ensures var m := |old(Of(rows, storage))|;
              && |Of(rows, storage)| == (if m <= cfg.keep then m else cfg.keep)
              && Of(rows, storage) == old(Of(rows, storage))[m - |Of(rows, storage)|..]
      ensures forall other :: other != storage ==> Of(rows, other) == old(Of(rows, other))
    {
      var items := Of(rows, storage);
      if |items| <= cfg.keep {
        return;
      }
      for i := 0 to |items| - cfg.keep
        invariant RowsValid() && Of(rows, storage) == items[i..]
        invariant NewestTime(rows) == old(NewestTime(rows))
        invariant forall other :: other != storage ==> Of(rows, other) == old(Of(rows, other))
      {
        OldestIsNotNewest(rows, storage);
        WithoutAreRows(rows, items[i].id);
        DeletingTheOldest(rows, storage, if storage.Local? then Ftp else Local);
        rows := Without(rows, items[i].id);
      }
    }

    /** Writes the archive to every enabled target and books the rows. */
    method StoreArchive(b: BackupRun) returns (stored: bool)
      requires RowsValid() && clock <= b.t1 <= b.t2
      modifies this`rows, this`nextId, this`clock
      ensures RowsValid() && clock == b.t2
      ensures stored <==> Copies(cfg, b) != {}
      ensures NewestTime(rows) == if RowWritten(cfg, b.io) then RowTime(cfg, b) else old(NewestTime(rows))
    {
      stored := false;
      if cfg.localOn && b.io.localFile {
        InsertArchive(Local, b.io.localRow, b.t1);
        stored := true;
      }
      if cfg.ftpOn && b.io.ftpPassword && b.io.upload {
        InsertArchive(Ftp, b.io.ftpRow, b.t2);
        stored := true;
      }
      clock := b.t2;
    }

    /** Retention of every enabled storage; that of the server needs its password. */
    method EnforceArchiveRetention(io: Steps)
      requires RowsValid() && ValidConfig(cfg)
      modifies this`rows
      ensures RowsValid() && NewestTime(rows) == old(NewestTime(rows))
      ensures cfg.localOn ==> Of(rows, Local) == Newest(old(Of(rows, Local)), cfg.keep)
      ensures !cfg.localOn ==> Of(rows, Local) == old(Of(rows, Local))
      ensures cfg.ftpOn && io.ftpPassword ==> Of(rows, Ftp) == Newest(old(Of(rows, Ftp)), cfg.keep)
      ensures !cfg.ftpOn || !io.ftpPassword ==> Of(rows, Ftp) == old(Of(rows, Ftp))
    {
      if cfg.localOn {
        EnforceRetention(Local);
      }
      if cfg.ftpOn && io.ftpPassword {
        EnforceRetention(Ftp);
      }
    }

    /** The guard holds a run back exactly if less than the interval has passed since the last
        time on record. */
    predicate HeldBack(t0: int)
      reads this`lastRun, this`rows
    {
      LastKnown().Some? && t0 - LastKnown().value < cfg.interval
    }

    method StoreAndRetain(b: BackupRun) returns (stored: bool)
      requires RowsValid() && ValidConfig(cfg) && clock <= b.t1 <= b.t2
      modifies this`rows, this`nextId, this`clock
      ensures RowsValid() && clock == b.t2
      ensures stored <==> Copies(cfg, b) != {}
      ensures NewestTime(rows) == if RowWritten(cfg, b.io) then RowTime(cfg, b) else old(NewestTime(rows))
    {
      stored := StoreArchive(b);
      EnforceArchiveRetention(b.io);
    }

    /** The part of a run behind the guard, once the package is built. If it leaves a record, the
        guard goes by that from then on; if it leaves none, by what it went by before. */
    method Execute(b: BackupRun) returns (stored: bool)
      requires StoreValid() && clock <= b.t0 && InOrder(b)
      modifies this`rows, this`nextId, this`clock, this`lastRun
      ensures StoreValid() && clock == b.t3
      ensures stored <==> Copies(cfg, b) != {}
      ensures LastKnown() == if Known(cfg, b).Some? then Known(cfg, b) else old(LastKnown())
    {
      stored := StoreAndRetain(b);
      if b.io.lastRun {
        lastRun := Some(b.t3);
      }
      clock := b.t3;
    }

    /** A run that gets past the guard and builds its package. */
    method Perform(b: BackupRun) returns (stored: bool)
      requires Valid() && clock <= b.t0 && InOrder(b)
      requires b.guarded ==> !HeldBack(b.t0)
      modifies this
      ensures Valid() && clock == b.t3
      ensures stored <==> Copies(cfg, b) != {}
      ensures history == old(history) + if stored then [b] else []
      ensures LastKnown() == if Known(cfg, b).Some? then Known(cfg, b) else old(LastKnown())
    {
      ghost var before := LastKnown();
      stored := Execute(b);
      assert Remembers(cfg, LastKnown(), history);
      if stored {
        SpacedExtends(cfg, history, before, b);
        history := history + [b];
      }
    }

    ghost method Pass(now: int)
      requires Valid() && clock <= now
      modifies this`clock
      ensures Valid() && clock == now
    {
      clock := now;
    }

    /** One scheduled or manual run. */
    method RunScheduledBackup(b: BackupRun) returns (r: Outcome)
      requires Valid() && clock <= b.t0 && InOrder(b)
      modifies this
      ensures Valid() && clock == b.t3
      ensures r == Skipped <==> (b.guarded && (!cfg.enabled || old(HeldBack(b.t0))))
      ensures r == Disabled <==> (!b.guarded && !cfg.enabled)
      ensures r == Failed <==> (r !in {Skipped, Disabled} && !(b.io.passphrase && b.io.package))
      ensures r == NoTarget ==> Copies(cfg, b) == {}
      ensures r == Stored ==> Copies(cfg, b) != {}
      ensures history == old(history) + if r == Stored then [b] else []
      ensures r in {Stored, NoTarget} ==>
        LastKnown() == if Known(cfg, b).Some? then Known(cfg, b) else old(LastKnown())
      ensures r in {Skipped, Disabled, Failed} ==> rows == old(rows) && lastRun == old(lastRun)
    {
      if !cfg.enabled || (b.guarded && HeldBack(b.t0)) {
        Pass(b.t3);
        return if b.guarded then Skipped else Disabled;
      }
      if !b.io.passphrase || !b.io.package {
        Pass(b.t3);
        return Failed;
      }
      var stored := Perform(b);
      r := if stored then Stored else NoTarget;
    }
  }

  /** What can go wrong when no record covers the local copy, because none was written: the next
      tick of the scheduler, a minute later, stores another archive whatever the interval. */
  method UnrecordedRunsRepeat(cfg: Config, io: Steps, t: int) returns (s: Schedule, first: Outcome, second: Outcome)
    requires ValidConfig(cfg) && cfg.enabled && io.passphrase && io.package
    requires (LocalStored(cfg, io) || FtpStored(cfg, io)) && !Recorded(cfg, io)
    ensures first == Stored && second == Stored
    ensures s.Valid() && |s.history| == 2 && s.history[0].t0 == t && s.history[1].t0 == t + MINUTE
    ensures forall run :: run in s.history ==> run.guarded && run.t3 == run.t0
  {
    s := new Schedule(cfg, t);
    var u := t + MINUTE;
    first := s.RunScheduledBackup(BackupRun(true, io, t, t, t, t));
    second := s.RunScheduledBackup(BackupRun(true, io, u, u, u, u));
  }

  /** And when the copy on the server is covered by no record, because only the earlier row of the
      local copy was written: the run that is due after that row stores its copies too early. */
  method UncoveredCopiesAreCrowded(cfg: Config, io: Steps, t: int, delay: int)
    returns (s: Schedule, first: Outcome, second: Outcome)
    requires ValidConfig(cfg) && cfg.enabled && io.passphrase && io.package
    requires LocalStored(cfg, io) && io.localRow && FtpStored(cfg, io) && !io.ftpRow && !io.lastRun
    requires 0 < delay <= cfg.interval
    ensures first == Stored && second == Stored
    ensures s.Valid() && |s.history| == 2 && s.history[1].guarded
    ensures t + delay in Copies(cfg, s.history[0]) && t + cfg.interval in Copies(cfg, s.history[1])
    ensures (t + cfg.interval) - (t + delay) < cfg.interval
  {
    s := new Schedule(cfg, t);
    var u := t + cfg.interval;
    first := s.RunScheduledBackup(BackupRun(true, io, t, t, t + delay, t + delay));
    second := s.RunScheduledBackup(BackupRun(true, io, u, u, u, u));
  }
}
