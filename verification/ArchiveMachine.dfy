/**
 * The audit archiver of internal/audit/archive.go as a state machine over its
 * durable effects. Between any two steps the process may die or the machine
 * may lose power, so a property of every reachable state is a property of
 * every crash point.
 */
module ArchiveMachine {
  import opened Options
  import opened Sorting

  /** Seconds since the Unix epoch, UTC. */
  type Time = int

  /** A UTC calendar day, counted from the epoch; it names one JSONL file and one S3 key. */
  type Day = int

  const SECONDS_PER_DAY := 86400

  /** Dafny's division rounds down for a positive divisor, so instants before the epoch also fall on their own day. */
  function DayOf(at: Time): Day {
    at / SECONDS_PER_DAY
  }

  /** One audit row; `id` is the primary key, `at` its timestamp. */
  datatype Row = Row(id: string, at: Time)

  /**
   * What one write leaves at the end of a JSONL file: a complete line, or the
   * first bytes of a line without its newline.
   */
  datatype Item = Rec(row: Row) | Frag

  /** A local file: `items[..synced]` is on stable storage, the rest only in the page cache. */
  datatype File = File(items: seq<Item>, synced: nat)

  /** A record parses only when it starts its own line, so not when it follows a fragment. */
  ghost predicate Readable(items: seq<Item>, r: Row) {
    exists i :: 0 <= i < |items| && items[i] == Rec(r) && (i == 0 || items[i - 1] != Frag)
  }

  predicate EndsInFragment(items: seq<Item>) {
    |items| > 0 && items[|items| - 1] == Frag
  }

  /** How many times `r` was written to `items`, readable or not. */
  ghost function Occurrences(items: seq<Item>, r: Row): nat {
    multiset(items)[Rec(r)]
  }

  /** What rotation still has to do with the file it closed (archive.go:233, 278, 284). */
  datatype Closing = NothingToClose | ToUpload(day: Day) | ToRemove(day: Day)

  /** Where the sweeping goroutine is inside `Archive`. */
  datatype Phase =
    | Idle
    | Iterating(cutoff: Time, todo: seq<Row>, done: set<Row>)
    | Deleting(cutoff: Time, done: set<Row>)

  datatype Config = Config(s3: bool, deleteAfterUpload: bool)
  {
    /** Local files go once they are uploaded. */
    predicate Prunes() {
      s3 && deleteAfterUpload
    }
  }

  /**
   * `inserted` and `failed` are the history the properties speak of: every
   * row ever inserted, and for each row the failed sweeps that had written it.
   */
  datatype State = State(
    cfg: Config,
    table: set<Row>,
    files: map<Day, File>,
    bucket: map<Day, seq<Item>>,
    openDate: Option<Day>,
    openFile: Option<Day>,
    closing: Closing,
    phase: Phase,
    inserted: set<Row>,
    failed: map<Row, nat>)

  /** An upload: not attempted or refused, stored although an error came back, or stored and acknowledged. */
  datatype Put = NotStored | StoredUnacknowledged | Stored

  /** A row write: complete, or failed after leaving a fragment or nothing. */
  datatype Written = Full | Short(fragment: bool)

  /** The delete: refused, applied although an error came back, or applied and acknowledged. */
  datatype Deletion = NotDeleted | DeletedUnacknowledged | Deleted

  datatype Step =
    | Insert(row: Row)
    | Begin(cutoff: Time, order: seq<Row>)
    | Rotate(syncOk: bool)
    | Upload(put: Put)
    | Remove(removeOk: bool)
    | Open(openOk: bool)
    | Write(written: Written)
    | IterFail
    | NothingDue
    | Sync(finalSyncOk: bool)
    | Delete(deletion: Deletion)
    | ProcessDeath
    | PowerLoss(kept: map<Day, seq<Item>>)
    | Shutdown(lastSyncOk: bool)

  ghost function Due(table: set<Row>, cutoff: Time): set<Row> {
    set r | r in table && r.at < cutoff
  }

  /** The rows of `rows`, as a set. */
  ghost function Rows(rows: seq<Row>): set<Row> {
    set r | r in rows
  }

  /** Oldest first. */
  ghost predicate InOrder(rows: seq<Row>) {
    forall i, j :: 0 <= i < j < |rows| ==> rows[i].at <= rows[j].at
  }

  /**
   * `image` can be found on the disk after power is lost: everything synced,
   * any further prefix, perhaps part of the next line.
   */
  ghost predicate CrashImage(f: File, image: seq<Item>) {
    f.synced <= |f.items| &&
    exists n :: f.synced <= n <= |f.items| &&
      (image == f.items[..n] || (n < |f.items| && image == f.items[..n] + [Frag]))
  }

  ghost predicate Enabled(s: State, step: Step) {
    match step
    case Insert(r) => r !in s.inserted
    case Begin(cutoff, order) =>
      s.phase == Idle && Distinct(order) && Rows(order) == Due(s.table, cutoff)
    case Rotate(_) =>
      s.phase.Iterating? && |s.phase.todo| > 0 && s.closing == NothingToClose &&
      s.openFile.Some? && s.openFile.value in s.files && s.openDate != Some(DayOf(s.phase.todo[0].at))
    case Upload(put) =>
      s.closing.ToUpload? && s.closing.day in s.files &&
      (s.files[s.closing.day].items == [] ==> put == NotStored)
    case Remove(_) => s.closing.ToRemove? && s.closing.day in s.files
    case Open(_) =>
      s.phase.Iterating? && |s.phase.todo| > 0 && s.closing == NothingToClose && s.openFile == None
    case Write(_) =>
      s.phase.Iterating? && |s.phase.todo| > 0 && s.closing == NothingToClose &&
      s.openFile.Some? && s.openFile.value in s.files && s.openDate == Some(DayOf(s.phase.todo[0].at))
    case IterFail => s.phase.Iterating? && s.closing == NothingToClose
    case NothingDue => s.phase.Iterating? && s.phase.todo == [] && s.phase.done == {}
    case Sync(_) =>
      s.phase.Iterating? && s.phase.todo == [] && s.phase.done != {} && s.closing == NothingToClose
    case Delete(_) => s.phase.Deleting?
    case ProcessDeath => true
    case PowerLoss(kept) =>
      kept.Keys == s.files.Keys && forall d :: d in kept ==> CrashImage(s.files[d], kept[d])
    case Shutdown(_) => s.phase == Idle
  }

  /** The sweep ends without deleting; the rows it had written stay in the table and will be written again. */
  ghost function Abort(s: State): State {
    s.(phase := Idle, failed := if s.phase == Idle then s.failed else Bumped(s.failed, s.phase.done))
  }

  ghost function Bumped(failed: map<Row, nat>, rows: set<Row>): map<Row, nat> {
    map r | r in failed.Keys + rows :: FailedSweeps(failed, r) + (if r in rows then 1 else 0)
  }

  ghost function FailedSweeps(failed: map<Row, nat>, r: Row): nat {
    if r in failed then failed[r] else 0
  }

  function Synced(f: File): File {
    f.(synced := |f.items|)
  }

  function Appended(f: File, item: Item): File {
    f.(items := f.items + [item])
  }

  /** The effect of an enabled step. */
  ghost function Apply(s: State, step: Step): State
    requires Enabled(s, step)
  {
    match step
    case Insert(r) => s.(table := s.table + {r}, inserted := s.inserted + {r})
    case Begin(cutoff, order) => s.(phase := Iterating(cutoff, order, {}))
    case Rotate(syncOk) =>
      var d := s.openFile.value;
      s.(files := if syncOk then s.files[d := Synced(s.files[d])] else s.files,
         openFile := None,
         closing := if s.cfg.s3 then ToUpload(d) else NothingToClose)
    case Upload(put) =>
      var d := s.closing.day;
      s.(bucket := if put == NotStored then s.bucket else s.bucket[d := s.files[d].items],
         closing := if put == Stored && s.cfg.deleteAfterUpload then ToRemove(d) else NothingToClose)
    case Remove(ok) =>
      var d := s.closing.day;
      if ok then s.(files := s.files - {d}, closing := NothingToClose)
      else s.(closing := NothingToClose)
    case Open(ok) =>
      var d := DayOf(s.phase.todo[0].at);
      if ok then
        s.(files := if d in s.files then s.files else s.files[d := File([], 0)],
           openFile := Some(d), openDate := Some(d))
      else Abort(s)
    case Write(w) =>
      var d, r := s.openFile.value, s.phase.todo[0];
      (match w
       case Full =>
         s.(files := s.files[d := Appended(s.files[d], Rec(r))],
            phase := Iterating(s.phase.cutoff, s.phase.todo[1..], s.phase.done + {r}))
       case Short(fragment) =>
         Abort(if fragment then s.(files := s.files[d := Appended(s.files[d], Frag)]) else s))
    case IterFail => Abort(s)
    case NothingDue => s.(phase := Idle)
    case Sync(ok) =>
      if !ok then Abort(s)
      else
        s.(files := if s.openFile.Some? && s.openFile.value in s.files
                    then s.files[s.openFile.value := Synced(s.files[s.openFile.value])]
                    else s.files,
           phase := Deleting(s.phase.cutoff, s.phase.done))
    case Delete(deletion) =>
      var t := if deletion == NotDeleted then s else s.(table := s.table - Due(s.table, s.phase.cutoff));
      if deletion == Deleted then t.(phase := Idle) else Abort(t)
    case ProcessDeath => Abort(s).(openFile := None, openDate := None, closing := NothingToClose)
    case PowerLoss(kept) =>
      Abort(s).(files := map d | d in kept :: File(kept[d], |kept[d]|),
                openFile := None, openDate := None, closing := NothingToClose)
    case Shutdown(ok) =>
      s.(files := if ok && s.openFile.Some? && s.openFile.value in s.files
                  then s.files[s.openFile.value := Synced(s.files[s.openFile.value])]
                  else s.files,
         openFile := None, openDate := None)
  }

  /** A freshly started service with an empty table, archive directory and bucket. */
  ghost function Init(cfg: Config): State {
    State(cfg, {}, map[], map[], None, None, NothingToClose, Idle, {}, map[])
  }

  /** Every step of `run` is enabled where it is taken. */
  ghost predicate IsRun(s: State, run: seq<Step>)
    decreases |run|
  {
    run == [] || (Enabled(s, run[0]) && IsRun(Apply(s, run[0]), run[1..]))
  }

  ghost function Exec(s: State, run: seq<Step>): State
    requires IsRun(s, run)
    decreases |run|
  {
    if run == [] then s else Exec(Apply(s, run[0]), run[1..])
  }
}
