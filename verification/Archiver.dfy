/**
 * The `Archiver` object of internal/audit/archive.go. Its calls to the store,
 * the file system and S3 take their outcomes as arguments, and each is one step
 * of `ArchiveMachine`, allowed only where that step is enabled; `run` records
 * the steps taken.
 */
module Archiver {
  import opened Options
  import opened Sorting
  import opened ArchiveMachine
  import opened ArchiveInvariants
  import opened ArchiveSafety
  import opened ArchiveSweep

  /** What the calls made for one row return. */
  datatype Outcomes = Outcomes(sync: bool, put: Put, remove: bool, open: bool, write: Written)

  /** No rotation fails to sync; and no row fails to be written. */
  predicate AllSynced(ios: seq<Outcomes>) {
    forall io :: io in ios ==> io.sync
  }

  /** Every upload is acknowledged. */
  predicate AllStored(ios: seq<Outcomes>) {
    forall io :: io in ios ==> io.put == Stored
  }

  predicate AllComplete(ios: seq<Outcomes>) {
    forall io :: io in ios ==> io.open && io.write == Full
  }

  datatype Error = IterError | OpenError | WriteError | SyncError | DeleteError

  /** The `i`-th step of `run` leads from the `i`-th state of `trail` to the next. */
  ghost predicate Links(trail: seq<State>, run: seq<Step>, i: nat)
    requires i < |run| && |trail| == |run| + 1
  {
    Enabled(trail[i], run[i]) && Apply(trail[i], run[i]) == trail[i + 1]
  }

  /** `trail` lists the states that `run` passes through. */
  ghost predicate IsTrail(trail: seq<State>, run: seq<Step>) {
    |trail| == |run| + 1 && forall i :: 0 <= i < |run| ==> Links(trail, run, i)
  }

  /** The states of a trail are those of `ArchiveMachine.Exec`, at every prefix of the run. */
  lemma {:induction false} TrailsAreRuns(trail: seq<State>, run: seq<Step>, k: nat)
    requires IsTrail(trail, run) && k <= |run|
    ensures IsRun(trail[0], run[..k]) && Exec(trail[0], run[..k]) == trail[k]
  {
    if k > 0 {
      TrailsAreRuns(trail, run, k - 1);
      assert Links(trail, run, k - 1);
      Extend(trail[0], run[..k - 1], run[k - 1]);
      assert run[..k] == run[..k - 1] + [run[k - 1]];
    }
  }

  lemma TrailGrows(trail: seq<State>, run: seq<Step>, step: Step, after: State)
    requires IsTrail(trail, run) && Enabled(trail[|run|], step) && Apply(trail[|run|], step) == after
    ensures IsTrail(trail + [after], run + [step])
  {
    forall i | 0 <= i < |run + [step]| ensures Links(trail + [after], run + [step], i) {
      if i < |run| { assert Links(trail, run, i); }
    }
  }

  /** Where a trail ends is steady, and its objects are prefixes of its files if no rotation failed to sync. */
  lemma TrailEnds(cfg: Config, trail: seq<State>, run: seq<Step>)
    requires IsTrail(trail, run) && trail[0] == Init(cfg)
    ensures Steady(trail[|run|])
    ensures !cfg.Prunes() && RotationsSynced(run) ==> UploadsArePrefixes(trail[|run|])
  {
    TrailsAreRuns(trail, run, |run|);
    assert run[..|run|] == run;
    EveryRunIsSteady(Init(cfg), run);
    if !cfg.Prunes() && RotationsSynced(run) { ObjectsArePrefixes(Init(cfg), run); }
  }

  /**
   * The file of day `d` was rotated out: uploaded if S3 is on and there was
   * anything in it, and pruned or kept.
   */
  ghost predicate RotatedOut(cfg: Config, before: map<Day, File>, bucket: map<Day, seq<Item>>, after: map<Day, File>,
                             uploaded: map<Day, seq<Item>>, d: Day, io: Outcomes)
    requires d in before
  {
    var items := before[d].items;
    && uploaded == (if cfg.s3 && items != [] && io.put != NotStored then bucket[d := items] else bucket)
    && (d !in after <==> cfg.s3 && cfg.deleteAfterUpload && items != [] && io.put == Stored && io.remove)
  }

  /** What a sweep has done with the rows it has written so far. */
  ghost predicate Streamed(cfg: Config, start: map<Day, File>, files: map<Day, File>, bucket: map<Day, seq<Item>>,
                           open: Option<Day>, order: seq<Row>, ios: seq<Outcomes>, count: nat)
    requires count <= |order|
  {
    && SyncedWithin(files)
    && (!cfg.Prunes() ==> Swept(start, files, open, order[..count], AllSynced(ios)))
    && (cfg.s3 && InOrder(order) && AllStored(ios) ==> Held(start, files, bucket, open, order[..count]))
  }

  lemma OneMoreStreamed(cfg: Config, start: map<Day, File>, before: map<Day, File>, bucket: map<Day, seq<Item>>,
                        open: Option<Day>, after: map<Day, File>, uploaded: map<Day, seq<Item>>, out: Option<Day>,
                        order: seq<Row>, ios: seq<Outcomes>, i: nat)
    requires i < |order| == |ios| && Streamed(cfg, start, before, bucket, open, order, ios, i) && SyncedWithin(after)
    requires out == (if cfg.Prunes() then open else None)
    requires forall d :: AppendedOn(before, after, uploaded, out, order[i], d)
    requires ios[i].sync && !cfg.Prunes() ==>
               forall d :: open == Some(d) && d != DayOf(order[i].at) ==> IsSettled(after, d)
    requires open.Some? ==> open.value in before
    requires if open == None || open == Some(DayOf(order[i].at)) then uploaded == bucket
             else RotatedOut(cfg, before, bucket, after, uploaded, open.value, ios[i])
    ensures Streamed(cfg, start, after, uploaded, Some(DayOf(order[i].at)), order, ios, i + 1)
  {
    assert ios[i] in ios;
    if !cfg.Prunes() {
      OneMoreSwept(start, before, open, after, uploaded, out, order, i, AllSynced(ios));
    }
    if cfg.s3 && InOrder(order) && AllStored(ios) {
      OneMoreHeld(start, before, bucket, open, after, uploaded, out, order, i);
    }
  }

  lemma NothingStreamed(cfg: Config, files: map<Day, File>, bucket: map<Day, seq<Item>>, open: Option<Day>,
                        order: seq<Row>, ios: seq<Outcomes>)
    requires SyncedWithin(files)
    ensures Streamed(cfg, files, files, bucket, open, order, ios, 0)
  {
    NothingSwept(files, open);
    NothingHeld(files, bucket, open);
    assert order[..0] == [];
  }

  lemma AllStreamed(cfg: Config, start: map<Day, File>, files: map<Day, File>, bucket: map<Day, seq<Item>>,
                    open: Option<Day>, order: seq<Row>, ios: seq<Outcomes>)
    requires Distinct(order) && Streamed(cfg, start, files, bucket, open, order, ios, |order|)
    ensures !cfg.Prunes() ==> Swept(start, files, open, order, AllSynced(ios))
    ensures cfg.s3 && InOrder(order) && AllStored(ios) ==> EarlierDaysAreUploaded(start, bucket, order)
  {
    assert order[..|order|] == order;
    if cfg.s3 && InOrder(order) && AllStored(ios) { HeldIsUploaded(start, files, bucket, open, order); }
  }

  /** The last two steps are the `Sync` that worked and then the delete. */
  ghost predicate EndsInSyncAndDelete(run: seq<Step>, deletion: Deletion) {
    |run| >= 2 && run[|run| - 2] == Sync(true) && run[|run| - 1] == Delete(deletion)
  }

  /** `ArchiveSweep.CleanSweepLosesNothingExactlyWhen`, between the ends of two trails. */
  lemma SweepVerdict(cfg: Config, before: seq<State>, run: seq<Step>, after: seq<State>, longer: seq<Step>,
                     cutoff: Time, order: seq<Row>)
    requires IsTrail(before, run) && before[0] == Init(cfg) && IsTrail(after, longer) && after[0] == Init(cfg)
    requires !cfg.Prunes() && RotationsSynced(run) && RotationsSynced(longer)
    requires var s, t := before[|run|], after[|longer|];
             && NothingLost(s) && s.inserted == t.inserted && t.table == s.table - Due(s.table, cutoff)
             && Distinct(order) && Rows(order) == Due(s.table, cutoff)
             && Swept(s.files, t.files, None, order, true)
    ensures NothingLost(after[|longer|]) <==> TornDaysAreCovered(before[|run|].files, order)
  {
    TrailEnds(cfg, before, run);
    TrailEnds(cfg, after, longer);
    CleanSweepLosesNothingExactlyWhen(before[|run|], after[|longer|], cutoff, order);
  }

  class Archiver {
    const s3: bool
    const deleteAfterUpload: bool
    var openDate: Option<Day>
    var openFile: Option<Day>

    // The outside world: the audit table, the archive directory and the bucket.
    var table: set<Row>
    var files: map<Day, File>
    var bucket: map<Day, seq<Item>>

    // The program counter and the history.
    ghost var phase: Phase
    ghost var closing: Closing
    ghost var inserted: set<Row>
    ghost var failed: map<Row, nat>
    ghost var run: seq<Step>
    ghost var trail: seq<State>

    ghost function Cfg(): Config {
      Config(s3, deleteAfterUpload)
    }

    /** The day whose file a rotation may prune. */
    ghost function Out(): Option<Day>
      reads this
    {
      if Cfg().Prunes() then openFile else None
    }

    ghost function View(): State
      reads this
    {
      State(Cfg(), table, files, bucket, openDate, openFile, closing, phase, inserted, failed)
    }

    /** The object is where `run` leads from a fresh service, through the states of `trail`. */
    ghost predicate Valid()
      reads this
    {
      && IsTrail(trail, run)
      && trail[0] == Init(Cfg())
      && trail[|run|] == View()
      && (openFile.Some? ==> openFile == openDate && openFile.value in files)
    }

    constructor (s3: bool, deleteAfterUpload: bool)
      ensures Valid() && View() == Init(Config(s3, deleteAfterUpload)) && run == []
    {
      this.s3, this.deleteAfterUpload := s3, deleteAfterUpload;
      openDate, openFile := None, None;
      table, files, bucket := {}, map[], map[];
      phase, closing, inserted, failed := Idle, NothingToClose, {}, map[];
      run, trail := [], [Init(Config(s3, deleteAfterUpload))];
    }

    /** Records a step from `before` to `after` whose effect on the real fields has just been made. */
    ghost method Took(before: State, step: Step, after: State)
      requires IsTrail(trail, run) && trail[|run|] == before && trail[0] == Init(before.cfg)
      requires Enabled(before, step) && Apply(before, step) == after
      requires before.cfg == after.cfg == Cfg()
      requires after.table == table && after.files == files && after.bucket == bucket
      requires after.openDate == openDate && after.openFile == openFile
      requires openFile.Some? ==> openFile == openDate && openFile.value in files
      modifies this`phase, this`closing, this`inserted, this`failed, this`run, this`trail
      ensures Valid() && View() == after && run == old(run) + [step]
    {
      phase, closing, inserted, failed := after.phase, after.closing, after.inserted, after.failed;
      TrailGrows(trail, run, step, after);
      run, trail := run + [step], trail + [after];
    }

    // ------------------------------------------------------------ what happens around the archiver

    /** A new audit row reaches the table. */
    method InsertRow(r: Row)
      requires Valid() && Enabled(View(), Insert(r))
      modifies this
      ensures Valid() && View() == Apply(old(View()), Insert(r)) && run == old(run) + [Insert(r)]
    {
      ghost var before := View();
      table := table + {r};
      Took(before, Insert(r), Apply(before, Insert(r)));
    }

    /** The process dies, wherever it is, and a new one starts. */
    method Die()
      requires Valid()
      modifies this
      ensures Valid() && View() == Apply(old(View()), ProcessDeath) && run == old(run) + [ProcessDeath]
    {
      ghost var before := View();
      openFile, openDate := None, None;
      Took(before, ProcessDeath, Apply(before, ProcessDeath));
    }

    /** The machine loses power and comes back with the images `kept` of its files. */
    method LosePower(kept: map<Day, seq<Item>>)
      requires Valid() && Enabled(View(), PowerLoss(kept))
      modifies this
      ensures Valid() && View() == Apply(old(View()), PowerLoss(kept)) && run == old(run) + [PowerLoss(kept)]
    {
      ghost var before := View();
      files := map d | d in kept :: File(kept[d], |kept[d]|);
      openFile, openDate := None, None;
      Took(before, PowerLoss(kept), Apply(before, PowerLoss(kept)));
    }

    /** archive.go:131-138: `Run` returns between two sweeps, and the object with it. */
    method ShutDown(syncOk: bool)
      requires Valid() && phase == Idle
      modifies this
      ensures Valid() && View() == Apply(old(View()), Shutdown(syncOk)) && run == old(run) + [Shutdown(syncOk)]
    {
      ghost var before := View();
      if openFile.Some? && syncOk {
        files := files[openFile.value := Synced(files[openFile.value])];
      }
      openFile, openDate := None, None;
      Took(before, Shutdown(syncOk), Apply(before, Shutdown(syncOk)));
    }

    // ------------------------------------------------------------ calls into the outside world

    method CloseRotated(syncOk: bool)
      requires Valid() && Enabled(View(), Rotate(syncOk))
      modifies this
      ensures Valid() && View() == Apply(old(View()), Rotate(syncOk)) && run == old(run) + [Rotate(syncOk)]
    {
      ghost var before := View();
      if syncOk {
        files := files[openFile.value := Synced(files[openFile.value])];
      }
      openFile := None;
      Took(before, Rotate(syncOk), Apply(before, Rotate(syncOk)));
    }

    method PutObject(d: Day, put: Put)
      requires Valid() && closing == ToUpload(d) && Enabled(View(), Upload(put))
      modifies this
      ensures Valid() && View() == Apply(old(View()), Upload(put)) && run == old(run) + [Upload(put)]
    {
      ghost var before := View();
      if put != NotStored {
        bucket := bucket[d := files[d].items];
      }
      Took(before, Upload(put), Apply(before, Upload(put)));
    }

    method RemoveLocal(d: Day, removeOk: bool)
      requires Valid() && closing == ToRemove(d) && Enabled(View(), Remove(removeOk)) && openFile == None
      modifies this
      ensures Valid() && View() == Apply(old(View()), Remove(removeOk)) && run == old(run) + [Remove(removeOk)]
    {
      ghost var before := View();
      if removeOk {
        files := files - {d};
      }
      Took(before, Remove(removeOk), Apply(before, Remove(removeOk)));
    }

    method OpenForAppend(d: Day, openOk: bool)
      requires Valid() && Enabled(View(), Open(openOk)) && d == DayOf(phase.todo[0].at)
      modifies this
      ensures Valid() && View() == Apply(old(View()), Open(openOk)) && run == old(run) + [Open(openOk)]
    {
      ghost var before := View();
      if openOk {
        files := if d in files then files else files[d := File([], 0)];
        openFile, openDate := Some(d), Some(d);
      }
      Took(before, Open(openOk), Apply(before, Open(openOk)));
    }

    method WriteLine(r: Row, written: Written)
      requires Valid() && Enabled(View(), Write(written)) && r == phase.todo[0]
      modifies this
      ensures Valid() && View() == Apply(old(View()), Write(written)) && run == old(run) + [Write(written)]
    {
      ghost var before := View();
      var d := openFile.value;
      match written {
        case Full => files := files[d := Appended(files[d], Rec(r))];
        case Short(fragment) =>
          if fragment {
            files := files[d := Appended(files[d], Frag)];
          }
      }
      Took(before, Write(written), Apply(before, Write(written)));
    }

    method FinalSync(syncOk: bool)
      requires Valid() && Enabled(View(), Sync(syncOk))
      modifies this
      ensures Valid() && View() == Apply(old(View()), Sync(syncOk)) && run == old(run) + [Sync(syncOk)]
    {
      ghost var before := View();
      if syncOk && openFile.Some? {
        files := files[openFile.value := Synced(files[openFile.value])];
      }
      Took(before, Sync(syncOk), Apply(before, Sync(syncOk)));
    }

    method DeleteOlderThan(cutoff: Time, deletion: Deletion)
      requires Valid() && Enabled(View(), Delete(deletion)) && phase.cutoff == cutoff
      modifies this
      ensures Valid() && View() == Apply(old(View()), Delete(deletion)) && run == old(run) + [Delete(deletion)]
    {
      ghost var before := View();
      if deletion != NotDeleted {
        table := set r | r in table && !(r.at < cutoff);
        assert table == before.table - Due(before.table, cutoff);
      }
      Took(before, Delete(deletion), Apply(before, Delete(deletion)));
    }

    // ------------------------------------------------------------ the methods of the source

    /** archive.go:265-290. */
    method UploadAndMaybePrune(d: Day, io: Outcomes)
      requires Valid() && closing == ToUpload(d) && openFile == None && d in files && phase.Iterating?
      modifies this
      ensures Valid() && closing == NothingToClose && openFile == None && openDate == old(openDate)
      ensures phase == old(phase) && table == old(table) && inserted == old(inserted) && failed == old(failed)
      ensures old(run) <= run && (RotationsSynced(old(run)) ==> RotationsSynced(run))
      ensures bucket == if old(files[d].items) == [] || io.put == NotStored then old(bucket)
                        else old(bucket)[d := old(files[d].items)]
      ensures files == if old(files[d].items) != [] && io.put == Stored && deleteAfterUpload && io.remove
                       then old(files) - {d} else old(files)
    {
      if files[d].items == [] {
        PutObject(d, NotStored);
        return;
      }
      PutObject(d, io.put);
      if io.put == Stored && deleteAfterUpload {
        RemoveLocal(d, io.remove);
      }
    }

    /** archive.go:225-241: closes the open file, and uploads it if there is an uploader. */
    method RotateOut(io: Outcomes)
      requires Valid() && Enabled(View(), Rotate(io.sync))
      modifies this
      ensures Valid() && closing == NothingToClose && openFile == None && openDate == old(openDate)
      ensures phase == old(phase) && table == old(table) && inserted == old(inserted) && failed == old(failed)
      ensures old(run) <= run && (RotationsSynced(old(run)) && io.sync ==> RotationsSynced(run))
      ensures var d, items := old(openFile.value), old(files[openFile.value].items);
              bucket == if s3 && items != [] && io.put != NotStored then old(bucket)[d := items] else old(bucket)
      ensures var d, items := old(openFile.value), old(files[openFile.value].items);
              files == if s3 && deleteAfterUpload && items != [] && io.put == Stored && io.remove
                       then old(files) - {d}
                       else if io.sync then old(files)[d := File(items, |items|)] else old(files)
      ensures forall d :: RotatedOn(old(files), files, bucket, old(Out()), d)
      ensures io.sync && !Cfg().Prunes() ==> IsSettled(files, old(openFile).value)
    {
      TrailEnds(Cfg(), trail, run);
      var closingDate := openFile.value;
      assert FileLayout(View(), closingDate);
      CloseRotated(io.sync);
      if s3 {
        UploadAndMaybePrune(closingDate, io);
      }
    }

    /** archive.go:223-247: makes the file of `date` the open one. */
    method SwitchTo(date: Day, io: Outcomes) returns (ok: bool)
      requires Valid() && phase.Iterating? && closing == NothingToClose
      requires |phase.todo| > 0 && date == DayOf(phase.todo[0].at)
      modifies this
      ensures Valid() && closing == NothingToClose && table == old(table) && inserted == old(inserted)
      ensures old(run) <= run && (RotationsSynced(old(run)) && io.sync ==> RotationsSynced(run))
      ensures old(openFile) == Some(date) ==> View() == old(View()) && run == old(run)
      ensures ok <==> old(openFile) == Some(date) || io.open
      ensures ok ==> phase == old(phase) && openFile == openDate == Some(date) && failed == old(failed)
      ensures !ok ==> phase == Idle && failed == Bumped(old(failed), old(phase.done))
      ensures var d := old(openFile);
              if d == None || d == Some(date) then bucket == old(bucket)
              else RotatedOut(Cfg(), old(files), old(bucket), files, bucket, d.value, io)
      ensures old(openFile) != Some(date) ==> forall d :: RotatedOn(old(files), files, bucket, old(Out()), d)
      ensures io.sync && !Cfg().Prunes() ==>
                forall d :: old(openFile) == Some(d) && d != date ==> IsSettled(files, d)
    {
      if openDate != Some(date) || openFile == None {
        ghost var before, out := files, Out();
        if openFile.Some? {
          RotateOut(io);
        }
        ghost var mid := files;
        OpenForAppend(date, io.open);
        if io.open { OpenedAfter(before, mid, files, bucket, out, date); }
        return io.open;
      }
      ok := true;
    }

    /** archive.go:218-256. */
    method AppendRow(e: Row, io: Outcomes) returns (err: Option<Error>)
      requires Valid() && phase.Iterating? && closing == NothingToClose && |phase.todo| > 0 && phase.todo[0] == e
      modifies this
      ensures Valid() && closing == NothingToClose && table == old(table) && inserted == old(inserted)
      ensures old(run) <= run && (RotationsSynced(old(run)) && io.sync ==> RotationsSynced(run))
      ensures err == if old(openFile) != Some(DayOf(e.at)) && !io.open then Some(OpenError)
                     else if io.write != Full then Some(WriteError) else None
      ensures err == None ==>
                && phase == Iterating(old(phase.cutoff), old(phase.todo)[1..], old(phase.done) + {e})
                && openFile == openDate == Some(DayOf(e.at)) && failed == old(failed)
                && run[|run| - 1] == Write(Full)
      ensures err != None ==> phase == Idle && failed == Bumped(old(failed), old(phase.done))
      ensures var d := old(openFile);
              if d == None || d == Some(DayOf(e.at)) then bucket == old(bucket)
              else RotatedOut(Cfg(), old(files), old(bucket), files, bucket, d.value, io)
      ensures err == None ==> SyncedWithin(files) && forall d :: AppendedOn(old(files), files, bucket, old(Out()), e, d)
      ensures err == None && io.sync && !Cfg().Prunes() ==>
                forall d :: old(openFile) == Some(d) && d != DayOf(e.at) ==> IsSettled(files, d)
    {
      var switched := SwitchTo(DayOf(e.at), io);
      if !switched {
        return Some(OpenError);
      }
      assert openFile == Some(DayOf(e.at));
      ghost var mid := files;
      ghost var out := if old(openFile) == openFile then None else old(Out());
      WriteLine(e, io.write);
      if io.write == Full { AppendedAfter(old(files), mid, files, bucket, out, e); }
      TrailEnds(Cfg(), trail, run);
      LayoutBounds(View());
      err := if io.write == Full then None else Some(WriteError);
    }

    method BeginIteration(cutoff: Time, order: seq<Row>)
      requires Valid() && Enabled(View(), Begin(cutoff, order))
      modifies this
      ensures Valid() && View() == Apply(old(View()), Begin(cutoff, order)) && run == old(run) + [Begin(cutoff, order)]
    {
      ghost var before := View();
      Took(before, Begin(cutoff, order), Apply(before, Begin(cutoff, order)));
    }

    method EndIteration(failedWith: Option<Error>)
      requires Valid() && Enabled(View(), if failedWith == None then NothingDue else IterFail)
      modifies this
      ensures var step := if failedWith == None then NothingDue else IterFail;
              Valid() && View() == Apply(old(View()), step) && run == old(run) + [step]
    {
      ghost var before := View();
      ghost var step := if failedWith == None then NothingDue else IterFail;
      Took(before, step, Apply(before, step));
    }

    /**
     * archive.go:179-188: the cursor yields `order`, `ios` is what each row's
     * calls return, and `iterErrorAt` is the row before which the cursor fails.
     */
    method StreamRows(cutoff: Time, order: seq<Row>, ios: seq<Outcomes>, iterErrorAt: Option<nat>)
      returns (count: nat, err: Option<Error>)
      requires Valid() && phase == Iterating(cutoff, order, {}) && closing == NothingToClose
      requires Distinct(order) && |ios| == |order|
      modifies this
      ensures Valid() && closing == NothingToClose && old(run) <= run
      ensures RotationsSynced(old(run)) && AllSynced(ios) ==> RotationsSynced(run)
      ensures table == old(table) && inserted == old(inserted) && count <= |order|
      ensures err == None ==> count == |order| && phase == Iterating(cutoff, [], Rows(order)) && failed == old(failed)
      ensures err != None ==> phase == Idle && failed == Bumped(old(failed), Rows(order[..count]))
      ensures err == None ==> iterErrorAt.Some? ==> iterErrorAt.value > |order|
      ensures AllComplete(ios) ==> err == None || err == Some(IterError)
      ensures err == Some(IterError) ==> iterErrorAt == Some(count)
      ensures err != Some(SyncError) && err != Some(DeleteError)
      ensures err == None && !Cfg().Prunes() ==> Swept(old(files), files, openFile, order, AllSynced(ios))
      ensures err == None ==> SyncedWithin(files)
      ensures err == None && s3 && InOrder(order) && AllStored(ios) ==>
                EarlierDaysAreUploaded(old(files), bucket, order)
    {
      TrailEnds(Cfg(), trail, run);
      LayoutBounds(View());
      NothingStreamed(Cfg(), files, bucket, openFile, order, ios);
      assert order[..0] == [] && order[0..] == order;
      count := 0;
      while count < |order| && iterErrorAt != Some(count)
        invariant 0 <= count <= |order| && Valid() && closing == NothingToClose && old(run) <= run
        invariant RotationsSynced(old(run)) && AllSynced(ios) ==> RotationsSynced(run)
        invariant table == old(table) && failed == old(failed) && inserted == old(inserted)
        invariant phase == Iterating(cutoff, order[count..], Rows(order[..count]))
        invariant Streamed(Cfg(), old(files), files, bucket, openFile, order, ios, count)
        invariant iterErrorAt.Some? ==> iterErrorAt.value >= count
      {
        RowsGrow(order, count);
        ghost var was, wasBucket, wasOpen, out := files, bucket, openFile, Out();
        assert ios[count] in ios;
        var rowErr := AppendRow(order[count], ios[count]);
        if rowErr != None {
          return count, rowErr;
        }
        OneMoreStreamed(Cfg(), old(files), was, wasBucket, wasOpen, files, bucket, out, order, ios, count);
        count := count + 1;
      }
      if iterErrorAt == Some(count) {
        EndIteration(Some(IterError));
        return count, Some(IterError);
      }
      assert order[..|order|] == order && order[|order|..] == [];
      AllStreamed(Cfg(), old(files), files, bucket, openFile, order, ios);
      err := None;
    }

    /** archive.go:177-207: everything that `Archive` does. */
    method MoveRows(cutoff: Time, order: seq<Row>, ios: seq<Outcomes>, iterErrorAt: Option<nat>, syncOk: bool,
                    deletion: Deletion)
      returns (count: nat, err: Option<Error>)
      requires Valid() && phase == Idle && closing == NothingToClose
      requires Distinct(order) && Rows(order) == Due(table, cutoff) && |ios| == |order|
      modifies this
      ensures Valid() && phase == Idle && closing == NothingToClose && old(run) <= run && inserted == old(inserted)
      ensures RotationsSynced(old(run)) && AllSynced(ios) ==> RotationsSynced(run)
      ensures err == None ==> count == |order| && table == old(table) - Due(old(table), cutoff) && failed == old(failed)
      ensures err != None ==> count <= |order| && failed == Bumped(old(failed), Rows(order[..count]))
      ensures err != None ==>
                table == if err == Some(DeleteError) && deletion == DeletedUnacknowledged
                         then old(table) - Due(old(table), cutoff) else old(table)
      ensures (AllComplete(ios) && syncOk && deletion == Deleted && iterErrorAt == None) ==> err == None
      ensures err == None && order != [] ==> EndsInSyncAndDelete(run, Deleted)
      ensures err == None && !Cfg().Prunes() ==> Swept(old(files), files, None, order, AllSynced(ios))
      ensures err == None && s3 && InOrder(order) && AllStored(ios) ==>
                EarlierDaysAreUploaded(old(files), bucket, order)
    {
      ghost var before := files;
      BeginIteration(cutoff, order);
      count, err := StreamRows(cutoff, order, ios, iterErrorAt);
      if err != None {
        return;
      }
      if count == 0 {
        assert order == [];
        EndIteration(None);
        NothingSwept(files, None);
      } else {
        assert order[0] in Rows(order) && order[..count] == order;
        ghost var streamed, wasOpen := files, openFile;
        err := SyncThenDelete(cutoff, syncOk, deletion);
        if err == None && !Cfg().Prunes() { SweepEnds(before, streamed, wasOpen, files, order, AllSynced(ios)); }
      }
    }

    /**
     * archive.go:177-207. The last clause says exactly when a successful sweep
     * has lost a row, with local files kept and every rotation so far synced.
     */
    method Archive(cutoff: Time, order: seq<Row>, ios: seq<Outcomes>, iterErrorAt: Option<nat>, syncOk: bool,
                   deletion: Deletion)
      returns (count: nat, err: Option<Error>)
      requires Valid() && phase == Idle && closing == NothingToClose
      requires Distinct(order) && Rows(order) == Due(table, cutoff) && |ios| == |order|
      modifies this
      ensures Valid() && phase == Idle && closing == NothingToClose && old(run) <= run && inserted == old(inserted)
      ensures RotationsSynced(old(run)) && AllSynced(ios) ==> RotationsSynced(run)
      ensures err == None ==>
                count == |order| && table == old(table) - Due(old(table), cutoff) && Due(table, cutoff) == {}
      ensures err == None ==> failed == old(failed)
      ensures err != None ==> count <= |order| && failed == Bumped(old(failed), Rows(order[..count]))
      ensures err != None ==>
                table == if err == Some(DeleteError) && deletion == DeletedUnacknowledged
                         then old(table) - Due(old(table), cutoff) else old(table)
      ensures (AllComplete(ios) && syncOk && deletion == Deleted && iterErrorAt == None) ==> err == None
      ensures err == None && order != [] ==> EndsInSyncAndDelete(run, Deleted)
      ensures err == None && !Cfg().Prunes() ==> Swept(old(files), files, None, order, AllSynced(ios))
      ensures (err == None && !Cfg().Prunes() && AllSynced(ios) && RotationsSynced(old(run))
               && old(NothingLost(View())))
              ==> (NothingLost(View()) <==> TornDaysAreCovered(old(files), order))
      ensures err == None && s3 && InOrder(order) && AllStored(ios) ==>
                EarlierDaysAreUploaded(old(files), bucket, order)
    {
      ghost var before, trailBefore, runBefore := View(), trail, run;
      count, err := MoveRows(cutoff, order, ios, iterErrorAt, syncOk, deletion);
      if err == None && !Cfg().Prunes() && AllSynced(ios) && RotationsSynced(runBefore) && NothingLost(before) {
        SweepVerdict(Cfg(), trailBefore, runBefore, trail, run, cutoff, order);
      }
    }

    /** archive.go:193-205. */
    method SyncThenDelete(cutoff: Time, syncOk: bool, deletion: Deletion) returns (err: Option<Error>)
      requires Valid() && closing == NothingToClose && phase.Iterating? && phase.todo == [] && phase.done != {}
      requires phase.cutoff == cutoff
      modifies this
      ensures Valid() && phase == Idle && closing == NothingToClose && inserted == old(inserted)
      ensures old(run) <= run && (RotationsSynced(old(run)) ==> RotationsSynced(run))
      ensures bucket == old(bucket)
      ensures files == if syncOk then WithSynced(old(files), old(openFile)) else old(files)
      ensures err == if !syncOk then Some(SyncError) else if deletion != Deleted then Some(DeleteError) else None
      ensures failed == if err == None then old(failed) else Bumped(old(failed), old(phase.done))
      ensures table == if syncOk && deletion != NotDeleted then old(table) - Due(old(table), cutoff) else old(table)
      ensures syncOk ==> |run| == |old(run)| + 2 && EndsInSyncAndDelete(run, deletion)
    {
      FinalSync(syncOk);
      if !syncOk {
        return Some(SyncError);
      }
      DeleteOlderThan(cutoff, deletion);
      err := if deletion == Deleted then None else Some(DeleteError);
    }
  }
}
