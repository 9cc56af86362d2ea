/**
 * "Duplicate, never lose": the safety of the archiver over every run, with
 * failures of every call and crashes between any two steps.
 */
module ArchiveSafety {
  import opened Options
  import opened Sorting
  import opened ArchiveMachine
  import opened ArchiveInvariants

  // ---------------------------------------------------------------- careful steps

  /**
   * `r` is where no later upload can overwrite it: on disk, or in the object
   * of a day that has no local file.
   */
  ghost predicate Safe(s: State, r: Row) {
    OnDisk(s, r) || (InBucket(s, r) && DayOf(r.at) !in s.files)
  }

  /** The `Sync` of a rotation works, or everything this sweep wrote to the file was stable already. */
  ghost predicate SettledRotation(s: State, step: Step)
    requires Enabled(s, step)
  {
    step.Rotate? && !step.syncOk ==>
      forall r :: r in s.phase.done && DayOf(r.at) == s.openFile.value ==> OnDisk(s, r)
  }

  /** A line starts on a fresh line, or its row can be read back from the file already. */
  ghost predicate WholeLine(s: State, step: Step)
    requires Enabled(s, step)
  {
    step == Write(Full) ==>
      var items := s.files[s.openFile.value].items;
      !EndsInFragment(items) || Readable(items, s.phase.todo[0])
  }

  /**
   * A new file is opened for a day only if every row its object still holds is
   * in the table, to be written again later.
   */
  ghost predicate HarmlessOpen(s: State, step: Step)
    requires Enabled(s, step)
  {
    step == Open(true) && DayOf(s.phase.todo[0].at) !in s.files ==>
      forall r :: InBucket(s, r) && DayOf(r.at) == DayOf(s.phase.todo[0].at) ==> r in s.table && r !in s.phase.done
  }

  /** No row is slipped in below the cutoff of the running sweep. */
  ghost predicate TimelyInsert(s: State, step: Step) {
    step.Insert? && s.phase != Idle ==> s.phase.cutoff <= step.row.at
  }

  ghost predicate Careful(s: State, step: Step)
    requires Enabled(s, step)
  {
    SettledRotation(s, step) && WholeLine(s, step) && HarmlessOpen(s, step) && TimelyInsert(s, step)
  }

  /** The steps of a run that are not careful, in order. */
  ghost function CarelessSteps(s: State, run: seq<Step>): seq<Step>
    requires IsRun(s, run)
    decreases |run|
  {
    if run == [] then []
    else (if Careful(s, run[0]) then [] else [run[0]]) + CarelessSteps(Apply(s, run[0]), run[1..])
  }

  // ---------------------------------------------------------------- the invariant

  /** What the sweep has written so far survives everything up to its own `Sync`. */
  ghost predicate WrittenSafely(s: State, r: Row) {
    || Safe(s, r)
    || (s.openFile == Some(DayOf(r.at)) && DayOf(r.at) in s.files && Readable(s.files[DayOf(r.at)].items, r))
  }

  ghost predicate DoneWritten(s: State) {
    && (s.phase.Iterating? ==> forall r :: r in s.phase.done ==> WrittenSafely(s, r))
    && (s.phase.Deleting? ==> forall r :: r in s.phase.done ==> Safe(s, r))
  }

  /** The rows that the delete will remove are the rows the sweep has written or will write. */
  ghost predicate OnTime(s: State) {
    && (s.phase.Iterating? ==> Due(s.table, s.phase.cutoff) == s.phase.done + Rows(s.phase.todo))
    && (s.phase.Deleting? ==> Due(s.table, s.phase.cutoff) == s.phase.done)
  }

  ghost predicate LeftSafe(s: State) {
    forall r :: r in s.inserted && r !in s.table ==> Safe(s, r)
  }

  ghost predicate Inv(s: State) {
    Steady(s) && DoneWritten(s) && OnTime(s) && LeftSafe(s)
  }

  // ---------------------------------------------------------------- one step

  lemma OnDiskKept(s: State, step: Step, r: Row)
    requires Steady(s) && Enabled(s, step) && OnDisk(s, r)
    ensures Safe(Apply(s, step), r)
  {
    var t, d := Apply(s, step), DayOf(r.at);
    if step.PowerLoss? {
      CrashKeepsDurable(s.files[d], step.kept[d]);
      assert Durable(t.files[d]) == step.kept[d];
      ReadableGrows(Durable(s.files[d]), Durable(t.files[d]), r);
    } else if step.Remove? {
      if step.removeOk && d == s.closing.day {
        ReadableGrows(Durable(s.files[d]), t.bucket[d], r);
      } else {
        assert t.files[d] == s.files[d];
      }
    } else {
      FilesGrow(s, step, d);
      ReadableGrows(Durable(s.files[d]), Durable(t.files[d]), r);
    }
  }

  /** A row that has left the table, or is about to, stays safe. */
  lemma SafeKept(s: State, step: Step, r: Row)
    requires Steady(s) && Enabled(s, step) && HarmlessOpen(s, step) && Safe(s, r)
    requires r !in s.table || (s.phase != Idle && r in s.phase.done)
    ensures Safe(Apply(s, step), r)
  {
    if OnDisk(s, r) { OnDiskKept(s, step, r); }
  }

  /** What a sweep has written stays written until the sweep ends; a rotation makes it stable. */
  lemma WrittenKept(s: State, step: Step, r: Row)
    requires Steady(s) && Enabled(s, step) && HarmlessOpen(s, step) && SettledRotation(s, step)
    requires s.phase.Iterating? && Apply(s, step).phase.Iterating? && r in s.phase.done && WrittenSafely(s, r)
    ensures WrittenSafely(Apply(s, step), r)
  {
    var t, d := Apply(s, step), DayOf(r.at);
    if Safe(s, r) {
      SafeKept(s, step, r);
    } else {
      assert FileLayout(s, d);
      FilesGrow(s, step, d);
      ReadableGrows(s.files[d].items, t.files[d].items, r);
      if step.Rotate? {
        assert Durable(t.files[d]) == s.files[d].items;
      }
    }
  }

  lemma WriteAdvances(s: State, step: Step)
    requires Steady(s) && Enabled(s, step) && WholeLine(s, step) && step == Write(Full)
    ensures WrittenSafely(Apply(s, step), s.phase.todo[0])
  {
    AppendedIsReadable(s.files[s.openFile.value].items, s.phase.todo[0]);
  }

  lemma SyncMakesStable(s: State, r: Row)
    requires Steady(s) && Enabled(s, Sync(true)) && r in s.phase.done && WrittenSafely(s, r)
    ensures Safe(Apply(s, Sync(true)), r)
  {
    var t := Apply(s, Sync(true));
    if Safe(s, r) {
      SafeKept(s, Sync(true), r);
    } else {
      assert Durable(t.files[DayOf(r.at)]) == s.files[DayOf(r.at)].items;
    }
  }

  /** Late inserts do not matter here. */
  lemma DoneWrittenKept(s: State, step: Step)
    requires Steady(s) && DoneWritten(s) && Enabled(s, step)
    requires SettledRotation(s, step) && WholeLine(s, step) && HarmlessOpen(s, step)
    ensures DoneWritten(Apply(s, step))
  {
    var t := Apply(s, step);
    if t.phase.Iterating? {
      forall r | r in t.phase.done ensures WrittenSafely(t, r) {
        if step.Write? && r == s.phase.todo[0] {
          WriteAdvances(s, step);
        } else {
          WrittenKept(s, step, r);
        }
      }
    } else if t.phase.Deleting? {
      forall r | r in t.phase.done ensures Safe(t, r) {
        if s.phase.Deleting? { SafeKept(s, step, r); } else { SyncMakesStable(s, r); }
      }
    }
  }

  lemma OnTimeKept(s: State, step: Step)
    requires SweepRows(s) && OnTime(s) && Enabled(s, step) && TimelyInsert(s, step)
    ensures OnTime(Apply(s, step))
  {
    if step == Write(Full) {
      assert s.phase.todo == [s.phase.todo[0]] + s.phase.todo[1..];
      assert Rows(s.phase.todo) == {s.phase.todo[0]} + Rows(s.phase.todo[1..]);
    } else if step == Sync(true) {
      assert Rows(s.phase.todo) == {};
    } else if step.Insert? && s.phase != Idle {
      assert Due(Apply(s, step).table, s.phase.cutoff) == Due(s.table, s.phase.cutoff);
    }
  }

  lemma LeftSafeKept(s: State, step: Step)
    requires Inv(s) && Enabled(s, step) && HarmlessOpen(s, step)
    ensures LeftSafe(Apply(s, step))
  {
    var t := Apply(s, step);
    forall r | r in t.inserted && r !in t.table ensures Safe(t, r) {
      SafeKept(s, step, r);
    }
  }

  /** No careful step breaks the invariant, in particular not the delete after the sync. */
  lemma InvKept(s: State, step: Step)
    requires Inv(s) && Enabled(s, step) && Careful(s, step)
    ensures Inv(Apply(s, step))
  {
    SteadyKept(s, step);
    DoneWrittenKept(s, step);
    OnTimeKept(s, step);
    LeftSafeKept(s, step);
  }

  // ---------------------------------------------------------------- every run

  /**
   * No audit row is ever lost: after every run without a careless step,
   * whatever else fails and wherever it crashes, each row that has left the
   * table can be read back from the archive of its own day.
   */
  lemma {:induction false} CarefulRunsLoseNothing(s: State, run: seq<Step>)
    requires Inv(s) && IsRun(s, run) && CarelessSteps(s, run) == []
    ensures Inv(Exec(s, run)) && NothingLost(Exec(s, run))
    decreases |run|
  {
    if run != [] {
      InvKept(s, run[0]);
      CarefulRunsLoseNothing(Apply(s, run[0]), run[1..]);
    }
  }

  /** The theorem from a fresh service. */
  lemma NeverLose(cfg: Config, run: seq<Step>)
    requires IsRun(Init(cfg), run) && CarelessSteps(Init(cfg), run) == []
    ensures NothingLost(Exec(Init(cfg), run))
  {
    CarefulRunsLoseNothing(Init(cfg), run);
  }

  /**
   * With local files kept after their upload, the stable part of the local file
   * alone suffices. No opening of a file needs care then, so the run may be
   * careless there.
   */
  lemma LocalCopiesSuffice(cfg: Config, run: seq<Step>)
    requires !cfg.Prunes()
    requires IsRun(Init(cfg), run) && forall c :: c in CarelessSteps(Init(cfg), run) ==> c.Open?
    ensures var t := Exec(Init(cfg), run); forall r :: r in t.inserted ==> r in t.table || OnDisk(t, r)
  {
    FilesAreKept(Init(cfg), run);
    if CarelessSteps(Init(cfg), run) != [] { assert CarelessSteps(Init(cfg), run)[0].Open?; }
    CarefulRunsLoseNothing(Init(cfg), run);
  }

  /** Without pruning a day that has an object has a file, so no opening of a file is careless. */
  lemma {:induction false} FilesAreKept(s: State, run: seq<Step>)
    requires Steady(s) && !s.cfg.Prunes() && IsRun(s, run) && forall d :: d in s.bucket ==> d in s.files
    ensures forall d :: d in Exec(s, run).bucket ==> d in Exec(s, run).files
    ensures forall c :: c in CarelessSteps(s, run) ==> !c.Open?
    decreases |run|
  {
    if run != [] {
      SteadyKept(s, run[0]);
      FilesStay(s, run[0]);
      FilesAreKept(Apply(s, run[0]), run[1..]);
    }
  }

  lemma FilesStay(s: State, step: Step)
    requires Steady(s) && !s.cfg.Prunes() && Enabled(s, step) && forall d :: d in s.bucket ==> d in s.files
    ensures Apply(s, step).cfg == s.cfg && forall d :: d in Apply(s, step).bucket ==> d in Apply(s, step).files
  {
  }

  /**
   * A row that has left the table and that no failed sweep had written is in
   * its day's file, or else in its object, exactly once, and nowhere twice.
   */
  lemma ExactlyOnceWithoutFailures(cfg: Config, run: seq<Step>, r: Row)
    requires IsRun(Init(cfg), run) && CarelessSteps(Init(cfg), run) == []
    requires var t := Exec(Init(cfg), run); r in t.inserted && r !in t.table && FailedSweeps(t.failed, r) == 0
    ensures var t, d := Exec(Init(cfg), run), DayOf(r.at);
            && (d in t.files ==> Occurrences(t.files[d].items, r) == 1)
            && (d in t.bucket ==> Occurrences(t.bucket[d], r) <= 1)
            && (d !in t.files ==> d in t.bucket && Occurrences(t.bucket[d], r) == 1)
  {
    var t, d := Exec(Init(cfg), run), DayOf(r.at);
    CarefulRunsLoseNothing(Init(cfg), run);
    BoundedDuplication(Init(cfg), run);
    assert Safe(t, r) && CopiesAllowed(t, r) == 1;
    assert d in t.files ==> FewIn(t, t.files[d].items, r);
    assert d in t.bucket ==> FewIn(t, t.bucket[d], r);
    if d in t.files {
      ReadableGrows(Durable(t.files[d]), t.files[d].items, r);
      assert Rec(r) in t.files[d].items;
    } else {
      assert Rec(r) in t.bucket[d];
    }
  }

  // ---------------------------------------------------------------- longer runs

  /** One more step at the end of a run. */
  lemma {:induction false} Extend(s: State, run: seq<Step>, step: Step)
    requires IsRun(s, run) && Enabled(Exec(s, run), step)
    ensures IsRun(s, run + [step])
    ensures Exec(s, run + [step]) == Apply(Exec(s, run), step)
    ensures CarelessSteps(s, run + [step]) ==
            CarelessSteps(s, run) + (if Careful(Exec(s, run), step) then [] else [step])
    decreases |run|
  {
    if run == [] {
      assert run + [step] == [step];
      assert [step][1..] == [];
    } else {
      assert (run + [step])[0] == run[0] && (run + [step])[1..] == run[1..] + [step];
      Extend(Apply(s, run[0]), run[1..], step);
    }
  }
}
