/**
 * Exactly when the archiver loses a row: which steps can, and on what condition,
 * for each of the four causes that `ArchiveLimits` exhibits.
 */
module ArchiveLosses {
  import opened Options
  import opened Sorting
  import opened ArchiveMachine
  import opened ArchiveInvariants
  import opened ArchiveSafety
  import opened ArchiveSweep

  // ---------------------------------------------------------------- rows that were never written

  /** No file and no object holds a line of `r`. */
  ghost predicate Unwritten(s: State, r: Row) {
    && (forall d :: d in s.files ==> Rec(r) !in s.files[d].items)
    && (forall d :: d in s.bucket ==> Rec(r) !in s.bucket[d])
  }

  /** The delete of the running sweep would remove `r`, but the sweep neither has written it nor will. */
  ghost predicate IsLate(s: State, r: Row) {
    && s.phase != Idle && r in Due(s.table, s.phase.cutoff) && r !in s.phase.done
    && (s.phase.Iterating? ==> r !in Rows(s.phase.todo))
  }

  ghost predicate LateUnwritten(s: State) {
    forall r :: IsLate(s, r) ==> Unwritten(s, r)
  }

  /** A step that does not write `r` leaves it unwritten. */
  lemma UnwrittenKept(s: State, step: Step, r: Row)
    requires Enabled(s, step) && Unwritten(s, r) && !Writes(s, step, r)
    ensures Unwritten(Apply(s, step), r)
  {
    if step.PowerLoss? {
      forall d | d in s.files ensures Rec(r) !in step.kept[d] {
        var f := s.files[d];
        assert CrashImage(f, step.kept[d]);
      }
    }
  }

  lemma LateUnwrittenKept(s: State, step: Step)
    requires Steady(s) && LateUnwritten(s) && Enabled(s, step)
    ensures LateUnwritten(Apply(s, step))
  {
    var t := Apply(s, step);
    forall r | IsLate(t, r) ensures Unwritten(t, r) {
      if step == Write(Full) {
        assert s.phase.todo == [s.phase.todo[0]] + s.phase.todo[1..];
        assert IsLate(s, r);
      } else if step.Insert? && r == step.row {
        forall d | d in s.files ensures Rec(r) !in s.files[d].items { assert FileLayout(s, d); }
      } else {
        assert IsLate(s, r);
      }
      UnwrittenKept(s, step, r);
    }
  }

  lemma UnwrittenIsNotArchived(s: State, r: Row)
    requires Unwritten(s, r)
    ensures !Archived(s, r)
  {
  }

  // ---------------------------------------------------------------- which steps lose rows

  /** The sweep has written every row that its delete removes, and each can be read back. */
  ghost predicate DeleteIsCovered(s: State)
    requires s.phase.Deleting?
  {
    Due(s.table, s.phase.cutoff) == s.phase.done && forall r :: r in s.phase.done ==> Archived(s, r)
  }

  /** The object about to be replaced holds only rows that are in the table or in the file that replaces it. */
  ghost predicate UploadIsCovered(s: State)
    requires s.closing.ToUpload? && s.closing.day in s.files
  {
    s.closing.day in s.bucket ==>
      forall r :: Readable(s.bucket[s.closing.day], r) ==> r in s.table || Readable(s.files[s.closing.day].items, r)
  }

  /**
   * Careful or not, deletes and uploads are the only steps that lose a row, and
   * they do exactly when they are not covered.
   */
  lemma LosesNothingExactlyWhen(s: State, step: Step)
    requires Steady(s) && LateUnwritten(s) && NothingLost(s) && Enabled(s, step)
    ensures NothingLost(Apply(s, step)) <==>
            && (step.Delete? && step.deletion != NotDeleted ==> DeleteIsCovered(s))
            && (step.Upload? && step.put != NotStored ==> UploadIsCovered(s))
  {
    if step.Delete? {
      DeleteLoses(s, step);
    } else if step.Upload? {
      UploadLoses(s, step);
    } else {
      var t := Apply(s, step);
      forall r | r in t.inserted ensures r in t.table || Archived(t, r) {
        if r in s.inserted && r !in s.table {
          if OnDisk(s, r) { OnDiskKept(s, step, r); }
        }
      }
    }
  }

  lemma DeleteLoses(s: State, step: Step)
    requires Steady(s) && LateUnwritten(s) && NothingLost(s) && Enabled(s, step) && step.Delete?
    ensures NothingLost(Apply(s, step)) <==> (step.deletion != NotDeleted ==> DeleteIsCovered(s))
  {
    var t := Apply(s, step);
    if step.deletion != NotDeleted && NothingLost(t) {
      forall r | r in Due(s.table, s.phase.cutoff) ensures r in s.phase.done && Archived(s, r) {
        assert r in t.inserted && r !in t.table;
        if r !in s.phase.done {
          assert IsLate(s, r);
        }
      }
    }
    if step.deletion == NotDeleted || DeleteIsCovered(s) {
      forall r | r in t.inserted ensures r in t.table || Archived(t, r) {
        assert Archived(t, r) <==> Archived(s, r);
      }
    }
  }

  lemma UploadLoses(s: State, step: Step)
    requires Steady(s) && NothingLost(s) && Enabled(s, step) && step.Upload?
    ensures NothingLost(Apply(s, step)) <==> (step.put != NotStored ==> UploadIsCovered(s))
  {
    var t, d := Apply(s, step), s.closing.day;
    assert FileLayout(s, d);
    if step.put != NotStored && NothingLost(t) && d in s.bucket {
      forall r | Readable(s.bucket[d], r) ensures r in s.table || Readable(s.files[d].items, r) {
        assert OfDay(s.inserted, s.bucket[d], d);
        var i :| 0 <= i < |s.bucket[d]| && s.bucket[d][i] == Rec(r);
        if OnDisk(t, r) { ReadableGrows(Durable(s.files[d]), s.files[d].items, r); }
      }
    }
    if step.put == NotStored || UploadIsCovered(s) {
      forall r | r in t.inserted ensures r in t.table || Archived(t, r) {
        assert OnDisk(t, r) <==> OnDisk(s, r);
        assert DayOf(r.at) != d ==> (InBucket(t, r) <==> InBucket(s, r));
      }
    }
  }

  lemma {:induction false} LateRowsAreUnwritten(s: State, run: seq<Step>)
    requires Steady(s) && LateUnwritten(s) && IsRun(s, run)
    ensures Steady(Exec(s, run)) && LateUnwritten(Exec(s, run))
    decreases |run|
  {
    if run != [] {
      SteadyKept(s, run[0]);
      LateUnwrittenKept(s, run[0]);
      LateRowsAreUnwritten(Apply(s, run[0]), run[1..]);
    }
  }

  /** The theorem for every run from a fresh service. */
  lemma OnlyDeletesAndUploadsLose(cfg: Config, run: seq<Step>, step: Step)
    requires IsRun(Init(cfg), run) && NothingLost(Exec(Init(cfg), run)) && Enabled(Exec(Init(cfg), run), step)
    ensures var s := Exec(Init(cfg), run);
            NothingLost(Apply(s, step)) <==>
            && (step.Delete? && step.deletion != NotDeleted ==> DeleteIsCovered(s))
            && (step.Upload? && step.put != NotStored ==> UploadIsCovered(s))
  {
    LateRowsAreUnwritten(Init(cfg), run);
    LosesNothingExactlyWhen(Exec(Init(cfg), run), step);
  }

  // ---------------------------------------------------------------- late inserts

  /** Every delete of the run that took effect removed exactly the rows its sweep had written. */
  ghost predicate DeletesMatch(s: State, run: seq<Step>)
    requires IsRun(s, run)
    decreases |run|
  {
    run == [] || (DeleteMatches(s, run[0]) && DeletesMatch(Apply(s, run[0]), run[1..]))
  }

  ghost predicate DeleteMatches(s: State, step: Step)
    requires Enabled(s, step)
  {
    step.Delete? && step.deletion != NotDeleted ==> Due(s.table, s.phase.cutoff) == s.phase.done
  }

  /** A row that has left the table is safe, or it was never written. */
  ghost predicate SafeOrUnwritten(s: State) {
    forall r :: r in s.inserted && r !in s.table ==> Safe(s, r) || Unwritten(s, r)
  }

  ghost predicate LateInv(s: State) {
    Steady(s) && DoneWritten(s) && LateUnwritten(s) && SafeOrUnwritten(s)
  }

  /** A row outside the table stays safe or unwritten. */
  lemma LeftRowKept(s: State, step: Step, r: Row)
    requires Steady(s) && Enabled(s, step) && HarmlessOpen(s, step) && r in s.inserted && r !in s.table
    requires Safe(s, r) || Unwritten(s, r)
    ensures r !in Apply(s, step).table
    ensures Safe(s, r) ==> Safe(Apply(s, step), r)
    ensures Unwritten(s, r) ==> Unwritten(Apply(s, step), r)
  {
    if Safe(s, r) { SafeKept(s, step, r); }
    assert step == Write(Full) ==> s.phase.todo[0] in Rows(s.phase.todo);
    if Unwritten(s, r) { UnwrittenKept(s, step, r); }
  }

  /** A row that a delete removes was written by its sweep, or never. */
  lemma DeletedRowKept(s: State, step: Step, r: Row)
    requires LateInv(s) && Enabled(s, step) && r in s.table && r !in Apply(s, step).table
    ensures r in s.phase.done <==> Safe(Apply(s, step), r)
    ensures r !in s.phase.done ==> Unwritten(Apply(s, step), r)
  {
    if r in s.phase.done {
      SafeKept(s, step, r);
    } else {
      assert IsLate(s, r);
      UnwrittenKept(s, step, r);
    }
  }

  lemma LateInvKept(s: State, step: Step)
    requires LateInv(s) && Enabled(s, step) && (Careful(s, step) || step.Insert?)
    ensures LateInv(Apply(s, step))
  {
    SteadyKept(s, step);
    DoneWrittenKept(s, step);
    LateUnwrittenKept(s, step);
    var t := Apply(s, step);
    forall r | r in t.inserted && r !in t.table ensures Safe(t, r) || Unwritten(t, r) {
      if r in s.table { DeletedRowKept(s, step, r); } else { LeftRowKept(s, step, r); }
    }
  }

  lemma LateStep(s: State, step: Step)
    requires LateInv(s) && Enabled(s, step) && (Careful(s, step) || step.Insert?)
    ensures NothingLost(Apply(s, step)) <==> NothingLost(s) && DeleteMatches(s, step)
  {
    var t := Apply(s, step);
    if NothingLost(t) {
      forall r | r in s.inserted ensures r in s.table || Archived(s, r) {
        if r !in s.table {
          LeftRowKept(s, step, r);
          if Unwritten(t, r) { UnwrittenIsNotArchived(t, r); }
        }
      }
      if step.Delete? && step.deletion != NotDeleted {
        forall r | r in Due(s.table, s.phase.cutoff) ensures r in s.phase.done {
          DeletedRowKept(s, step, r);
          if Unwritten(t, r) { UnwrittenIsNotArchived(t, r); }
        }
      }
    }
    if NothingLost(s) && DeleteMatches(s, step) {
      forall r | r in t.inserted ensures r in t.table || Archived(t, r) {
        if r in s.inserted && r !in s.table {
          if Unwritten(s, r) { UnwrittenIsNotArchived(s, r); }
          LeftRowKept(s, step, r);
        } else if r !in t.table {
          DeletedRowKept(s, step, r);
        }
      }
    }
  }

  /**
   * A run whose only careless steps are late inserts loses nothing exactly when
   * every delete that took effect removed just the rows its sweep had written.
   */
  lemma {:induction false} LateInsertsLoseNothingExactlyWhen(s: State, run: seq<Step>)
    requires LateInv(s) && IsRun(s, run) && forall c :: c in CarelessSteps(s, run) ==> c.Insert?
    ensures NothingLost(Exec(s, run)) <==> NothingLost(s) && DeletesMatch(s, run)
    decreases |run|
  {
    if run != [] {
      var t := Apply(s, run[0]);
      assert !Careful(s, run[0]) ==> run[0] in CarelessSteps(s, run);
      LateInvKept(s, run[0]);
      LateStep(s, run[0]);
      forall c | c in CarelessSteps(t, run[1..]) ensures c.Insert? {
        assert c in CarelessSteps(s, run);
      }
      LateInsertsLoseNothingExactlyWhen(t, run[1..]);
    }
  }

  // ---------------------------------------------------------------- failed rotations

  /** `r` was written and its line has not been lost, but perhaps it is not stable yet. */
  ghost predicate OnFile(s: State, r: Row) {
    Safe(s, r) || (DayOf(r.at) in s.files && Readable(s.files[DayOf(r.at)].items, r))
  }

  ghost predicate DoneOnFile(s: State) {
    s.phase != Idle ==> forall r :: r in s.phase.done ==> OnFile(s, r)
  }

  lemma OnFileKept(s: State, step: Step, r: Row)
    requires Steady(s) && Enabled(s, step) && HarmlessOpen(s, step) && OnFile(s, r)
    requires s.phase != Idle && r in s.phase.done && Apply(s, step).phase != Idle
    ensures OnFile(Apply(s, step), r)
  {
    var d := DayOf(r.at);
    if Safe(s, r) {
      SafeKept(s, step, r);
    } else if !step.Remove? {
      assert FileLayout(s, d);
      FilesGrow(s, step, d);
      ReadableGrows(s.files[d].items, Apply(s, step).files[d].items, r);
    }
  }

  lemma DoneOnFileKept(s: State, step: Step)
    requires Steady(s) && DoneOnFile(s) && Enabled(s, step) && HarmlessOpen(s, step) && WholeLine(s, step)
    ensures DoneOnFile(Apply(s, step))
  {
    var t := Apply(s, step);
    if t.phase != Idle {
      forall r | r in t.phase.done ensures OnFile(t, r) {
        if step.Write? && r == s.phase.todo[0] {
          WriteAdvances(s, step);
        } else {
          OnFileKept(s, step, r);
        }
      }
    }
  }

  lemma {:induction false} DoneStaysOnFile(s: State, run: seq<Step>)
    requires Steady(s) && DoneOnFile(s) && IsRun(s, run)
    requires forall c :: c in CarelessSteps(s, run) ==> c.Insert? || c.Rotate?
    ensures DoneOnFile(Exec(s, run))
    decreases |run|
  {
    if run != [] {
      var t := Apply(s, run[0]);
      assert !Careful(s, run[0]) ==> run[0] in CarelessSteps(s, run);
      SteadyKept(s, run[0]);
      DoneOnFileKept(s, run[0]);
      forall c | c in CarelessSteps(t, run[1..]) ensures c.Insert? || c.Rotate? {
        assert c in CarelessSteps(s, run);
      }
      DoneStaysOnFile(t, run[1..]);
    }
  }

  /** The rows of the sweep in the file of `d` are in its stable part, or in the day's object. */
  ghost predicate TailIsCovered(s: State, d: Day)
    requires d in s.files && s.phase.Deleting?
  {
    forall r :: r in s.phase.done && DayOf(r.at) == d ==> OnDisk(s, r) || InBucket(s, r)
  }

  ghost predicate HasUnsyncedTail(f: File) {
    f.synced < |f.items|
  }

  /**
   * After a run whose only careless steps are failed rotation syncs and late
   * inserts, the delete loses nothing exactly when no late row is due, and each
   * file left with an unsynced tail has the rows of this sweep in its stable part
   * or in its object already.
   */
  lemma FailedRotationsLoseNothingExactlyWhen(cfg: Config, run: seq<Step>, deletion: Deletion)
    requires IsRun(Init(cfg), run) && forall c :: c in CarelessSteps(Init(cfg), run) ==> c.Insert? || c.Rotate?
    requires var s := Exec(Init(cfg), run); NothingLost(s) && Enabled(s, Delete(deletion)) && deletion != NotDeleted
    ensures var s := Exec(Init(cfg), run);
            NothingLost(Apply(s, Delete(deletion))) <==>
            && Due(s.table, s.phase.cutoff) == s.phase.done
            && forall d :: d in s.files && HasUnsyncedTail(s.files[d]) ==> TailIsCovered(s, d)
  {
    var s := Exec(Init(cfg), run);
    LateRowsAreUnwritten(Init(cfg), run);
    DoneStaysOnFile(Init(cfg), run);
    LosesNothingExactlyWhen(s, Delete(deletion));
    if forall d :: d in s.files && HasUnsyncedTail(s.files[d]) ==> TailIsCovered(s, d) {
      forall r | r in s.phase.done ensures Archived(s, r) {
        CoveredRowsAreArchived(s, r);
      }
    }
  }

  lemma CoveredRowsAreArchived(s: State, r: Row)
    requires Layout(s) && s.phase.Deleting? && r in s.phase.done && OnFile(s, r)
    requires forall d :: d in s.files && HasUnsyncedTail(s.files[d]) ==> TailIsCovered(s, d)
    ensures Archived(s, r)
  {
    var d := DayOf(r.at);
    if !Safe(s, r) {
      assert FileLayout(s, d);
      assert HasUnsyncedTail(s.files[d]);
      assert TailIsCovered(s, d);
    }
  }

  // ---------------------------------------------------------------- torn lines

  /** `r` can be read back from its day's file as it stands, stable or not, or from its object. */
  ghost predicate ReadsBack(s: State, r: Row) {
    (DayOf(r.at) in s.files && Readable(s.files[DayOf(r.at)].items, r)) || InBucket(s, r)
  }

  /** A row that the sweep has written survives up to the `Sync`, if it can be read back at all. */
  ghost predicate ReadableIsWritten(s: State) {
    && (s.phase.Iterating? ==> forall r :: r in s.phase.done && OnFile(s, r) ==> WrittenSafely(s, r))
    && (s.phase.Deleting? ==> forall r :: r in s.phase.done && OnFile(s, r) ==> Safe(s, r))
  }

  /** No step but its own write makes a row readable. */
  lemma OnFileBefore(s: State, step: Step, r: Row)
    requires Steady(s) && Enabled(s, step) && !Writes(s, step, r) && !step.PowerLoss? && OnFile(Apply(s, step), r)
    ensures OnFile(s, r)
  {
    var t, d := Apply(s, step), DayOf(r.at);
    assert d in s.files ==> FileLayout(s, d);
    assert d in t.files ==> FileLayout(t, d) by { LayoutKept(s, step); }
    if OnDisk(t, r) { ReadableGrows(Durable(t.files[d]), t.files[d].items, r); }
    if step.Write? && d in s.files && d == s.openFile.value && Readable(t.files[d].items, r) {
      if step == Write(Full) {
        OthersUnchanged(s.files[d].items, Rec(s.phase.todo[0]), r);
      } else if step.written.fragment {
        OthersUnchanged(s.files[d].items, Frag, r);
      }
    }
  }

  lemma ReadableIsWrittenKept(s: State, step: Step)
    requires Steady(s) && ReadableIsWritten(s) && Enabled(s, step)
    requires SettledRotation(s, step) && HarmlessOpen(s, step)
    ensures ReadableIsWritten(Apply(s, step))
  {
    var t := Apply(s, step);
    if t.phase.Iterating? {
      forall r | r in t.phase.done && OnFile(t, r) ensures WrittenSafely(t, r) {
        if !(step.Write? && r == s.phase.todo[0]) {
          OnFileBefore(s, step, r);
          WrittenKept(s, step, r);
        }
      }
    } else if t.phase.Deleting? {
      forall r | r in t.phase.done && OnFile(t, r) ensures Safe(t, r) {
        OnFileBefore(s, step, r);
        if s.phase.Deleting? { SafeKept(s, step, r); } else { SyncMakesStable(s, r); }
      }
    }
  }

  lemma {:induction false} TornRunsKeep(s: State, run: seq<Step>)
    requires Steady(s) && ReadableIsWritten(s) && OnTime(s) && IsRun(s, run)
    requires forall c :: c in CarelessSteps(s, run) ==> c.Write?
    ensures ReadableIsWritten(Exec(s, run)) && OnTime(Exec(s, run))
    decreases |run|
  {
    if run != [] {
      var t := Apply(s, run[0]);
      assert !Careful(s, run[0]) ==> run[0] in CarelessSteps(s, run);
      SteadyKept(s, run[0]);
      ReadableIsWrittenKept(s, run[0]);
      OnTimeKept(s, run[0]);
      forall c | c in CarelessSteps(t, run[1..]) ensures c.Write? { assert c in CarelessSteps(s, run); }
      TornRunsKeep(t, run[1..]);
    }
  }

  /**
   * After a run whose only careless steps are writes straight after a torn line,
   * in every configuration, the delete loses nothing exactly when each row of the
   * sweep can be read back from its day's file as it stands, or from its object:
   * whether that line is stable need not be asked.
   */
  lemma TornLinesLoseNothingExactlyWhen(cfg: Config, run: seq<Step>, deletion: Deletion)
    requires IsRun(Init(cfg), run) && forall c :: c in CarelessSteps(Init(cfg), run) ==> c.Write?
    requires var s := Exec(Init(cfg), run); NothingLost(s) && Enabled(s, Delete(deletion)) && deletion != NotDeleted
    ensures var s := Exec(Init(cfg), run);
            NothingLost(Apply(s, Delete(deletion))) <==> forall r :: r in s.phase.done ==> ReadsBack(s, r)
  {
    var s := Exec(Init(cfg), run);
    LateRowsAreUnwritten(Init(cfg), run);
    TornRunsKeep(Init(cfg), run);
    LosesNothingExactlyWhen(s, Delete(deletion));
    forall r | r in s.phase.done ensures Archived(s, r) <==> ReadsBack(s, r) {
      var d := DayOf(r.at);
      assert d in s.files ==> FileLayout(s, d);
      if OnDisk(s, r) { ReadableGrows(Durable(s.files[d]), s.files[d].items, r); }
    }
  }
}
