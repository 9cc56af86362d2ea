/**
 * What every run of the archiver keeps, whatever fails, wherever it crashes and
 * whenever rows arrive: the day layout, the open handle, the progress of a
 * sweep, and the bound on duplicates.
 */
module ArchiveInvariants {
  import opened Options
  import opened Sorting
  import opened ArchiveMachine

  function Durable(f: File): seq<Item>
    requires f.synced <= |f.items|
  {
    f.items[..f.synced]
  }

  /** `r` can be read back from the stable part of the local file of its own day. */
  ghost predicate OnDisk(s: State, r: Row) {
    var d := DayOf(r.at);
    d in s.files && s.files[d].synced <= |s.files[d].items| && Readable(Durable(s.files[d]), r)
  }

  /** `r` can be read back from the S3 object of its own day. */
  ghost predicate InBucket(s: State, r: Row) {
    DayOf(r.at) in s.bucket && Readable(s.bucket[DayOf(r.at)], r)
  }

  ghost predicate Archived(s: State, r: Row) {
    OnDisk(s, r) || InBucket(s, r)
  }

  /** The promise of archive.go:16-19. */
  ghost predicate NothingLost(s: State) {
    forall r :: r in s.inserted ==> r in s.table || Archived(s, r)
  }

  // ---------------------------------------------------------------- the invariant of every run

  /** Every line of a day's file, local or uploaded, is an inserted row of that day. */
  ghost predicate OfDay(inserted: set<Row>, items: seq<Item>, d: Day) {
    forall i :: 0 <= i < |items| && items[i].Rec? ==> DayOf(items[i].row.at) == d && items[i].row in inserted
  }

  ghost predicate FileLayout(s: State, d: Day)
    requires d in s.files
  {
    s.files[d].synced <= |s.files[d].items| && OfDay(s.inserted, s.files[d].items, d)
  }

  ghost predicate Layout(s: State) {
    && (forall d :: d in s.files ==> FileLayout(s, d))
    && (forall d :: d in s.bucket ==> OfDay(s.inserted, s.bucket[d], d))
  }

  /**
   * The open handle is the file of `openDate`; a closed file waits for its
   * upload only inside a rotation, and for its removal only once its object is
   * the whole file.
   */
  ghost predicate Handle(s: State) {
    && (s.openFile.Some? ==> s.openFile == s.openDate && s.openFile.value in s.files && s.closing == NothingToClose)
    && (s.closing != NothingToClose ==>
          && s.phase.Iterating? && |s.phase.todo| > 0 && s.cfg.s3
          && s.closing.day in s.files && s.openDate == Some(s.closing.day)
          && s.closing.day != DayOf(s.phase.todo[0].at))
    && (s.closing.ToRemove? ==>
          && s.cfg.deleteAfterUpload && s.closing.day in s.bucket
          && s.bucket[s.closing.day] == s.files[s.closing.day].items)
    && (s.bucket != map[] ==> s.cfg.s3)
  }

  /** A sweep has written and has still to write rows that are due. */
  ghost predicate SweepRows(s: State) {
    && s.table <= s.inserted
    && (s.phase.Iterating? ==>
          && Distinct(s.phase.todo) && Rows(s.phase.todo) !! s.phase.done
          && s.phase.done + Rows(s.phase.todo) <= Due(s.table, s.phase.cutoff))
    && (s.phase.Deleting? ==> s.phase.done <= Due(s.table, s.phase.cutoff))
  }

  ghost predicate Steady(s: State) {
    Layout(s) && Handle(s) && SweepRows(s)
  }

  /** A power loss keeps the stable part of a file. */
  lemma CrashKeepsDurable(f: File, image: seq<Item>)
    requires CrashImage(f, image)
    ensures Durable(f) <= image
  {
  }

  lemma AppendedIsOfDay(inserted: set<Row>, items: seq<Item>, item: Item, d: Day)
    requires OfDay(inserted, items, d) && (item.Rec? ==> item.row in inserted && DayOf(item.row.at) == d)
    ensures OfDay(inserted, items + [item], d)
  {
  }

  lemma WriteLayoutKept(s: State, w: Written, d: Day)
    requires Steady(s) && Enabled(s, Write(w)) && d in s.files
    ensures FileLayout(Apply(s, Write(w)), d)
  {
    var f := s.files[d];
    assert FileLayout(s, d) && s.phase.todo[0] in Rows(s.phase.todo);
    if d == s.openFile.value {
      AppendedIsOfDay(s.inserted, f.items, Rec(s.phase.todo[0]), d);
      AppendedIsOfDay(s.inserted, f.items, Frag, d);
    }
  }

  lemma FileLayoutKept(s: State, step: Step, d: Day)
    requires Steady(s) && Enabled(s, step) && d in Apply(s, step).files
    ensures FileLayout(Apply(s, step), d)
  {
    if step.Write? {
      WriteLayoutKept(s, step.written, d);
    } else {
      if d in s.files { assert FileLayout(s, d); }
      if step.PowerLoss? { assert CrashImage(s.files[d], step.kept[d]); }
    }
  }

  /** Every step keeps each file and each object to rows of its own day. */
  lemma LayoutKept(s: State, step: Step)
    requires Steady(s) && Enabled(s, step)
    ensures Layout(Apply(s, step))
  {
    forall d | d in Apply(s, step).files ensures FileLayout(Apply(s, step), d) {
      FileLayoutKept(s, step, d);
    }
    if step.Upload? { assert FileLayout(s, s.closing.day); }
  }

  lemma SweepRowsKept(s: State, step: Step)
    requires SweepRows(s) && Enabled(s, step)
    ensures SweepRows(Apply(s, step))
  {
    if step == Write(Full) {
      assert s.phase.todo == [s.phase.todo[0]] + s.phase.todo[1..];
      assert Rows(s.phase.todo) == {s.phase.todo[0]} + Rows(s.phase.todo[1..]);
    }
  }

  lemma SteadyKept(s: State, step: Step)
    requires Steady(s) && Enabled(s, step)
    ensures Steady(Apply(s, step))
  {
    LayoutKept(s, step);
    SweepRowsKept(s, step);
  }

  /** Every reachable state is steady. */
  lemma {:induction false} EveryRunIsSteady(s: State, run: seq<Step>)
    requires Steady(s) && IsRun(s, run)
    ensures Steady(Exec(s, run))
    decreases |run|
  {
    if run != [] {
      SteadyKept(s, run[0]);
      EveryRunIsSteady(Apply(s, run[0]), run[1..]);
    }
  }

  /** In every run, every line of `audit-D.jsonl` and of its object is an inserted row dated D. */
  lemma EachFileHoldsItsOwnDay(cfg: Config, run: seq<Step>)
    requires IsRun(Init(cfg), run)
    ensures var t := Exec(Init(cfg), run);
            && (forall d :: d in t.files ==> OfDay(t.inserted, t.files[d].items, d))
            && (forall d :: d in t.bucket ==> OfDay(t.inserted, t.bucket[d], d))
  {
    EveryRunIsSteady(Init(cfg), run);
    var t := Exec(Init(cfg), run);
    forall d | d in t.files ensures OfDay(t.inserted, t.files[d].items, d) {
      assert FileLayout(t, d);
    }
  }

  /** In every run, whenever a line may be written, the open handle is the file of that row's day. */
  lemma WritesGoToTheirOwnDay(cfg: Config, run: seq<Step>, w: Written)
    requires IsRun(Init(cfg), run) && Enabled(Exec(Init(cfg), run), Write(w))
    ensures var t := Exec(Init(cfg), run); t.openFile == Some(DayOf(t.phase.todo[0].at)) == t.openDate
  {
    EveryRunIsSteady(Init(cfg), run);
  }

  // ---------------------------------------------------------------- lines

  lemma ReadableGrows(a: seq<Item>, b: seq<Item>, r: Row)
    requires a <= b && Readable(a, r)
    ensures Readable(b, r)
  {
    var i :| 0 <= i < |a| && a[i] == Rec(r) && (i == 0 || a[i - 1] != Frag);
    assert b[i] == Rec(r);
  }

  lemma AppendedIsReadable(items: seq<Item>, r: Row)
    ensures Readable(items + [Rec(r)], r) <==> Readable(items, r) || !EndsInFragment(items)
  {
    var b := items + [Rec(r)];
    if Readable(items, r) { ReadableGrows(items, b, r); }
    if !EndsInFragment(items) {
      assert b[|items|] == Rec(r) && (|items| > 0 ==> b[|items| - 1] == items[|items| - 1]);
    }
    if Readable(b, r) {
      var i :| 0 <= i < |b| && b[i] == Rec(r) && (i == 0 || b[i - 1] != Frag);
      if i < |items| {
        assert items[i] == Rec(r) && (i > 0 ==> items[i - 1] == b[i - 1]);
        assert Readable(items, r);
      } else {
        assert i > 0 ==> items[i - 1] == b[i - 1];
        assert !EndsInFragment(items);
      }
    }
  }

  /** Outside a crash and a prune, files only grow, and so do their stable parts. */
  lemma FilesGrow(s: State, step: Step, d: Day)
    requires Enabled(s, step) && d in s.files && s.files[d].synced <= |s.files[d].items|
    requires !step.PowerLoss? && !step.Remove?
    ensures d in Apply(s, step).files
    ensures s.files[d].items <= Apply(s, step).files[d].items
    ensures s.files[d].synced <= Apply(s, step).files[d].synced <= |Apply(s, step).files[d].items|
    ensures Durable(s.files[d]) <= Durable(Apply(s, step).files[d])
  {
  }

  // ---------------------------------------------------------------- duplicates

  /** The sweep under way has written `r`, or a sweep that wrote it has deleted it from the table. */
  ghost predicate WrittenThisTime(s: State, r: Row) {
    (s.phase != Idle && r in s.phase.done) || (r in s.inserted && r !in s.table)
  }

  /** How many copies of `r` any one file or object may hold. */
  ghost function CopiesAllowed(s: State, r: Row): nat {
    FailedSweeps(s.failed, r) + (if WrittenThisTime(s, r) then 1 else 0)
  }

  ghost predicate FewCopies(s: State) {
    && SweepRows(s)
    && (forall d, r :: d in s.files ==> FewIn(s, s.files[d].items, r))
    && (forall d, r :: d in s.bucket ==> FewIn(s, s.bucket[d], r))
  }

  ghost predicate FewIn(s: State, items: seq<Item>, r: Row) {
    Occurrences(items, r) <= CopiesAllowed(s, r)
  }

  lemma CrashAddsNoCopies(f: File, image: seq<Item>, r: Row)
    requires CrashImage(f, image)
    ensures Occurrences(image, r) <= Occurrences(f.items, r)
  {
    var n :| f.synced <= n <= |f.items| &&
      (image == f.items[..n] || (n < |f.items| && image == f.items[..n] + [Frag]));
    assert f.items == f.items[..n] + f.items[n..];
  }

  ghost function CopiesIn(s: State, d: Day, r: Row): nat {
    if d in s.files then Occurrences(s.files[d].items, r) else 0
  }

  /** The row that a step writes completely, if it writes one. */
  ghost predicate Writes(s: State, step: Step, r: Row)
    requires Enabled(s, step)
  {
    step == Write(Full) && r == s.phase.todo[0]
  }

  /** Only a complete write adds a copy, and only of the row it writes. */
  lemma CopiesAfter(s: State, step: Step, d: Day, r: Row)
    requires Enabled(s, step)
    ensures CopiesIn(Apply(s, step), d, r) <= CopiesIn(s, d, r) + (if Writes(s, step, r) then 1 else 0)
  {
    if step.PowerLoss? && d in s.files { CrashAddsNoCopies(s.files[d], step.kept[d], r); }
  }

  /** A row written so far, that the step does not write, is still counted after it. */
  lemma StaysWritten(s: State, step: Step, r: Row)
    requires SweepRows(s) && Enabled(s, step)
    ensures var t := Apply(s, step);
            WrittenThisTime(s, r) ==>
              WrittenThisTime(t, r) || FailedSweeps(t.failed, r) == FailedSweeps(s.failed, r) + 1
    ensures FailedSweeps(Apply(s, step).failed, r) >= FailedSweeps(s.failed, r)
  {
  }

  /** What a step may do to the right-hand side of the bound. */
  lemma AllowanceGrows(s: State, step: Step, r: Row)
    requires SweepRows(s) && Enabled(s, step)
    ensures CopiesAllowed(Apply(s, step), r) >= CopiesAllowed(s, r) + (if Writes(s, step, r) then 1 else 0)
  {
    StaysWritten(s, step, r);
    if step == Write(Full) { assert s.phase.todo[0] in Rows(s.phase.todo); }
  }

  lemma FewCopiesKept(s: State, step: Step)
    requires FewCopies(s) && Enabled(s, step)
    ensures FewCopies(Apply(s, step))
  {
    SweepRowsKept(s, step);
    var t := Apply(s, step);
    forall d, r | d in t.files ensures FewIn(t, t.files[d].items, r) { FewInFile(s, step, d, r); }
    forall d, r | d in t.bucket ensures FewIn(t, t.bucket[d], r) { FewInObject(s, step, d, r); }
  }

  lemma FewInFile(s: State, step: Step, d: Day, r: Row)
    requires FewCopies(s) && Enabled(s, step) && d in Apply(s, step).files
    ensures FewIn(Apply(s, step), Apply(s, step).files[d].items, r)
  {
    if d in s.files { assert FewIn(s, s.files[d].items, r); }
    CopiesAfter(s, step, d, r);
    AllowanceGrows(s, step, r);
  }

  lemma FewInObject(s: State, step: Step, d: Day, r: Row)
    requires FewCopies(s) && Enabled(s, step) && d in Apply(s, step).bucket
    ensures FewIn(Apply(s, step), Apply(s, step).bucket[d], r)
  {
    AllowanceGrows(s, step, r);
    if step.Upload? && d == s.closing.day {
      assert FewIn(s, s.files[d].items, r);
    }
    if d in s.bucket { assert FewIn(s, s.bucket[d], r); }
  }

  /**
   * Bounded duplication, in every run whatever fails: a row occurs in a file,
   * or in an object, at most once, plus once for each failed sweep that had
   * written it.
   */
  lemma {:induction false} BoundedDuplication(s: State, run: seq<Step>)
    requires FewCopies(s) && IsRun(s, run)
    ensures FewCopies(Exec(s, run))
    decreases |run|
  {
    if run != [] {
      FewCopiesKept(s, run[0]);
      BoundedDuplication(Apply(s, run[0]), run[1..]);
    }
  }

  // ---------------------------------------------------------------- objects and files

  /** Every object is a prefix of the stable part of its local file. */
  ghost predicate PrefixOn(s: State, d: Day)
    requires d in s.bucket
  {
    d in s.files && s.files[d].synced <= |s.files[d].items| && s.bucket[d] <= Durable(s.files[d])
  }

  ghost predicate UploadsArePrefixes(s: State) {
    && (forall d :: d in s.bucket ==> PrefixOn(s, d))
    && (s.closing.ToUpload? && s.closing.day in s.files ==>
          s.files[s.closing.day].synced == |s.files[s.closing.day].items|)
  }

  /** No rotation of the run had its `Sync` fail. */
  predicate RotationsSynced(run: seq<Step>) {
    forall i :: 0 <= i < |run| && run[i].Rotate? ==> run[i].syncOk
  }

  lemma PrefixKept(s: State, step: Step, d: Day)
    requires Steady(s) && UploadsArePrefixes(s) && !s.cfg.Prunes() && Enabled(s, step)
    requires d in Apply(s, step).bucket
    ensures PrefixOn(Apply(s, step), d)
  {
    if d in s.bucket { assert PrefixOn(s, d); }
    if step.PowerLoss? {
      CrashKeepsDurable(s.files[d], step.kept[d]);
    } else if d in s.bucket {
      FilesGrow(s, step, d);
    }
  }

  lemma PrefixesKept(s: State, step: Step)
    requires Steady(s) && UploadsArePrefixes(s) && !s.cfg.Prunes() && Enabled(s, step)
    requires step.Rotate? ==> step.syncOk
    ensures UploadsArePrefixes(Apply(s, step))
  {
    var t := Apply(s, step);
    forall d | d in t.bucket ensures PrefixOn(t, d) {
      PrefixKept(s, step, d);
    }
  }

  /**
   * With local files kept after their upload and no rotation whose `Sync`
   * failed, an object is always a prefix of the stable part of its file, so
   * uploading again never shrinks it.
   */
  lemma {:induction false} ObjectsArePrefixes(s: State, run: seq<Step>)
    requires Steady(s) && UploadsArePrefixes(s) && !s.cfg.Prunes() && IsRun(s, run) && RotationsSynced(run)
    ensures UploadsArePrefixes(Exec(s, run))
    decreases |run|
  {
    if run != [] {
      assert run[0].Rotate? ==> run[0].syncOk;
      SteadyKept(s, run[0]);
      PrefixesKept(s, run[0]);
      forall i | 0 <= i < |run[1..]| && run[1..][i].Rotate? ensures run[1..][i].syncOk {
        assert run[1..][i] == run[i + 1];
      }
      ObjectsArePrefixes(Apply(s, run[0]), run[1..]);
    }
  }
}
