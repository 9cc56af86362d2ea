/**
 * Exactly when beginning a new local file for a day that was uploaded and
 * pruned can lose a row.
 */
module ArchiveReopening {
  import opened Options
  import opened Sorting
  import opened ArchiveMachine
  import opened ArchiveInvariants
  import opened ArchiveSafety
  import opened ArchiveLimits

  // ---------------------------------------------------------------- sweeps in order

  /** The table is read oldest first (storage/audit.go:117). */
  ghost predicate SweepsInOrder(run: seq<Step>) {
    forall i :: 0 <= i < |run| && run[i].Begin? ==> InOrder(run[i].order)
  }

  /** What has been written is no younger than what is still to be written, and its last day is still open. */
  ghost predicate OrderedSweep(s: State) {
    s.phase.Iterating? ==>
      && InOrder(s.phase.todo)
      && (forall q :: q in s.phase.done && |s.phase.todo| > 0 ==>
            && q.at <= s.phase.todo[0].at
            && (DayOf(q.at) == DayOf(s.phase.todo[0].at) ==> s.openFile == Some(DayOf(q.at))))
  }

  lemma OrderedSweepKept(s: State, step: Step)
    requires Steady(s) && OrderedSweep(s) && Enabled(s, step) && (step.Begin? ==> InOrder(step.order))
    ensures OrderedSweep(Apply(s, step))
  {
    if step == Write(Full) {
      var t, r := Apply(s, step), s.phase.todo[0];
      assert s.phase.todo == [r] + t.phase.todo;
      assert |t.phase.todo| > 0 ==> t.phase.todo[0] == s.phase.todo[1];
      forall q | q in t.phase.done && |t.phase.todo| > 0
        ensures q.at <= t.phase.todo[0].at
        ensures DayOf(q.at) == DayOf(t.phase.todo[0].at) ==> t.openFile == Some(DayOf(q.at))
      {
        assert q.at <= r.at <= t.phase.todo[0].at;
        assert DayOf(q.at) <= DayOf(r.at) <= DayOf(t.phase.todo[0].at);
      }
    }
  }

  lemma {:induction false} SweepsStayOrdered(s: State, run: seq<Step>)
    requires Steady(s) && OrderedSweep(s) && IsRun(s, run) && SweepsInOrder(run)
    ensures OrderedSweep(Exec(s, run))
    decreases |run|
  {
    if run != [] {
      assert run[0].Begin? ==> InOrder(run[0].order);
      SteadyKept(s, run[0]);
      OrderedSweepKept(s, run[0]);
      forall i | 0 <= i < |run[1..]| && run[1..][i].Begin? ensures InOrder(run[1..][i].order) {
        assert run[1..][i] == run[i + 1];
      }
      SweepsStayOrdered(Apply(s, run[0]), run[1..]);
    }
  }

  // ---------------------------------------------------------------- the exact condition

  /** Some careful continuation from `s` loses a row. */
  ghost predicate CanLose(s: State) {
    exists more :: IsRun(s, more) && CarelessSteps(s, more) == [] && !NothingLost(Exec(s, more))
  }

  /** The object of `d` holds a row that has left the table. */
  ghost predicate HoldsALeftRow(s: State, d: Day) {
    exists r: Row :: DayOf(r.at) == d && InBucket(s, r) && r !in s.table
  }

  /**
   * Beginning a new file for a day, after a careful run that swept in order,
   * can lose a row later exactly when the day's object holds a row that has left
   * the table: the new file will replace that object without it.
   */
  lemma ReopeningLosesExactlyWhen(cfg: Config, run: seq<Step>)
    requires IsRun(Init(cfg), run) && CarelessSteps(Init(cfg), run) == [] && SweepsInOrder(run)
    requires var s := Exec(Init(cfg), run); Enabled(s, Open(true)) && DayOf(s.phase.todo[0].at) !in s.files
    ensures var s := Exec(Init(cfg), run);
            CanLose(Apply(s, Open(true))) <==> HoldsALeftRow(s, DayOf(s.phase.todo[0].at))
  {
    var s := Exec(Init(cfg), run);
    var d, t := DayOf(s.phase.todo[0].at), Apply(s, Open(true));
    CarefulRunsLoseNothing(Init(cfg), run);
    SweepsStayOrdered(Init(cfg), run);
    if HoldsALeftRow(s, d) {
      var r: Row :| DayOf(r.at) == d && InBucket(s, r) && r !in s.table;
      LaterOverwritten(s, r);
    } else {
      assert Careful(s, Open(true));
      InvKept(s, Open(true));
      forall more | IsRun(t, more) && CarelessSteps(t, more) == [] ensures NothingLost(Exec(t, more)) {
        CarefulRunsLoseNothing(t, more);
      }
    }
  }

  // ---------------------------------------------------------------- the losing continuation

  /** A time before every row's. */
  lemma {:induction false} Before(rows: set<Row>, at: Time) returns (b: Time)
    ensures b < at && forall r :: r in rows ==> b < r.at
    decreases rows
  {
    if rows == {} {
      b := at - 1;
    } else {
      var r :| r in rows;
      b := Before(rows - {r}, if r.at < at then r.at else at);
    }
  }

  /**
   * The new file gets one row, the sweep fails, an older row of another day
   * arrives, and the next sweep rotates the new file out over the object.
   */
  lemma LaterOverwritten(s: State, r: Row)
    requires Steady(s) && Enabled(s, Open(true)) && DayOf(s.phase.todo[0].at) !in s.files
    requires DayOf(r.at) == DayOf(s.phase.todo[0].at) && InBucket(s, r) && r !in s.table
    ensures CanLose(Apply(s, Open(true)))
  {
    var d, q, t := DayOf(s.phase.todo[0].at), s.phase.todo[0], Apply(s, Open(true));
    var b := Before(s.inserted, d * SECONDS_PER_DAY);
    assert DayOf(b) != d;
    assert q in Rows(s.phase.todo);
    var run, u := NewFileWithOneRow(t, q, Row("x", b));
    run, u := RotatedOver(t, run, u, q, Row("x", b));
    assert OfDay(s.inserted, s.bucket[d], d);
    assert r in s.inserted;
    assert !InBucket(u, r) && !OnDisk(u, r);
  }

  /** A sweep over `x` rotates the open file out and uploads it. */
  lemma RotatedOver(t: State, run: seq<Step>, s: State, q: Row, x: Row) returns (longer: seq<Step>, u: State)
    requires Reaches(t, run, [], s) && s.phase == Idle && s.closing == NothingToClose && s.cfg.s3
    requires var d := DayOf(q.at); s.openFile == s.openDate == Some(d) && d in s.files && s.files[d].items == [Rec(q)]
    requires x in s.table && DayOf(x.at) != DayOf(q.at) && forall y :: y in s.table && y != x ==> x.at < y.at
    ensures Reaches(t, longer, [], u) && u.table == s.table && u.inserted == s.inserted
    ensures var d := DayOf(q.at); d in u.bucket && u.bucket[d] == [Rec(q)]
    ensures var d := DayOf(q.at); d in u.files && u.files[d].items == [Rec(q)]
  {
    assert Due(s.table, x.at + 1) == {x} == Rows([x]);
    longer, u := Then(t, run, [], s, Begin(x.at + 1, [x]));
    longer, u := Then(t, longer, [], u, Rotate(true));
    longer, u := Then(t, longer, [], u, Upload(Stored));
  }

  /** The first row goes into the new file, the cursor fails, and `x` arrives. */
  lemma NewFileWithOneRow(t: State, q: Row, x: Row) returns (run: seq<Step>, u: State)
    requires t.phase.Iterating? && |t.phase.todo| > 0 && t.phase.todo[0] == q && t.closing == NothingToClose
    requires var d := DayOf(q.at); t.openFile == t.openDate == Some(d) && d in t.files && t.files[d] == File([], 0)
    requires x !in t.inserted
    ensures Reaches(t, run, [], u)
    ensures u.phase == Idle && u.closing == NothingToClose && u.openFile == u.openDate == t.openDate
    ensures u.table == t.table + {x} && u.inserted == t.inserted + {x} && u.cfg == t.cfg && u.bucket == t.bucket
    ensures u.files == t.files[DayOf(q.at) := File([Rec(q)], 0)]
  {
    run, u := Then(t, [], [], t, Write(Full));
    assert [] + [Rec(q)] == [Rec(q)];
    run, u := Then(t, run, [], u, IterFail);
    run, u := Then(t, run, [], u, Insert(x));
  }
}
