/**
 * Why each condition of `ArchiveSafety.Careful` is there: four runs, each with
 * a single careless step, that lose a row.
 */
module ArchiveLimits {
  import opened Options
  import opened Sorting
  import opened ArchiveMachine
  import opened ArchiveInvariants
  import opened ArchiveSafety

  const DAY_ONE: Row := Row("a", 10)
  const DAY_ONE_LATER: Row := Row("b", 20)
  const DAY_TWO: Row := Row("c", 86410)

  /** No upload; and uploads that prune the local file. */
  const LOCAL := Config(false, false)
  const PRUNING := Config(true, true)

  /** A cutoff after all three. */
  const CUTOFF: Time := 200000

  /** Some run with the single careless step `step` loses `r`. */
  ghost predicate LosesBy(cfg: Config, step: Step, r: Row) {
    exists run :: IsRun(Init(cfg), run) && CarelessSteps(Init(cfg), run) == [step] && Lost(Exec(Init(cfg), run), r)
  }

  ghost predicate Lost(s: State, r: Row) {
    r in s.inserted && r !in s.table && !Archived(s, r)
  }

  /** `run` leads from `start` to `s`, and `careless` are its careless steps. */
  ghost predicate Reaches(start: State, run: seq<Step>, careless: seq<Step>, s: State) {
    IsRun(start, run) && Exec(start, run) == s && CarelessSteps(start, run) == careless
  }

  /** `Reaches`, one step further. */
  lemma Then(start: State, run: seq<Step>, careless: seq<Step>, s: State, step: Step)
    returns (longer: seq<Step>, t: State)
    requires Reaches(start, run, careless, s) && Enabled(s, step)
    ensures t == Apply(s, step) && longer == run + [step]
    ensures Reaches(start, longer, careless + (if Careful(s, step) then [] else [step]), t)
  {
    Extend(start, run, step);
    longer, t := run + [step], Apply(s, step);
  }

  /** A service that has just begun a sweep over `order`, on an empty archive. */
  ghost function Started(cfg: Config, rows: set<Row>, cutoff: Time, order: seq<Row>): State {
    Init(cfg).(table := rows, inserted := rows, phase := Iterating(cutoff, order, {}))
  }

  lemma StartOne(cfg: Config) returns (run: seq<Step>)
    ensures Reaches(Init(cfg), run, [], Started(cfg, {DAY_ONE}, CUTOFF, [DAY_ONE]))
  {
    var s;
    run, s := Then(Init(cfg), [], [], Init(cfg), Insert(DAY_ONE));
    assert Rows([DAY_ONE]) == Due(s.table, CUTOFF);
    run, s := Then(Init(cfg), run, [], s, Begin(CUTOFF, [DAY_ONE]));
  }

  lemma StartTwo(cfg: Config) returns (run: seq<Step>)
    ensures Reaches(Init(cfg), run, [], Started(cfg, {DAY_ONE, DAY_TWO}, CUTOFF, [DAY_ONE, DAY_TWO]))
  {
    var s;
    run, s := Then(Init(cfg), [], [], Init(cfg), Insert(DAY_ONE));
    run, s := Then(Init(cfg), run, [], s, Insert(DAY_TWO));
    assert Rows([DAY_ONE, DAY_TWO]) == Due(s.table, CUTOFF);
    run, s := Then(Init(cfg), run, [], s, Begin(CUTOFF, [DAY_ONE, DAY_TWO]));
    assert s.table == {DAY_ONE, DAY_TWO};
  }

  /** The careless step, if it is one, of opening the next row's file. */
  ghost function Opening(s: State): seq<Step>
    requires Enabled(s, Open(true))
  {
    if Careful(s, Open(true)) then [] else [Open(true)]
  }

  /** The next row opens a new file for its day and is written to it. */
  lemma OpenAndWrite(start: State, run: seq<Step>, careless: seq<Step>, s: State, r: Row, rest: seq<Row>)
    returns (longer: seq<Step>, t: State)
    requires Reaches(start, run, careless, s) && s.phase.Iterating? && s.phase.todo == [r] + rest
    requires s.openFile == None && s.closing == NothingToClose && DayOf(r.at) !in s.files
    ensures var d := DayOf(r.at);
            t == s.(files := s.files[d := File([Rec(r)], 0)], openFile := Some(d), openDate := Some(d),
                    phase := Iterating(s.phase.cutoff, rest, s.phase.done + {r}))
    ensures Reaches(start, longer, careless + Opening(s), t)
  {
    var u;
    longer, u := Then(start, run, careless, s, Open(true));
    longer, t := Then(start, longer, careless + Opening(s), u, Write(Full));
    assert [] + [Rec(r)] == [Rec(r)] && ([r] + rest)[1..] == rest;
    var d, f := DayOf(r.at), File([Rec(r)], 0);
    assert s.files[d := File([], 0)][d := f] == s.files[d := f];
    assert careless + Opening(s) + [] == careless + Opening(s);
  }

  /** As `OpenAndWrite`, for a day without an object. */
  lemma OpenNewDay(start: State, run: seq<Step>, careless: seq<Step>, s: State, r: Row, rest: seq<Row>)
    returns (longer: seq<Step>, t: State)
    requires Reaches(start, run, careless, s) && s.phase.Iterating? && s.phase.todo == [r] + rest
    requires s.openFile == None && s.closing == NothingToClose
    requires DayOf(r.at) !in s.files && DayOf(r.at) !in s.bucket
    ensures var d := DayOf(r.at);
            t == s.(files := s.files[d := File([Rec(r)], 0)], openFile := Some(d), openDate := Some(d),
                    phase := Iterating(s.phase.cutoff, rest, s.phase.done + {r}))
    ensures Reaches(start, longer, careless, t)
  {
    longer, t := OpenAndWrite(start, run, careless, s, r, rest);
    assert careless + [] == careless;
  }

  /** The sweep has written its last row: the final `Sync` works and the delete ends as `deletion` says. */
  lemma SyncAndDelete(start: State, run: seq<Step>, careless: seq<Step>, s: State, deletion: Deletion)
    returns (longer: seq<Step>, t: State)
    requires Reaches(start, run, careless, s) && s.phase.Iterating? && s.phase.todo == [] && s.phase.done != {}
    requires s.openFile.Some? && s.openFile.value in s.files && s.closing == NothingToClose
    ensures var d := s.openFile.value;
            t == s.(files := s.files[d := Synced(s.files[d])], phase := Idle,
                    table := if deletion == NotDeleted then s.table else s.table - Due(s.table, s.phase.cutoff),
                    failed := if deletion == Deleted then s.failed else Bumped(s.failed, s.phase.done))
    ensures Reaches(start, longer, careless, t)
  {
    var u;
    longer, u := Then(start, run, careless, s, Sync(true));
    assert careless + [] == careless;
    longer, t := Then(start, longer, careless, u, Delete(deletion));
  }

  /** A sweep has written the first day's file, and its rotation's `Sync` has failed. */
  lemma FirstDayUnsynced() returns (run: seq<Step>, s: State)
    ensures Reaches(Init(LOCAL), run, [Rotate(false)], s) && s.closing == NothingToClose && s.cfg == LOCAL
    ensures s.phase == Iterating(CUTOFF, [DAY_TWO], {DAY_ONE}) && s.table == s.inserted == {DAY_ONE, DAY_TWO}
    ensures s.files == map[0 := File([Rec(DAY_ONE)], 0)] && s.openFile == None && s.bucket == map[]
  {
    run := StartTwo(LOCAL);
    s := Started(LOCAL, {DAY_ONE, DAY_TWO}, CUTOFF, [DAY_ONE, DAY_TWO]);
    assert [DAY_ONE] + [DAY_TWO] == [DAY_ONE, DAY_TWO];
    run, s := OpenNewDay(Init(LOCAL), run, [], s, DAY_ONE, [DAY_TWO]);
    assert Durable(s.files[0]) == [] && !OnDisk(s, DAY_ONE);
    run, s := Then(Init(LOCAL), run, [], s, Rotate(false));
  }

  /** The sweep goes on to the second day, and deletes. */
  lemma UnsyncedAndDeleted() returns (run: seq<Step>, s: State)
    ensures Reaches(Init(LOCAL), run, [Rotate(false)], s) && s.table == {} && DAY_ONE in s.inserted && s.bucket == map[]
    ensures s.files == map[0 := File([Rec(DAY_ONE)], 0), 1 := File([Rec(DAY_TWO)], 1)]
  {
    run, s := FirstDayUnsynced();
    assert [DAY_TWO] + [] == [DAY_TWO];
    run, s := OpenNewDay(Init(LOCAL), run, [Rotate(false)], s, DAY_TWO, []);
    run, s := SyncAndDelete(Init(LOCAL), run, [Rotate(false)], s, Deleted);
  }

  lemma RotationSyncMatters()
    ensures LosesBy(LOCAL, Rotate(false), DAY_ONE)
  {
    var bad := [Rotate(false)];
    var run, s := UnsyncedAndDeleted();
    run, s := LosePower(Init(LOCAL), run, bad, s);
    assert Durable(s.files[0]) == [];
  }

  /** A power loss that takes everything not synced. */
  lemma LosePower(start: State, run: seq<Step>, careless: seq<Step>, s: State) returns (longer: seq<Step>, t: State)
    requires Reaches(start, run, careless, s) && forall d :: d in s.files ==> s.files[d].synced <= |s.files[d].items|
    ensures t.table == s.table && t.inserted == s.inserted && t.bucket == s.bucket
    ensures t.files == map d | d in s.files :: File(Durable(s.files[d]), s.files[d].synced)
    ensures Reaches(start, longer, careless, t)
  {
    var kept := map d | d in s.files :: Durable(s.files[d]);
    forall d | d in kept ensures CrashImage(s.files[d], kept[d]) {}
    longer, t := Then(start, run, careless, s, PowerLoss(kept));
    assert careless + [] == careless;
  }

  lemma FreshLinesMatter()
    ensures LosesBy(LOCAL, Write(Full), DAY_ONE)
  {
    var bad := [Write(Full)];
    var run := StartOne(LOCAL);
    var s := Started(LOCAL, {DAY_ONE}, CUTOFF, [DAY_ONE]);
    run, s := Then(Init(LOCAL), run, [], s, Open(true));
    run, s := Then(Init(LOCAL), run, [], s, Write(Short(true)));
    assert [] + [Frag] == [Frag] && s.files[0] == File([Frag], 0);
    run, s := WriteAfterFragment(run, s);
    run, s := SyncAndDelete(Init(LOCAL), run, bad, s, Deleted);
    assert Durable(s.files[0]) == [Frag, Rec(DAY_ONE)];
  }

  lemma WriteAfterFragment(run: seq<Step>, s: State) returns (longer: seq<Step>, t: State)
    requires Reaches(Init(LOCAL), run, [], s) && s.phase == Idle && s.table == {DAY_ONE} && s.closing == NothingToClose
    requires s.openFile == Some(0) == s.openDate && 0 in s.files && s.files[0] == File([Frag], 0)
    ensures t == s.(files := s.files[0 := File([Frag, Rec(DAY_ONE)], 0)], phase := Iterating(CUTOFF, [], {DAY_ONE}))
    ensures Reaches(Init(LOCAL), longer, [Write(Full)], t)
  {
    assert Rows([DAY_ONE]) == Due(s.table, CUTOFF);
    longer, t := Then(Init(LOCAL), run, [], s, Begin(CUTOFF, [DAY_ONE]));
    longer, t := Then(Init(LOCAL), longer, [], t, Write(Full));
    assert [Frag] + [Rec(DAY_ONE)] == [Frag, Rec(DAY_ONE)];
    assert [DAY_ONE][1..] == [] && {} + {DAY_ONE} == {DAY_ONE};
  }

  lemma InsertTimesMatter()
    ensures LosesBy(LOCAL, Insert(DAY_ONE_LATER), DAY_ONE_LATER)
  {
    var bad := [Insert(DAY_ONE_LATER)];
    var run := StartOne(LOCAL);
    var s := Started(LOCAL, {DAY_ONE}, CUTOFF, [DAY_ONE]);
    run, s := OpenNewDay(Init(LOCAL), run, [], s, DAY_ONE, []);
    run, s := Then(Init(LOCAL), run, [], s, Insert(DAY_ONE_LATER));
    run, s := SyncAndDelete(Init(LOCAL), run, bad, s, Deleted);
    assert Durable(s.files[0]) == [Rec(DAY_ONE)];
  }

  /** The file just filled is rotated, uploaded and pruned. */
  lemma RotateOut(start: State, run: seq<Step>, careless: seq<Step>, s: State) returns (longer: seq<Step>, t: State)
    requires Reaches(start, run, careless, s) && s.cfg == Config(true, true)
    requires s.phase.Iterating? && |s.phase.todo| > 0 && s.closing == NothingToClose
    requires s.openFile.Some? && s.openFile.value in s.files && s.openDate != Some(DayOf(s.phase.todo[0].at))
    requires s.files[s.openFile.value].items != []
    ensures var d := s.openFile.value;
            t == s.(files := s.files - {d}, bucket := s.bucket[d := s.files[d].items], openFile := None)
    ensures Reaches(start, longer, careless, t)
  {
    var d := s.openFile.value;
    longer, t := Then(start, run, careless, s, Rotate(true));
    assert careless + [] == careless;
    longer, t := Then(start, longer, careless, t, Upload(Stored));
    longer, t := Then(start, longer, careless, t, Remove(true));
    assert s.files[d := Synced(s.files[d])] - {d} == s.files - {d};
  }

  /** The first sweep archives and deletes day 0's first row; its second row and one of the next day arrive. */
  lemma FirstSweep() returns (run: seq<Step>, s: State)
    ensures Reaches(Init(PRUNING), run, [], s) && s.phase == Idle && s.closing == NothingToClose && s.cfg == PRUNING
    ensures s.table == {DAY_ONE_LATER, DAY_TWO} && s.inserted == {DAY_ONE, DAY_ONE_LATER, DAY_TWO}
    ensures s.files == map[0 := File([Rec(DAY_ONE)], 1)] && s.openFile == Some(0) == s.openDate
    ensures s.bucket == map[]
  {
    run := StartOne(PRUNING);
    s := Started(PRUNING, {DAY_ONE}, CUTOFF, [DAY_ONE]);
    run, s := OpenNewDay(Init(PRUNING), run, [], s, DAY_ONE, []);
    run, s := SyncAndDelete(Init(PRUNING), run, [], s, Deleted);
    assert s.table == {};
    run, s := Then(Init(PRUNING), run, [], s, Insert(DAY_ONE_LATER));
    run, s := Then(Init(PRUNING), run, [], s, Insert(DAY_TWO));
  }

  /** The second sweep writes day 0's second row, uploads the day and prunes it. */
  lemma SecondSweepPrunes() returns (run: seq<Step>, s: State)
    ensures Reaches(Init(PRUNING), run, [], s) && s.closing == NothingToClose && s.cfg == PRUNING
    ensures s.phase == Iterating(CUTOFF, [DAY_TWO], {DAY_ONE_LATER})
    ensures s.table == {DAY_ONE_LATER, DAY_TWO} && s.inserted == {DAY_ONE, DAY_ONE_LATER, DAY_TWO}
    ensures s.files == map[] && s.openFile == None && s.openDate == Some(0)
    ensures s.bucket == map[0 := [Rec(DAY_ONE), Rec(DAY_ONE_LATER)]]
  {
    run, s := FirstSweep();
    assert Rows([DAY_ONE_LATER, DAY_TWO]) == Due(s.table, CUTOFF);
    run, s := Then(Init(PRUNING), run, [], s, Begin(CUTOFF, [DAY_ONE_LATER, DAY_TWO]));
    run, s := Then(Init(PRUNING), run, [], s, Write(Full));
    assert [Rec(DAY_ONE)] + [Rec(DAY_ONE_LATER)] == [Rec(DAY_ONE), Rec(DAY_ONE_LATER)];
    run, s := RotateOut(Init(PRUNING), run, [], s);
  }

  /** The second sweep goes on to the next day, and then the delete fails. */
  lemma SecondSweep() returns (run: seq<Step>, s: State)
    ensures Reaches(Init(PRUNING), run, [], s) && s.phase == Idle && s.closing == NothingToClose && s.cfg == PRUNING
    ensures s.table == {DAY_ONE_LATER, DAY_TWO} && s.inserted == {DAY_ONE, DAY_ONE_LATER, DAY_TWO}
    ensures s.files == map[1 := File([Rec(DAY_TWO)], 1)] && s.openFile == Some(1) == s.openDate
    ensures s.bucket == map[0 := [Rec(DAY_ONE), Rec(DAY_ONE_LATER)]]
  {
    run, s := SecondSweepPrunes();
    assert [DAY_TWO] + [] == [DAY_TWO];
    run, s := OpenNewDay(Init(PRUNING), run, [], s, DAY_TWO, []);
    run, s := SyncAndDelete(Init(PRUNING), run, [], s, NotDeleted);
  }

  /** The third sweep rotates the second day out and has to begin a new file for day 0. */
  lemma ThirdSweepReturns() returns (run: seq<Step>, s: State)
    ensures Reaches(Init(PRUNING), run, [], s) && s.closing == NothingToClose && s.cfg == PRUNING
    ensures s.phase == Iterating(CUTOFF, [DAY_ONE_LATER, DAY_TWO], {})
    ensures s.table == {DAY_ONE_LATER, DAY_TWO} && s.inserted == {DAY_ONE, DAY_ONE_LATER, DAY_TWO}
    ensures s.files == map[] && s.openFile == None
    ensures s.bucket == map[0 := [Rec(DAY_ONE), Rec(DAY_ONE_LATER)], 1 := [Rec(DAY_TWO)]]
  {
    run, s := SecondSweep();
    assert Rows([DAY_ONE_LATER, DAY_TWO]) == Due(s.table, CUTOFF);
    run, s := Then(Init(PRUNING), run, [], s, Begin(CUTOFF, [DAY_ONE_LATER, DAY_TWO]));
    run, s := RotateOut(Init(PRUNING), run, [], s);
  }

  /**
   * With local files pruned after their upload, a failed delete makes the next
   * sweep reopen a pruned day; the day's object is then overwritten by a file
   * without the rows deleted earlier.
   */
  lemma ReopeningMatters()
    ensures LosesBy(PRUNING, Open(true), DAY_ONE)
  {
    var bad := [Open(true)];
    var run, s := ThirdSweepReturns();
    assert s.bucket[0][0] == Rec(DAY_ONE);
    assert InBucket(s, DAY_ONE) && DAY_ONE !in s.table;
    assert Opening(s) == bad;
    assert [DAY_ONE_LATER] + [DAY_TWO] == [DAY_ONE_LATER, DAY_TWO];
    run, s := OpenAndWrite(Init(PRUNING), run, [], s, DAY_ONE_LATER, [DAY_TWO]);
    assert [] + bad == bad;
    run, s := RotateOut(Init(PRUNING), run, bad, s);
    assert s.bucket[0] == [Rec(DAY_ONE_LATER)];
  }
}
