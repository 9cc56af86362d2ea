/**
 * Why `ArchiveReplicas` asks for local files to be kept: with pruning, replicas
 * lose rows even when every call succeeds, rows arrive in the order of their
 * times and sweeps read them in that order.
 */
module ArchiveReplicaLimits {
  import opened Options
  import opened Sorting
  import opened ArchiveMachine
  import opened ArchiveInvariants
  import opened ArchiveSafety
  import opened ArchiveReopening
  import opened ArchiveReplicas

  const PRUNING := Config(true, true)

  /** A step whose call succeeds. */
  ghost predicate GoesWell(step: Step) {
    match step
    case Begin(_, order) => InOrder(order)
    case Rotate(ok) => ok
    case Upload(put) => put == Stored
    case Remove(ok) => ok
    case Open(ok) => ok
    case Write(w) => w == Full
    case Sync(ok) => ok
    case Delete(deletion) => deletion == Deleted
    case NothingDue => true
    case _ => false
  }

  ghost predicate SmoothMove(c: Cluster, m: Move)
    requires CanMove(c, m)
  {
    CarefulMove(c, m) &&
    match m
    case Arrive(r) => forall q :: q in c.inserted ==> q.at < r.at
    case Take(_, step) => GoesWell(step)
    case PowerFails(_, _) => false
  }

  ghost predicate SmoothHistory(c: Cluster, moves: seq<Move>)
    requires IsHistory(c, moves)
    decreases |moves|
  {
    moves == [] || (SmoothMove(c, moves[0]) && SmoothHistory(After(c, moves[0]), moves[1..]))
  }

  /** A smooth history leads from `start` to `c`. */
  ghost predicate Gets(start: Cluster, moves: seq<Move>, c: Cluster) {
    IsHistory(start, moves) && SmoothHistory(start, moves) && Outcome(start, moves) == c
  }

  lemma {:induction false} Extended(start: Cluster, moves: seq<Move>, m: Move)
    requires IsHistory(start, moves) && SmoothHistory(start, moves)
    requires CanMove(Outcome(start, moves), m) && SmoothMove(Outcome(start, moves), m)
    ensures Gets(start, moves + [m], After(Outcome(start, moves), m))
    decreases |moves|
  {
    if moves == [] {
      assert moves + [m] == [m] && [m][1..] == [];
    } else {
      assert (moves + [m])[0] == moves[0] && (moves + [m])[1..] == moves[1..] + [m];
      Extended(After(start, moves[0]), moves[1..], m);
    }
  }

  lemma Next(start: Cluster, moves: seq<Move>, c: Cluster, m: Move) returns (longer: seq<Move>, e: Cluster)
    requires Gets(start, moves, c) && CanMove(c, m) && SmoothMove(c, m)
    ensures e == After(c, m) && Gets(start, longer, e)
  {
    Extended(start, moves, m);
    longer, e := moves + [m], After(c, m);
  }

  /** Some smooth history of these replicas loses a row. */
  ghost predicate CanLose(start: Cluster) {
    exists moves ::
      IsHistory(start, moves) && SmoothHistory(start, moves) && !NothingLostAnywhere(Outcome(start, moves))
  }

  // ---------------------------------------------------------------- a whole sweep of one row

  /** Replica `j` with the file of `d` open, between sweeps. */
  function Open1(dir: nat, d: Day): Local {
    Local(dir, Some(d), Some(d), NothingToClose, Idle)
  }

  ghost predicate Resting(c: Cluster, j: nat) {
    HasReplica(c, j) && c.locals[j].phase == Idle && c.locals[j].closing == NothingToClose
  }

  /** The table holds one row, and replica `j` begins to sweep it. */
  lemma BeginOne(start: Cluster, moves: seq<Move>, c: Cluster, j: nat, r: Row) returns (longer: seq<Move>, e: Cluster)
    requires Gets(start, moves, c) && Resting(c, j) && c.table == {r}
    ensures e == c.(locals := c.locals[j := c.locals[j].(phase := Iterating(r.at + 1, [r], {}))])
    ensures Gets(start, longer, e)
  {
    assert Due(c.table, r.at + 1) == {r} == Rows([r]);
    longer, e := Next(start, moves, c, Take(j, Begin(r.at + 1, [r])));
    assert c.dirs[c.locals[j].dir := c.dirs[c.locals[j].dir]] == c.dirs;
  }

  /** The next row goes to a new file. */
  lemma OpenWrite(start: Cluster, moves: seq<Move>, c: Cluster, j: nat, r: Row, rest: seq<Row>)
    returns (longer: seq<Move>, e: Cluster)
    requires Gets(start, moves, c) && HasReplica(c, j)
    requires var l := c.locals[j];
             && l.phase.Iterating? && l.phase.todo == [r] + rest && l.closing == NothingToClose
             && l.openFile == None && DayOf(r.at) !in c.dirs[l.dir]
    ensures var l, d := c.locals[j], DayOf(r.at);
            e == c.(dirs := c.dirs[l.dir := c.dirs[l.dir][d := File([Rec(r)], 0)]],
                    locals := c.locals[j := Local(l.dir, Some(d), Some(d), NothingToClose,
                                                  Iterating(l.phase.cutoff, rest, l.phase.done + {r}))])
    ensures Gets(start, longer, e)
  {
    var k, d := c.locals[j].dir, DayOf(r.at);
    longer, e := Next(start, moves, c, Take(j, Open(true)));
    longer, e := Next(start, longer, e, Take(j, Write(Full)));
    assert [] + [Rec(r)] == [Rec(r)] && ([r] + rest)[1..] == rest;
    assert c.dirs[k][d := File([], 0)][d := File([Rec(r)], 0)] == c.dirs[k][d := File([Rec(r)], 0)];
  }

  /** The sweep has written its last row: it syncs, and deletes what is due. */
  lemma SyncDelete(start: Cluster, moves: seq<Move>, c: Cluster, j: nat, d: Day)
    returns (longer: seq<Move>, e: Cluster)
    requires Gets(start, moves, c) && HasReplica(c, j)
    requires var l := c.locals[j];
             && l.phase.Iterating? && l.phase.todo == [] && l.phase.done != {} && l.closing == NothingToClose
             && l.openFile == l.openDate == Some(d) && d in c.dirs[l.dir]
    ensures var l := c.locals[j];
            e == c.(table := c.table - Due(c.table, l.phase.cutoff),
                    dirs := c.dirs[l.dir := c.dirs[l.dir][d := Synced(c.dirs[l.dir][d])]],
                    locals := c.locals[j := Open1(l.dir, d)])
    ensures Gets(start, longer, e)
  {
    longer, e := Next(start, moves, c, Take(j, Sync(true)));
    longer, e := Next(start, longer, e, Take(j, Delete(Deleted)));
  }

  /** It writes its one row to a new file, syncs it and deletes the row. */
  lemma FinishOne(start: Cluster, moves: seq<Move>, c: Cluster, j: nat, r: Row) returns (longer: seq<Move>, e: Cluster)
    requires Gets(start, moves, c) && HasReplica(c, j) && c.table == {r}
    requires c.locals[j].phase == Iterating(r.at + 1, [r], {}) && c.locals[j].closing == NothingToClose
    requires c.locals[j].openFile == None && DayOf(r.at) !in c.dirs[c.locals[j].dir]
    ensures var k, d := c.locals[j].dir, DayOf(r.at);
            e == c.(table := {}, dirs := c.dirs[k := c.dirs[k][d := File([Rec(r)], 1)]],
                    locals := c.locals[j := Open1(k, d)])
    ensures Gets(start, longer, e)
  {
    var k, d := c.locals[j].dir, DayOf(r.at);
    assert [r] + [] == [r] && {} + {r} == {r};
    longer, e := OpenWrite(start, moves, c, j, r, []);
    assert Due(c.table, r.at + 1) == {r};
    longer, e := SyncDelete(start, longer, e, j, d);
    assert c.dirs[k][d := File([Rec(r)], 0)][d := File([Rec(r)], 1)] == c.dirs[k][d := File([Rec(r)], 1)];
  }

  /** A replica with no file open sweeps one row. */
  lemma SweepNew(start: Cluster, moves: seq<Move>, c: Cluster, j: nat, r: Row) returns (longer: seq<Move>, e: Cluster)
    requires Gets(start, moves, c) && Resting(c, j) && c.table == {r}
    requires c.locals[j].openFile == None && DayOf(r.at) !in c.dirs[c.locals[j].dir]
    ensures var k, d := c.locals[j].dir, DayOf(r.at);
            e == c.(table := {}, dirs := c.dirs[k := c.dirs[k][d := File([Rec(r)], 1)]],
                    locals := c.locals[j := Open1(k, d)])
    ensures Gets(start, longer, e)
  {
    longer, e := BeginOne(start, moves, c, j, r);
    longer, e := FinishOne(start, longer, e, j, r);
  }

  /** The open file of replica `j` is rotated, uploaded and pruned. */
  lemma RotateOut(start: Cluster, moves: seq<Move>, c: Cluster, j: nat, d: Day) returns (longer: seq<Move>, e: Cluster)
    requires Gets(start, moves, c) && HasReplica(c, j) && c.cfg == PRUNING && Alone(c, j, d)
    requires var l := c.locals[j];
             && l.phase.Iterating? && |l.phase.todo| > 0 && l.closing == NothingToClose
             && l.openFile == l.openDate == Some(d) && d != DayOf(l.phase.todo[0].at)
             && d in c.dirs[l.dir] && c.dirs[l.dir][d].items != []
    ensures var l := c.locals[j];
            e == c.(dirs := c.dirs[l.dir := c.dirs[l.dir] - {d}], bucket := c.bucket[d := c.dirs[l.dir][d].items],
                    locals := c.locals[j := l.(openFile := None)])
    ensures Gets(start, longer, e)
  {
    var files := c.dirs[c.locals[j].dir];
    longer, e := Next(start, moves, c, Take(j, Rotate(true)));
    longer, e := Next(start, longer, e, Take(j, Upload(Stored)));
    longer, e := Next(start, longer, e, Take(j, Remove(true)));
    assert files[d := Synced(files[d])] - {d} == files - {d};
  }

  /** A replica with the file of an earlier day open sweeps one row. */
  lemma SweepNext(start: Cluster, moves: seq<Move>, c: Cluster, j: nat, d0: Day, r: Row)
    returns (longer: seq<Move>, e: Cluster)
    requires Gets(start, moves, c) && Resting(c, j) && c.table == {r} && c.cfg == PRUNING && Alone(c, j, d0)
    requires var l := c.locals[j];
             && l.openFile == l.openDate == Some(d0) && d0 != DayOf(r.at) && d0 in c.dirs[l.dir]
             && c.dirs[l.dir][d0].items != [] && DayOf(r.at) !in c.dirs[l.dir]
    ensures var k, d := c.locals[j].dir, DayOf(r.at);
            e == c.(table := {}, dirs := c.dirs[k := (c.dirs[k] - {d0})[d := File([Rec(r)], 1)]],
                    bucket := c.bucket[d0 := c.dirs[k][d0].items], locals := c.locals[j := Open1(k, d)])
    ensures Gets(start, longer, e)
  {
    longer, e := BeginOne(start, moves, c, j, r);
    longer, e := RotateOut(start, longer, e, j, d0);
    longer, e := FinishOne(start, longer, e, j, r);
  }

  // ---------------------------------------------------------------- separate directories, one at a time

  const A1 := Row("a1", 10)
  const A2 := Row("a2", 20)
  const B1 := Row("b1", 86410)
  const B2 := Row("b2", 86420)

  lemma Days()
    ensures DayOf(A1.at) == DayOf(A2.at) == 0 && DayOf(B1.at) == DayOf(B2.at) == 1
  {
  }

  /** Each replica has archived one row of the first day. */
  lemma BothFirst(start: Cluster) returns (moves: seq<Move>, c: Cluster)
    requires start == Start(PRUNING, [0, 1], 2)
    ensures Gets(start, moves, c) && c.cfg == PRUNING && c.table == {} && c.bucket == map[] && c.inserted == {A1, A2}
    ensures c.dirs == [map[0 := File([Rec(A1)], 1)], map[0 := File([Rec(A2)], 1)]]
    ensures c.locals == [Open1(0, 0), Open1(1, 0)]
  {
    Days();
    moves, c := Next(start, [], start, Arrive(A1));
    moves, c := SweepNew(start, moves, c, 0, A1);
    moves, c := Next(start, moves, c, Arrive(A2));
    moves, c := SweepNew(start, moves, c, 1, A2);
  }

  /**
   * Two replicas with directories of their own take turns, never at the same
   * time: each uploads its half of the day under the same key, and the first
   * half, pruned after its upload, is overwritten.
   */
  lemma SeparateDirectoriesMatter()
    ensures CanLose(Start(PRUNING, [0, 1], 2))
  {
    var start := Start(PRUNING, [0, 1], 2);
    Days();
    var moves, c := BothFirst(start);
    moves, c := Next(start, moves, c, Arrive(B1));
    moves, c := SweepNext(start, moves, c, 0, 0, B1);
    moves, c := Next(start, moves, c, Arrive(B2));
    moves, c := SweepNext(start, moves, c, 1, 0, B2);
    assert c.bucket[0] == [Rec(A2)];
    assert 0 !in c.dirs[0] && 0 !in c.dirs[1];
    assert A1 in c.inserted && !OnSomeDisk(c, A1) && !InObject(c, A1);
  }

  // ---------------------------------------------------------------- one directory, at the same time

  const CUTOFF: Time := 200000

  /** One row is archived. */
  lemma OneArchived(start: Cluster) returns (moves: seq<Move>, c: Cluster)
    requires start == Start(PRUNING, [0, 0], 1)
    ensures Gets(start, moves, c) && c.cfg == PRUNING && c.table == {} && c.bucket == map[] && c.inserted == {A1}
    ensures c.dirs == [map[0 := File([Rec(A1)], 1)]]
    ensures c.locals == [Open1(0, 0), Local(0, None, None, NothingToClose, Idle)]
  {
    Days();
    moves, c := Next(start, [], start, Arrive(A1));
    moves, c := SweepNew(start, moves, c, 0, A1);
  }

  /** Two more rows have arrived, and replica 1 has begun to sweep them. */
  lemma SecondBegins(start: Cluster) returns (moves: seq<Move>, c: Cluster)
    requires start == Start(PRUNING, [0, 0], 1)
    ensures Gets(start, moves, c) && c.cfg == PRUNING && c.table == {A2, B1} && c.bucket == map[]
    ensures c.inserted == {A1, A2, B1} && c.dirs == [map[0 := File([Rec(A1)], 1)]]
    ensures c.locals == [Open1(0, 0), Local(0, None, None, NothingToClose, Iterating(CUTOFF, [A2, B1], {}))]
  {
    moves, c := OneArchived(start);
    moves, c := Next(start, moves, c, Arrive(A2));
    moves, c := Next(start, moves, c, Arrive(B1));
    assert Due(c.table, CUTOFF) == {A2, B1} == Rows([A2, B1]);
    moves, c := Next(start, moves, c, Take(1, Begin(CUTOFF, [A2, B1])));
    assert |c.dirs| == 1 && c.dirs[0] == map[0 := File([Rec(A1)], 1)];
  }

  /** Replica 0 sweeps the same rows, and writes the first of them. */
  lemma FirstWrites(start: Cluster) returns (moves: seq<Move>, c: Cluster)
    requires start == Start(PRUNING, [0, 0], 1)
    ensures Gets(start, moves, c) && c.cfg == PRUNING && c.table == {A2, B1} && c.bucket == map[]
    ensures c.inserted == {A1, A2, B1} && c.dirs == [map[0 := File([Rec(A1), Rec(A2)], 1)]]
    ensures c.locals == [Local(0, Some(0), Some(0), NothingToClose, Iterating(CUTOFF, [B1], {A2})),
                         Local(0, None, None, NothingToClose, Iterating(CUTOFF, [A2, B1], {}))]
  {
    Days();
    moves, c := SecondBegins(start);
    assert Due(c.table, CUTOFF) == {A2, B1} == Rows([A2, B1]);
    moves, c := Next(start, moves, c, Take(0, Begin(CUTOFF, [A2, B1])));
    moves, c := Next(start, moves, c, Take(0, Write(Full)));
    assert [Rec(A1)] + [Rec(A2)] == [Rec(A1), Rec(A2)] && [A2, B1][1..] == [B1] && {} + {A2} == {A2};
    assert |c.dirs| == 1 && c.dirs[0] == map[0 := File([Rec(A1), Rec(A2)], 1)];
  }

  /** It uploads and prunes the first day. */
  lemma FirstPrunes(start: Cluster) returns (moves: seq<Move>, c: Cluster)
    requires start == Start(PRUNING, [0, 0], 1)
    ensures Gets(start, moves, c) && c.cfg == PRUNING && c.table == {A2, B1}
    ensures c.bucket == map[0 := [Rec(A1), Rec(A2)]]
    ensures c.inserted == {A1, A2, B1} && c.dirs == [map[]]
    ensures c.locals == [Local(0, Some(0), None, NothingToClose, Iterating(CUTOFF, [B1], {A2})),
                         Local(0, None, None, NothingToClose, Iterating(CUTOFF, [A2, B1], {}))]
  {
    Days();
    moves, c := FirstWrites(start);
    moves, c := RotateOut(start, moves, c, 0, 0);
    assert c.dirs == [map[]];
  }

  /** It goes on to the second day and deletes both rows. */
  lemma FirstDeletes(start: Cluster) returns (moves: seq<Move>, c: Cluster)
    requires start == Start(PRUNING, [0, 0], 1)
    ensures Gets(start, moves, c) && c.cfg == PRUNING && c.table == {} && c.bucket == map[0 := [Rec(A1), Rec(A2)]]
    ensures c.inserted == {A1, A2, B1} && c.dirs == [map[1 := File([Rec(B1)], 1)]]
    ensures c.locals == [Open1(0, 1), Local(0, None, None, NothingToClose, Iterating(CUTOFF, [A2, B1], {}))]
  {
    Days();
    moves, c := FirstPrunes(start);
    assert [B1] + [] == [B1] && {A2} + {B1} == {A2, B1} && c.table - {A2, B1} == {};
    moves, c := OpenWrite(start, moves, c, 0, B1, []);
    assert Due(c.table, CUTOFF) == {A2, B1};
    moves, c := SyncDelete(start, moves, c, 0, 1);
    assert |c.dirs| == 1 && Synced(File([Rec(B1)], 0)) == File([Rec(B1)], 1);
    assert c.dirs[0] == map[1 := File([Rec(B1)], 1)];
  }

  /** Replica 1 begins the first day's file anew. */
  lemma SecondReturns(start: Cluster) returns (moves: seq<Move>, c: Cluster)
    requires start == Start(PRUNING, [0, 0], 1)
    ensures Gets(start, moves, c) && c.cfg == PRUNING && c.table == {} && c.inserted == {A1, A2, B1}
    ensures c.dirs == [map[1 := File([Rec(B1)], 1), 0 := File([Rec(A2)], 0)]]
    ensures c.locals == [Open1(0, 1), Local(0, Some(0), Some(0), NothingToClose, Iterating(CUTOFF, [B1], {A2}))]
  {
    Days();
    moves, c := FirstDeletes(start);
    assert [A2] + [B1] == [A2, B1] && {} + {A2} == {A2};
    moves, c := OpenWrite(start, moves, c, 1, A2, [B1]);
  }

  /**
   * Two replicas sweep the same rows in one directory at the same time: the
   * slower one begins the pruned day's file anew and uploads it over the object
   * that held the day's earlier row.
   */
  lemma SharedDirectoryMatters()
    ensures CanLose(Start(PRUNING, [0, 0], 1))
  {
    var start := Start(PRUNING, [0, 0], 1);
    Days();
    var moves, c := SecondReturns(start);
    moves, c := Next(start, moves, c, Take(1, Rotate(true)));
    moves, c := Next(start, moves, c, Take(1, Upload(Stored)));
    assert c.bucket[0] == [Rec(A2)];
    assert c.dirs[0][0].items == [Rec(A2)];
    assert A1 in c.inserted && !OnSomeDisk(c, A1) && !InObject(c, A1);
  }

  // ---------------------------------------------------------------- exactly when

  lemma {:induction false} SmoothIsCareful(c: Cluster, moves: seq<Move>)
    requires IsHistory(c, moves) && SmoothHistory(c, moves)
    ensures CarefulHistory(c, moves)
    decreases |moves|
  {
    if moves != [] { SmoothIsCareful(After(c, moves[0]), moves[1..]); }
  }

  /** Replicas lose rows in histories where nothing goes wrong exactly when local files are pruned. */
  lemma ReplicasLoseExactlyWhen(cfg: Config)
    ensures CanLose(Start(cfg, [0, 1], 2)) <==> cfg.Prunes()
    ensures CanLose(Start(cfg, [0, 0], 1)) <==> cfg.Prunes()
  {
    if cfg.Prunes() {
      assert cfg == PRUNING;
      SeparateDirectoriesMatter();
      SharedDirectoryMatters();
    } else {
      KeepingIsSafe(cfg, [0, 1], 2);
      KeepingIsSafe(cfg, [0, 0], 1);
    }
  }

  lemma KeepingIsSafe(cfg: Config, homes: seq<nat>, dirs: nat)
    requires !cfg.Prunes() && forall j :: 0 <= j < |homes| ==> homes[j] < dirs
    ensures !CanLose(Start(cfg, homes, dirs))
  {
    forall moves | IsHistory(Start(cfg, homes, dirs), moves) && SmoothHistory(Start(cfg, homes, dirs), moves)
      ensures NothingLostAnywhere(Outcome(Start(cfg, homes, dirs), moves))
    {
      SmoothIsCareful(Start(cfg, homes, dirs), moves);
      ReplicasNeverLose(cfg, homes, dirs, moves);
    }
  }
}
