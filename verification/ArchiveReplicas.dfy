/**
 * Several archivers over one audit table and one bucket, each with its own
 * handle and with a directory of its own or a shared one: the claim of
 * archive.go:54-60 that replicas archiving at the same time lose nothing.
 */
module ArchiveReplicas {
  import opened Options
  import opened Sorting
  import opened ArchiveMachine
  import opened ArchiveInvariants
  import opened ArchiveSafety

  /** What one replica has to itself; `dir` is the directory it writes to. */
  datatype Local = Local(dir: nat, openDate: Option<Day>, openFile: Option<Day>, closing: Closing, phase: Phase)

  datatype Cluster = Cluster(
    cfg: Config,
    table: set<Row>,
    dirs: seq<map<Day, File>>,
    bucket: map<Day, seq<Item>>,
    inserted: set<Row>,
    locals: seq<Local>)

  /** A row arrives, one replica takes a step, or the machine that holds a directory loses power. */
  datatype Move = Arrive(row: Row) | Take(replica: nat, step: Step) | PowerFails(dir: nat, kept: map<Day, seq<Item>>)

  predicate HasReplica(c: Cluster, j: nat) {
    j < |c.locals| && c.locals[j].dir < |c.dirs|
  }

  /** The cluster as replica `j` sees it. */
  function View(c: Cluster, j: nat): State
    requires HasReplica(c, j)
  {
    var l := c.locals[j];
    State(c.cfg, c.table, c.dirs[l.dir], c.bucket, l.openDate, l.openFile, l.closing, l.phase, c.inserted, map[])
  }

  /** A file is removed only while no other replica works on it. */
  predicate Alone(c: Cluster, j: nat, d: Day)
    requires HasReplica(c, j)
  {
    forall i :: 0 <= i < |c.locals| && i != j && c.locals[i].dir == c.locals[j].dir ==>
      c.locals[i].openFile != Some(d) && (c.locals[i].closing != NothingToClose ==> c.locals[i].closing.day != d)
  }

  ghost predicate CanMove(c: Cluster, m: Move) {
    match m
    case Arrive(r) => r !in c.inserted
    case Take(j, step) =>
      && HasReplica(c, j) && !step.Insert? && !step.PowerLoss? && Enabled(View(c, j), step)
      && (step.Remove? ==> Alone(c, j, c.locals[j].closing.day))
    case PowerFails(k, kept) =>
      k < |c.dirs| && kept.Keys == c.dirs[k].Keys && forall d :: d in kept ==> CrashImage(c.dirs[k][d], kept[d])
  }

  function Stopped(l: Local): Local {
    l.(openDate := None, openFile := None, closing := NothingToClose, phase := Idle)
  }

  ghost function After(c: Cluster, m: Move): Cluster
    requires CanMove(c, m)
  {
    match m
    case Arrive(r) => c.(table := c.table + {r}, inserted := c.inserted + {r})
    case Take(j, step) =>
      var t := Apply(View(c, j), step);
      c.(table := t.table, dirs := c.dirs[c.locals[j].dir := t.files], bucket := t.bucket,
         locals := c.locals[j := Local(c.locals[j].dir, t.openDate, t.openFile, t.closing, t.phase)])
    case PowerFails(k, kept) =>
      c.(dirs := c.dirs[k := map d | d in kept :: File(kept[d], |kept[d]|)],
         locals := seq(|c.locals|, j requires 0 <= j < |c.locals| =>
           if c.locals[j].dir == k then Stopped(c.locals[j]) else c.locals[j]))
  }

  ghost predicate IsHistory(c: Cluster, moves: seq<Move>)
    decreases |moves|
  {
    moves == [] || (CanMove(c, moves[0]) && IsHistory(After(c, moves[0]), moves[1..]))
  }

  ghost function Outcome(c: Cluster, moves: seq<Move>): Cluster
    requires IsHistory(c, moves)
    decreases |moves|
  {
    if moves == [] then c else Outcome(After(c, moves[0]), moves[1..])
  }

  /** Fresh replicas, each with the directory that `homes` gives it. */
  function Start(cfg: Config, homes: seq<nat>, dirs: nat): Cluster {
    Cluster(cfg, {}, seq(dirs, _ => map[]), map[], {},
            seq(|homes|, j requires 0 <= j < |homes| => Local(homes[j], None, None, NothingToClose, Idle)))
  }

  // ---------------------------------------------------------------- what is promised, and on what condition

  /** `r` can be read back from the stable part of its day's file in this directory. */
  ghost predicate DirHolds(files: map<Day, File>, r: Row) {
    var d := DayOf(r.at);
    d in files && files[d].synced <= |files[d].items| && Readable(Durable(files[d]), r)
  }

  ghost predicate OnSomeDisk(c: Cluster, r: Row) {
    exists k :: 0 <= k < |c.dirs| && DirHolds(c.dirs[k], r)
  }

  ghost predicate InObject(c: Cluster, r: Row) {
    DayOf(r.at) in c.bucket && Readable(c.bucket[DayOf(r.at)], r)
  }

  ghost predicate NothingLostAnywhere(c: Cluster) {
    forall r :: r in c.inserted ==> r in c.table || OnSomeDisk(c, r) || InObject(c, r)
  }

  /**
   * As `ArchiveSafety.Careful` for each replica, without the care about openings;
   * a row must not arrive below the cutoff of any running sweep.
   */
  ghost predicate CarefulMove(c: Cluster, m: Move)
    requires CanMove(c, m)
  {
    match m
    case Arrive(r) => forall j :: 0 <= j < |c.locals| && c.locals[j].phase != Idle ==> c.locals[j].phase.cutoff <= r.at
    case Take(j, step) => SettledRotation(View(c, j), step) && WholeLine(View(c, j), step)
    case PowerFails(_, _) => true
  }

  ghost predicate CarefulHistory(c: Cluster, moves: seq<Move>)
    requires IsHistory(c, moves)
    decreases |moves|
  {
    moves == [] || (CarefulMove(c, moves[0]) && CarefulHistory(After(c, moves[0]), moves[1..]))
  }

  // ---------------------------------------------------------------- the invariant without pruning

  /** What a sweep has written survives up to its own `Sync`. */
  ghost predicate KeptBy(v: State, r: Row) {
    || OnDisk(v, r)
    || (v.openFile == Some(DayOf(r.at)) && DayOf(r.at) in v.files && Readable(v.files[DayOf(r.at)].items, r))
  }

  /** Other replicas may delete what this one has still to write, so what is due is part of what it writes. */
  ghost predicate ReplicaOk(v: State) {
    && (v.openFile.Some? ==> v.openFile == v.openDate && v.openFile.value in v.files)
    && !v.closing.ToRemove? && (v.closing != NothingToClose ==> v.cfg.s3 && v.phase.Iterating? && |v.phase.todo| > 0)
    && (v.phase.Iterating? ==>
          && Due(v.table, v.phase.cutoff) <= v.phase.done + Rows(v.phase.todo)
          && forall r :: r in v.phase.done ==> KeptBy(v, r))
    && (v.phase.Deleting? ==>
          && Due(v.table, v.phase.cutoff) <= v.phase.done
          && forall r :: r in v.phase.done ==> OnDisk(v, r))
  }

  ghost predicate InBounds(files: map<Day, File>) {
    forall d :: d in files ==> files[d].synced <= |files[d].items|
  }

  ghost predicate LeftOnDisk(c: Cluster) {
    forall r :: r in c.inserted && r !in c.table ==> OnSomeDisk(c, r)
  }

  ghost predicate ClusterOk(c: Cluster) {
    && !c.cfg.Prunes()
    && (forall k :: 0 <= k < |c.dirs| ==> InBounds(c.dirs[k]))
    && (forall j :: 0 <= j < |c.locals| ==> HasReplica(c, j) && ReplicaOk(View(c, j)))
    && LeftOnDisk(c)
  }

  /** Files that have only grown, and so have their stable parts. */
  ghost predicate Grown(a: map<Day, File>, b: map<Day, File>) {
    forall d :: d in a ==> GrownOn(a, b, d)
  }

  ghost predicate GrownOn(a: map<Day, File>, b: map<Day, File>, d: Day)
    requires d in a
  {
    && d in b && a[d].items <= b[d].items
    && a[d].synced <= |a[d].items| && b[d].synced <= |b[d].items| && Durable(a[d]) <= Durable(b[d])
  }

  lemma StepGrows(v: State, step: Step)
    requires InBounds(v.files) && ReplicaOk(v) && Enabled(v, step) && !step.PowerLoss?
    ensures Grown(v.files, Apply(v, step).files) && InBounds(Apply(v, step).files)
    ensures !v.cfg.Prunes() ==> !Apply(v, step).closing.ToRemove?
  {
    forall d | d in v.files ensures GrownOn(v.files, Apply(v, step).files, d) { FilesGrow(v, step, d); }
  }

  lemma DirHoldsMore(a: map<Day, File>, b: map<Day, File>, r: Row)
    requires Grown(a, b) && DirHolds(a, r)
    ensures DirHolds(b, r)
  {
    var d := DayOf(r.at);
    assert GrownOn(a, b, d);
    ReadableGrows(Durable(a[d]), Durable(b[d]), r);
  }

  lemma KeptByMore(v: State, w: State, r: Row)
    requires Grown(v.files, w.files) && w.openFile == v.openFile && KeptBy(v, r)
    ensures KeptBy(w, r) && (OnDisk(v, r) ==> OnDisk(w, r))
  {
    var d := DayOf(r.at);
    assert d in v.files ==> GrownOn(v.files, w.files, d);
    if OnDisk(v, r) {
      DirHoldsMore(v.files, w.files, r);
    } else {
      ReadableGrows(v.files[d].items, w.files[d].items, r);
    }
  }

  /** A replica that does not move, while its files grow and no more becomes due, stays as it should be. */
  lemma OthersStayOk(v: State, w: State)
    requires ReplicaOk(v) && Grown(v.files, w.files) && w.cfg == v.cfg
    requires w.openFile == v.openFile && w.openDate == v.openDate && w.closing == v.closing && w.phase == v.phase
    requires v.phase != Idle ==> Due(w.table, v.phase.cutoff) <= Due(v.table, v.phase.cutoff)
    ensures ReplicaOk(w)
  {
    if v.openFile.Some? { assert GrownOn(v.files, w.files, v.openFile.value); }
    if v.phase != Idle {
      forall r | r in v.phase.done ensures KeptBy(w, r) && (OnDisk(v, r) ==> OnDisk(w, r)) { KeptByMore(v, w, r); }
    }
  }

  // ---------------------------------------------------------------- one replica moves

  lemma DoneKept(v: State, step: Step, r: Row)
    requires InBounds(v.files) && ReplicaOk(v) && Enabled(v, step) && !step.PowerLoss? && SettledRotation(v, step)
    requires v.phase.Iterating? && Apply(v, step).phase.Iterating? && r in v.phase.done
    ensures KeptBy(Apply(v, step), r)
  {
    var t, d := Apply(v, step), DayOf(r.at);
    StepGrows(v, step);
    if OnDisk(v, r) {
      DirHoldsMore(v.files, t.files, r);
    } else if step.Rotate? {
      assert t.files[d] == Synced(v.files[d]) && Durable(t.files[d]) == v.files[d].items;
    } else {
      KeptByMore(v, t, r);
    }
  }

  lemma SyncedOnDisk(v: State, r: Row)
    requires InBounds(v.files) && ReplicaOk(v) && Enabled(v, Sync(true)) && r in v.phase.done
    ensures OnDisk(Apply(v, Sync(true)), r)
  {
    var t, d := Apply(v, Sync(true)), DayOf(r.at);
    StepGrows(v, Sync(true));
    if OnDisk(v, r) {
      DirHoldsMore(v.files, t.files, r);
    } else {
      assert KeptBy(v, r);
      assert Durable(t.files[d]) == v.files[d].items;
    }
  }

  lemma MoverStaysOk(v: State, step: Step)
    requires InBounds(v.files) && !v.cfg.Prunes() && ReplicaOk(v) && Enabled(v, step)
    requires !step.PowerLoss? && !step.Insert? && SettledRotation(v, step) && WholeLine(v, step)
    ensures ReplicaOk(Apply(v, step))
  {
    var t := Apply(v, step);
    StepGrows(v, step);
    if t.phase.Iterating? {
      if step.Write? {
        assert v.phase.todo == [v.phase.todo[0]] + v.phase.todo[1..];
        assert Rows(v.phase.todo) == {v.phase.todo[0]} + Rows(v.phase.todo[1..]);
      }
      forall r | r in t.phase.done ensures KeptBy(t, r) {
        if step.Write? && r == v.phase.todo[0] {
          AppendedIsReadable(v.files[v.openFile.value].items, r);
        } else {
          DoneKept(v, step, r);
        }
      }
    } else if t.phase.Deleting? {
      assert step == Sync(true) && Rows(v.phase.todo) == {};
      forall r | r in t.phase.done ensures OnDisk(t, r) { SyncedOnDisk(v, r); }
    }
  }

  lemma TakeKeepsReplicas(c: Cluster, j: nat, step: Step, i: nat)
    requires ClusterOk(c) && CanMove(c, Take(j, step)) && CarefulMove(c, Take(j, step)) && i < |c.locals|
    ensures var e := After(c, Take(j, step)); HasReplica(e, i) && ReplicaOk(View(e, i))
  {
    var v, e := View(c, j), After(c, Take(j, step));
    assert HasReplica(c, i);
    StepGrows(v, step);
    if i != j {
      TableShrinks(v, step);
      SelfGrown(c.dirs[c.locals[i].dir]);
      OthersStayOk(View(c, i), View(e, i));
    } else {
      MoverStaysOk(v, step);
      SameReplica(Apply(v, step), View(e, j));
    }
  }

  lemma TakeKept(c: Cluster, j: nat, step: Step)
    requires ClusterOk(c) && CanMove(c, Take(j, step)) && CarefulMove(c, Take(j, step))
    ensures ClusterOk(After(c, Take(j, step)))
  {
    var v, e := View(c, j), After(c, Take(j, step));
    StepGrows(v, step);
    TableShrinks(v, step);
    forall i | 0 <= i < |e.locals| ensures HasReplica(e, i) && ReplicaOk(View(e, i)) {
      TakeKeepsReplicas(c, j, step, i);
    }
    forall r | r in e.inserted && r !in e.table ensures OnSomeDisk(e, r) {
      if r in c.table {
        assert r in v.phase.done && DirHolds(c.dirs[c.locals[j].dir], r);
      }
      DisksGrow(c, e, r);
    }
  }

  /** The history of failed sweeps plays no part. */
  lemma SameReplica(t: State, w: State)
    requires ReplicaOk(t) && w == t.(failed := w.failed)
    ensures ReplicaOk(w)
  {
    if t.phase != Idle {
      forall r | r in t.phase.done ensures (KeptBy(t, r) ==> KeptBy(w, r)) && (OnDisk(t, r) ==> OnDisk(w, r)) {}
    }
  }

  lemma TableShrinks(v: State, step: Step)
    requires Enabled(v, step) && !step.Insert?
    ensures Apply(v, step).table <= v.table
    ensures forall r :: r in v.table && r !in Apply(v, step).table ==>
                          v.phase.Deleting? && r in Due(v.table, v.phase.cutoff)
  {
  }

  lemma SelfGrown(files: map<Day, File>)
    requires InBounds(files)
    ensures Grown(files, files)
  {
    forall d | d in files ensures GrownOn(files, files, d) {}
  }

  /** What some disk holds it still holds if every directory has grown. */
  lemma DisksGrow(c: Cluster, e: Cluster, r: Row)
    requires OnSomeDisk(c, r) && |e.dirs| == |c.dirs|
    requires forall k :: 0 <= k < |c.dirs| ==> c.dirs[k] == e.dirs[k] || Grown(c.dirs[k], e.dirs[k])
    ensures OnSomeDisk(e, r)
  {
    var k :| 0 <= k < |c.dirs| && DirHolds(c.dirs[k], r);
    if c.dirs[k] != e.dirs[k] { DirHoldsMore(c.dirs[k], e.dirs[k], r); }
    assert DirHolds(e.dirs[k], r);
  }

  // ---------------------------------------------------------------- arrivals and power

  lemma ArriveKept(c: Cluster, r: Row)
    requires ClusterOk(c) && CanMove(c, Arrive(r)) && CarefulMove(c, Arrive(r))
    ensures ClusterOk(After(c, Arrive(r)))
  {
    var e := After(c, Arrive(r));
    forall i | 0 <= i < |e.locals| ensures HasReplica(e, i) && ReplicaOk(View(e, i)) {
      assert HasReplica(c, i);
      SelfGrown(c.dirs[c.locals[i].dir]);
      OthersStayOk(View(c, i), View(e, i));
    }
    forall q | q in e.inserted && q !in e.table ensures OnSomeDisk(e, q) { DisksGrow(c, e, q); }
  }

  lemma CrashHolds(files: map<Day, File>, kept: map<Day, seq<Item>>, r: Row)
    requires kept.Keys == files.Keys && (forall d :: d in kept ==> CrashImage(files[d], kept[d])) && DirHolds(files, r)
    ensures DirHolds(map d | d in kept :: File(kept[d], |kept[d]|), r)
  {
    var d := DayOf(r.at);
    CrashKeepsDurable(files[d], kept[d]);
    ReadableGrows(Durable(files[d]), kept[d], r);
    assert kept[d][..|kept[d]|] == kept[d];
  }

  lemma PowerKept(c: Cluster, k: nat, kept: map<Day, seq<Item>>)
    requires ClusterOk(c) && CanMove(c, PowerFails(k, kept))
    ensures ClusterOk(After(c, PowerFails(k, kept)))
  {
    var e := After(c, PowerFails(k, kept));
    forall i | 0 <= i < |e.locals| ensures HasReplica(e, i) && ReplicaOk(View(e, i)) {
      assert HasReplica(c, i);
      if c.locals[i].dir != k {
        SelfGrown(c.dirs[c.locals[i].dir]);
        OthersStayOk(View(c, i), View(e, i));
      }
    }
    forall r | r in e.inserted && r !in e.table ensures OnSomeDisk(e, r) {
      var m :| 0 <= m < |c.dirs| && DirHolds(c.dirs[m], r);
      if m == k { CrashHolds(c.dirs[k], kept, r); }
      assert DirHolds(e.dirs[m], r);
    }
  }

  // ---------------------------------------------------------------- every history

  lemma {:induction false} CarefulHistoriesLoseNothing(c: Cluster, moves: seq<Move>)
    requires ClusterOk(c) && IsHistory(c, moves) && CarefulHistory(c, moves)
    ensures ClusterOk(Outcome(c, moves))
    decreases |moves|
  {
    if moves != [] {
      match moves[0]
      case Arrive(r) => ArriveKept(c, r);
        CarefulHistoriesLoseNothing(After(c, moves[0]), moves[1..]);
      case Take(j, step) => TakeKept(c, j, step);
        CarefulHistoriesLoseNothing(After(c, moves[0]), moves[1..]);
      case PowerFails(k, kept) => PowerKept(c, k, kept);
        CarefulHistoriesLoseNothing(After(c, moves[0]), moves[1..]);
    }
  }

  /**
   * With local files kept, any number of replicas, sweeping at the same time in
   * shared or separate directories, lose nothing: whatever fails and whichever
   * of them crash, a row that has left the table is on some replica's disk.
   */
  lemma ReplicasNeverLose(cfg: Config, homes: seq<nat>, dirs: nat, moves: seq<Move>)
    requires !cfg.Prunes() && forall j :: 0 <= j < |homes| ==> homes[j] < dirs
    requires IsHistory(Start(cfg, homes, dirs), moves) && CarefulHistory(Start(cfg, homes, dirs), moves)
    ensures var c := Outcome(Start(cfg, homes, dirs), moves);
            (forall r :: r in c.inserted ==> r in c.table || OnSomeDisk(c, r)) && NothingLostAnywhere(c)
  {
    CarefulHistoriesLoseNothing(Start(cfg, homes, dirs), moves);
  }
}
