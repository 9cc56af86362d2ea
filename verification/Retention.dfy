/**
 * DLQ retention (internal/dlq/retention.go) over the two prunes of
 * internal/storage/dlq.go:700-728.
 */
module Retention {

  /** Nanoseconds since Go's zero time. */
  type Time = int

  /** A dead letter; `id` stands for the order the database gives rows created at the same time. */
  datatype Row = Row(id: nat, created: Time)

  predicate Newer(a: Row, b: Row) {
    a.created > b.created || (a.created == b.created && a.id > b.id)
  }

  /** The rows of `rows` newer than `r`. */
  ghost function NewerThan(rows: set<Row>, r: Row): set<Row> {
    set q | q in rows && Newer(q, r)
  }

  /** What `DELETE ... WHERE created_at < cutoff` leaves. */
  function Within(rows: set<Row>, cutoff: Time): set<Row> {
    set r | r in rows && r.created >= cutoff
  }

  /** What PruneOlderThan leaves: with the zero time as cutoff it deletes nothing. */
  function PrunedByAge(rows: set<Row>, cutoff: Time): set<Row> {
    if cutoff == 0 then rows else Within(rows, cutoff)
  }

  /** What deleting `ORDER BY created_at DESC LIMIT -1 OFFSET n` leaves: the rows with fewer than `n` newer ones. */
  ghost function Newest(rows: set<Row>, n: nat): set<Row> {
    set r | r in rows && |NewerThan(rows, r)| < n
  }

  /** The two prunes commute, and together keep exactly the rows both young enough and among the newest `n`. */
  lemma PrunesCommute(rows: set<Row>, cutoff: Time, n: nat)
    ensures Newest(Within(rows, cutoff), n) == Within(Newest(rows, n), cutoff)
    ensures Newest(Within(rows, cutoff), n) == Within(rows, cutoff) * Newest(rows, n)
  {
    forall r | r in rows && r.created >= cutoff
      ensures NewerThan(Within(rows, cutoff), r) == NewerThan(rows, r)
    {
    }
  }

  /** The row newer than all others. */
  lemma {:induction false} NewestRow(rows: set<Row>) returns (top: Row)
    requires rows != {} && UniqueIds(rows)
    ensures top in rows && forall r :: r in rows - {top} ==> Newer(top, r)
    decreases rows
  {
    top :| top in rows;
    if rows != {top} {
      var other := NewestRow(rows - {top});
      var first := top;
      top := if Newer(other, first) then other else first;
      forall r | r in rows - {top} ensures Newer(top, r) {
        assert r == first || r == other || r in rows - {first} - {other};
      }
    }
  }

  /** Ids are the table's primary key. */
  ghost predicate UniqueIds(rows: set<Row>) {
    forall a, b :: a in rows && b in rows && a.id == b.id ==> a == b
  }

  lemma NewestIsSmaller(rows: set<Row>, n: nat)
    ensures Newest(rows, n) <= rows
    ensures n == 0 || rows == {} ==> Newest(rows, n) == {}
  {
  }

  /** Every other row has one newer row more than it has without the newest row. */
  lemma RankWithoutTop(rows: set<Row>, top: Row, r: Row)
    requires top in rows && r in rows - {top} && Newer(top, r)
    ensures |NewerThan(rows, r)| == |NewerThan(rows - {top}, r)| + 1
  {
    assert NewerThan(rows, r) == NewerThan(rows - {top}, r) + {top};
  }

  lemma NewestWithoutTop(rows: set<Row>, top: Row, n: nat)
    requires n > 0 && top in rows && forall r :: r in rows - {top} ==> Newer(top, r)
    ensures Newest(rows, n) == Newest(rows - {top}, n - 1) + {top}
  {
    forall q | q in rows ensures !Newer(q, top) {
      assert q == top || q in rows - {top};
    }
    assert NewerThan(rows, top) == {};
    forall r | r in rows - {top}
      ensures r in Newest(rows, n) <==> r in Newest(rows - {top}, n - 1)
    {
      RankWithoutTop(rows, top, r);
    }
    NewestIsSmaller(rows - {top}, n - 1);
    NewestIsSmaller(rows, n);
  }

  lemma {:induction false} NewestSize(rows: set<Row>, n: nat)
    requires UniqueIds(rows)
    ensures |Newest(rows, n)| == if |rows| < n then |rows| else n
    decreases rows
  {
    if n > 0 && rows != {} {
      var top := TakeTheTop(rows, n);
      NewestSize(rows - {top}, n - 1);
    } else {
      NewestIsSmaller(rows, n);
    }
  }

  lemma TakeTheTop(rows: set<Row>, n: nat) returns (top: Row)
    requires UniqueIds(rows) && n > 0 && rows != {}
    ensures top in rows && UniqueIds(rows - {top})
    ensures |Newest(rows, n)| == |Newest(rows - {top}, n - 1)| + 1
  {
    top := NewestRow(rows);
    NewestWithoutTop(rows, top, n);
    NewestIsSmaller(rows - {top}, n - 1);
    assert top !in Newest(rows - {top}, n - 1);
  }

  // ---------------------------------------------------------------- the sweeper

  datatype Policy = Policy(maxAge: int, maxRows: int)

  /** One tick: the rows that arrived since the last, whether this replica leads, the time, and which prunes work. */
  datatype Tick = Tick(arrivals: set<Row>, leader: bool, now: Time, ageOk: bool, countOk: bool)

  /** The table after a sweep; a failed prune is logged and the other still runs. */
  ghost function Swept(rows: set<Row>, p: Policy, now: Time, ageOk: bool, countOk: bool): set<Row> {
    var aged := if p.maxAge > 0 && ageOk then PrunedByAge(rows, now - p.maxAge) else rows;
    if p.maxRows > 0 && countOk then Newest(aged, p.maxRows) else aged
  }

  ghost function AfterTick(rows: set<Row>, p: Policy, gated: bool, t: Tick): set<Row> {
    if gated && !t.leader then rows + t.arrivals else Swept(rows + t.arrivals, p, t.now, t.ageOk, t.countOk)
  }

  ghost function AfterTicks(rows: set<Row>, p: Policy, gated: bool, ticks: seq<Tick>): set<Row> {
    if ticks == [] then rows
    else AfterTick(AfterTicks(rows, p, gated, ticks[..|ticks| - 1]), p, gated, ticks[|ticks| - 1])
  }

  /**
   * A sweep whose prunes both work keeps exactly the rows within the age limit
   * that are also among the newest `maxRows` of the whole table; a policy set to
   * zero or less limits nothing, and neither does the one cutoff that
   * PruneOlderThan takes for a missing one.
   */
  lemma SweepKeepsExactly(rows: set<Row>, p: Policy, now: Time, r: Row)
    ensures r in Swept(rows, p, now, true, true) <==>
            && r in rows
            && (p.maxAge > 0 && now != p.maxAge ==> now - r.created <= p.maxAge)
            && (p.maxRows > 0 ==> |NewerThan(rows, r)| < p.maxRows)
  {
    if p.maxAge > 0 && r in Within(rows, now - p.maxAge) {
      assert NewerThan(Within(rows, now - p.maxAge), r) == NewerThan(rows, r);
    }
  }

  class Retention {
    const policy: Policy
    /** Whether SetLeaderCheck has installed a gate. */
    var gated: bool
    /** The dlq table. */
    var rows: set<Row>

    constructor (policy: Policy)
      ensures this.policy == policy && !gated && rows == {}
    {
      this.policy, gated, rows := policy, false, {};
    }

    /** retention.go:67-69. */
    method SetLeaderCheck()
      modifies this`gated
      ensures gated
    {
      gated := true;
    }

    /** storage/dlq.go:700-710. */
    method PruneOlderThan(cutoff: Time)
      modifies this`rows
      ensures rows == PrunedByAge(old(rows), cutoff)
    {
      if cutoff == 0 {
        return;
      }
      rows := Within(rows, cutoff);
    }

    /** storage/dlq.go:712-728: the first `n` rows of the descending order are skipped and the rest is deleted. */
    method PruneToMaxRows(n: int)
      requires UniqueIds(rows)
      modifies this`rows
      ensures rows == if n <= 0 then old(rows) else Newest(old(rows), n)
    {
      if n <= 0 {
        return;
      }
      var remaining, kept, i := rows, {}, 0;
      while i < n && remaining != {}
        invariant 0 <= i <= n && kept + remaining == rows == old(rows) && kept !! remaining && |kept| == i
        invariant forall a, b :: a in kept && b in remaining ==> Newer(a, b)
        decreases n - i
      {
        var top := NextNewest(remaining);
        remaining, kept, i := remaining - {top}, kept + {top}, i + 1;
      }
      OffsetIsNewest(rows, kept, remaining, n);
      rows := kept;
    }

    method NextNewest(remaining: set<Row>) returns (top: Row)
      requires remaining != {} && UniqueIds(remaining)
      ensures top in remaining && forall r :: r in remaining - {top} ==> Newer(top, r)
    {
      top :| top in remaining;
      var todo := remaining - {top};
      while todo != {}
        invariant top in remaining && top !in todo && todo <= remaining
        invariant forall r :: r in remaining - todo - {top} ==> Newer(top, r)
        decreases |todo|
      {
        var r :| r in todo;
        ghost var seen, was := remaining - todo - {top}, top;
        todo := todo - {r};
        if Newer(r, top) {
          top := r;
        }
        forall q | q in remaining - todo - {top} ensures Newer(top, q) {
          assert q == r || q == was || q in seen;
        }
      }
    }

    /** retention.go:97-113. */
    method Sweep(now: Time, ageOk: bool, countOk: bool)
      requires UniqueIds(rows)
      modifies this`rows
      ensures rows == Swept(old(rows), policy, now, ageOk, countOk)
    {
      if policy.maxAge > 0 && ageOk {
        PruneOlderThan(now - policy.maxAge);
      }
      if policy.maxRows > 0 && countOk {
        PruneToMaxRows(policy.maxRows);
      }
    }

    /** retention.go:73-95: a sweep at the start and one per tick, each behind the leader gate. */
    method Run(ticks: seq<Tick>, ghost allRows: set<Row>)
      requires UniqueIds(allRows) && rows <= allRows && forall t :: t in ticks ==> t.arrivals <= allRows
      modifies this`rows
      ensures policy.maxAge <= 0 && policy.maxRows <= 0 ==> rows == old(rows)
      ensures policy.maxAge > 0 || policy.maxRows > 0 ==> rows == AfterTicks(old(rows), policy, gated, ticks)
      ensures (policy.maxAge > 0 || policy.maxRows > 0) && gated && (forall t :: t in ticks ==> !t.leader) ==>
                rows == old(rows) + AllArrivals(ticks)
    {
      if policy.maxAge <= 0 && policy.maxRows <= 0 {
        return;
      }
      var i := 0;
      while i < |ticks|
        invariant 0 <= i <= |ticks| && rows <= allRows
        invariant rows == AfterTicks(old(rows), policy, gated, ticks[..i])
      {
        var t := ticks[i];
        assert ticks[..i + 1][..i] == ticks[..i] && t in ticks;
        rows := rows + t.arrivals;
        if !gated || t.leader {
          Sweep(t.now, t.ageOk, t.countOk);
        }
        i := i + 1;
      }
      assert ticks[..|ticks|] == ticks;
      if gated && forall t :: t in ticks ==> !t.leader { FollowersDeleteNothing(old(rows), policy, ticks); }
    }
  }

  // ---------------------------------------------------------------- the leader gate

  ghost function AllArrivals(ticks: seq<Tick>): set<Row> {
    set t, r | t in ticks && r in t.arrivals :: r
  }

  /** Behind the gate a replica that never leads deletes nothing. */
  lemma {:induction false} FollowersDeleteNothing(rows: set<Row>, p: Policy, ticks: seq<Tick>)
    requires forall t :: t in ticks ==> !t.leader
    ensures AfterTicks(rows, p, true, ticks) == rows + AllArrivals(ticks)
    decreases |ticks|
  {
    if ticks != [] {
      var before, t := ticks[..|ticks| - 1], ticks[|ticks| - 1];
      assert ticks == before + [t];
      FollowersDeleteNothing(rows, p, before);
      assert AllArrivals(ticks) == AllArrivals(before) + t.arrivals;
    }
  }

  /** The table that tick `i` finds, with what has arrived. */
  ghost function Found(rows: set<Row>, p: Policy, gated: bool, ticks: seq<Tick>, i: nat): set<Row>
    requires i < |ticks|
  {
    AfterTicks(rows, p, gated, ticks[..i]) + ticks[i].arrivals
  }

  /** In tick `i`, without a gate or leading, a working prune removed `r`: it was too old, or enough rows were newer. */
  ghost predicate RemovedIn(rows: set<Row>, p: Policy, gated: bool, ticks: seq<Tick>, i: nat, r: Row)
    requires i < |ticks|
  {
    var t, table := ticks[i], Found(rows, p, gated, ticks, i);
    && r in table && r !in AfterTicks(rows, p, gated, ticks[..i + 1])
    && (!gated || t.leader)
    && ((p.maxAge > 0 && t.ageOk && t.now - r.created > p.maxAge)
        || (p.maxRows > 0 && t.countOk && |NewerThan(table, r)| >= p.maxRows))
  }

  /** A row that was there or arrived, and is gone, was removed in such a tick. */
  lemma {:induction false} GoneRowsWereSwept(rows: set<Row>, p: Policy, gated: bool, ticks: seq<Tick>, r: Row)
    requires r in rows + AllArrivals(ticks) && r !in AfterTicks(rows, p, gated, ticks)
    ensures exists i: nat :: i < |ticks| && RemovedIn(rows, p, gated, ticks, i, r)
    decreases |ticks|
  {
    if ticks != [] {
      var last := |ticks| - 1;
      var before, t := ticks[..last], ticks[last];
      assert ticks == before + [t] && ticks[..last + 1] == ticks;
      var table := Found(rows, p, gated, ticks, last);
      if r in table {
        RemovedRowsDeserveIt(table, p, t, r);
        assert RemovedIn(rows, p, gated, ticks, last, r);
      } else {
        GoneRowsWereSwept(rows, p, gated, before, r);
        var i: nat :| i < |before| && RemovedIn(rows, p, gated, before, i, r);
        assert before[..i] == ticks[..i] && before[..i + 1] == ticks[..i + 1];
        assert RemovedIn(rows, p, gated, ticks, i, r);
      }
    }
  }

  lemma RemovedRowsDeserveIt(table: set<Row>, p: Policy, t: Tick, r: Row)
    requires r in table && r !in Swept(table, p, t.now, t.ageOk, t.countOk)
    ensures (p.maxAge > 0 && t.ageOk && t.now - r.created > p.maxAge)
         || (p.maxRows > 0 && t.countOk && |NewerThan(table, r)| >= p.maxRows)
  {
    var aged := if p.maxAge > 0 && t.ageOk then PrunedByAge(table, t.now - p.maxAge) else table;
    if r in aged { Smaller(NewerThan(aged, r), NewerThan(table, r)); }
  }

  /** A prune by age that works leaves no row that is too old, whatever becomes of the prune by count. */
  lemma AgePruneApplies(rows: set<Row>, p: Policy, gated: bool, ticks: seq<Tick>, r: Row)
    requires ticks != [] && r in AfterTicks(rows, p, gated, ticks)
    requires var t := ticks[|ticks| - 1]; (!gated || t.leader) && p.maxAge > 0 && t.ageOk && t.now != p.maxAge
    ensures ticks[|ticks| - 1].now - r.created <= p.maxAge
  {
    var t := ticks[|ticks| - 1];
    var table := AfterTicks(rows, p, gated, ticks[..|ticks| - 1]) + t.arrivals;
    if p.maxRows > 0 { NewestIsSmaller(PrunedByAge(table, t.now - p.maxAge), p.maxRows); }
  }

  /** Taking the newest row `n` times is taking the rows with fewer than `n` newer ones. */
  lemma OffsetIsNewest(rows: set<Row>, kept: set<Row>, remaining: set<Row>, n: nat)
    requires UniqueIds(rows) && kept + remaining == rows && kept !! remaining
    requires |kept| <= n && (|kept| == n || remaining == {})
    requires forall a, b :: a in kept && b in remaining ==> Newer(a, b)
    ensures kept == Newest(rows, n)
  {
    forall r | r in kept ensures |NewerThan(rows, r)| < n {
      assert NewerThan(rows, r) <= kept - {r} by {
        forall q | q in NewerThan(rows, r) ensures q in kept - {r} {}
      }
      Smaller(NewerThan(rows, r), kept - {r});
    }
    forall r | r in remaining ensures |NewerThan(rows, r)| >= n {
      assert kept <= NewerThan(rows, r);
      Smaller(kept, NewerThan(rows, r));
    }
  }

  lemma {:induction false} Smaller<T>(a: set<T>, b: set<T>)
    requires a <= b
    ensures |a| <= |b|
    decreases a
  {
    if a != {} {
      var x :| x in a;
      Smaller(a - {x}, b - {x});
    }
  }

  // ---------------------------------------------------------------- the bound

  /** Arrivals in the ticks after the last sweep whose count prune worked, that sweep's own excluded. */
  ghost function SinceLastSweep(p: Policy, gated: bool, ticks: seq<Tick>): set<Row> {
    if ticks == [] then {}
    else
      var t := ticks[|ticks| - 1];
      if (!gated || t.leader) && t.countOk then {}
      else SinceLastSweep(p, gated, ticks[..|ticks| - 1]) + t.arrivals
  }

  ghost predicate SomeSweep(gated: bool, ticks: seq<Tick>) {
    exists t :: t in ticks && (!gated || t.leader) && t.countOk
  }

  lemma AfterTicksWithin(rows: set<Row>, p: Policy, gated: bool, ticks: seq<Tick>, allRows: set<Row>)
    requires rows <= allRows && forall t :: t in ticks ==> t.arrivals <= allRows
    ensures AfterTicks(rows, p, gated, ticks) <= allRows
    decreases |ticks|
  {
    if ticks != [] {
      var before, t := ticks[..|ticks| - 1], ticks[|ticks| - 1];
      assert t in ticks;
      AfterTicksWithin(rows, p, gated, before, allRows);
    }
  }

  /** After at least one sweep the table holds at most `maxRows` rows besides those inserted since the last one. */
  lemma {:induction false} TableIsBounded(rows: set<Row>, p: Policy, gated: bool, ticks: seq<Tick>, allRows: set<Row>)
    requires p.maxRows > 0 && UniqueIds(allRows) && rows <= allRows && forall t :: t in ticks ==> t.arrivals <= allRows
    requires SomeSweep(gated, ticks)
    ensures |AfterTicks(rows, p, gated, ticks) - SinceLastSweep(p, gated, ticks)| <= p.maxRows
    decreases |ticks|
  {
    var before, t := ticks[..|ticks| - 1], ticks[|ticks| - 1];
    var was := AfterTicks(rows, p, gated, before);
    assert ticks == before + [t] && t in ticks;
    AfterTicksWithin(rows, p, gated, before, allRows);
    if (!gated || t.leader) && t.countOk {
      SweptIsBounded(was + t.arrivals, p, t.now, t.ageOk);
    } else {
      assert SomeSweep(gated, before);
      TableIsBounded(rows, p, gated, before, allRows);
      Smaller(AfterTicks(rows, p, gated, ticks) - SinceLastSweep(p, gated, ticks),
              was - SinceLastSweep(p, gated, before));
    }
  }

  lemma SweptIsBounded(rows: set<Row>, p: Policy, now: Time, ageOk: bool)
    requires UniqueIds(rows) && p.maxRows > 0
    ensures |Swept(rows, p, now, ageOk, true) - {}| <= p.maxRows
  {
    var aged := if p.maxAge > 0 && ageOk then PrunedByAge(rows, now - p.maxAge) else rows;
    assert UniqueIds(aged);
    NewestSize(aged, p.maxRows);
    var kept := Newest(aged, p.maxRows);
    assert Swept(rows, p, now, ageOk, true) == kept;
    assert kept - {} == kept;
  }

  // ---------------------------------------------------------------- replicas without a leader gate

  /** What a prune that sees `seen` deletes. */
  ghost function Victims(seen: set<Row>, n: nat): set<Row> {
    seen - Newest(seen, n)
  }

  /**
   * Several replicas pruning one table. `choices` are prunes under way that have
   * chosen their victims but not yet deleted them: for each the rows it saw.
   */
  datatype Replicas = Replicas(rows: set<Row>, inserted: set<Row>, choices: map<nat, set<Row>>)

  /**
   * `Prune` is a statement that chooses and deletes at once; `Choose` and
   * `DeleteChosen` are its two halves for a database that lets other statements
   * in between. `Discard` is every other delete of a dead letter: by an operator
   * or after a successful retry (internal/storage/dlq.go:140).
   */
  datatype Step = Insert(row: Row) | Discard(row: Row) | Prune | Choose(replica: nat) | DeleteChosen(replica: nat)

  ghost predicate Enabled(s: Replicas, step: Step) {
    match step
    case Insert(r) => forall q :: q in s.inserted ==> q.id != r.id
    case Discard(r) => r in s.rows
    case Prune => true
    case Choose(_) => true
    case DeleteChosen(i) => i in s.choices
  }

  ghost function Apply(s: Replicas, step: Step, n: nat): Replicas
    requires Enabled(s, step)
  {
    match step
    case Insert(r) => s.(rows := s.rows + {r}, inserted := s.inserted + {r})
    case Discard(r) => s.(rows := s.rows - {r})
    case Prune => s.(rows := s.rows - Victims(s.rows, n))
    case Choose(i) => s.(choices := s.choices[i := s.rows])
    case DeleteChosen(i) => s.(rows := s.rows - Victims(s.choices[i], n), choices := s.choices - {i})
  }

  ghost predicate Sound(s: Replicas) {
    s.rows <= s.inserted && UniqueIds(s.inserted) && forall i :: i in s.choices ==> s.choices[i] <= s.inserted
  }

  lemma SoundKept(s: Replicas, step: Step, n: nat)
    requires Sound(s) && Enabled(s, step)
    ensures Sound(Apply(s, step, n))
  {
  }

  /** Whatever its age, a choice of victims contains no row that is now among the newest `n`. */
  ghost predicate ChoicesAreOld(s: Replicas, n: nat) {
    Sound(s) && forall i :: i in s.choices ==> IsOld(s.rows, Victims(s.choices[i], n), n)
  }

  /** No row of `gone` that is in `rows` is among the newest `n`. */
  ghost predicate IsOld(rows: set<Row>, gone: set<Row>, n: nat) {
    forall r :: r in gone && r in rows ==> |NewerThan(rows, r)| >= n
  }

  /** Deleting rows that are not among the newest `n` leaves the newest `n` the same. */
  lemma OldDeletesAreHarmless(rows: set<Row>, gone: set<Row>, n: nat)
    requires UniqueIds(rows) && IsOld(rows, gone, n)
    ensures Newest(rows - gone, n) == Newest(rows, n)
  {
    var top := Newest(rows, n);
    forall r | r in rows - gone ensures |NewerThan(rows - gone, r)| < n <==> |NewerThan(rows, r)| < n {
      Smaller(NewerThan(rows - gone, r), NewerThan(rows, r));
      if |NewerThan(rows, r)| >= n {
        NewestSize(rows, n);
        Smaller(NewerThan(rows, r), rows);
        forall q | q in top ensures q in NewerThan(rows - gone, r) {
          RankOrder(rows, q, r);
        }
        assert top <= NewerThan(rows - gone, r);
        Smaller(top, NewerThan(rows - gone, r));
      }
    }
    forall r | r in top ensures r in rows - gone {}
  }

  /** A row with fewer newer rows is the newer of two. */
  lemma RankOrder(rows: set<Row>, q: Row, r: Row)
    requires UniqueIds(rows) && q in rows && r in rows && |NewerThan(rows, q)| < |NewerThan(rows, r)|
    ensures Newer(q, r)
  {
    if !Newer(q, r) {
      assert NewerThan(rows, r) <= NewerThan(rows, q) by {
        forall x | x in NewerThan(rows, r) ensures Newer(x, q) {}
      }
      Smaller(NewerThan(rows, r), NewerThan(rows, q));
    }
  }

  lemma OldStaysOld(rows: set<Row>, gone: set<Row>, other: set<Row>, n: nat)
    requires UniqueIds(rows) && IsOld(rows, gone, n) && IsOld(rows, other, n)
    ensures IsOld(rows - gone, other, n)
  {
    OldDeletesAreHarmless(rows, gone, n);
    forall r | r in other && r in rows - gone ensures |NewerThan(rows - gone, r)| >= n {
      assert r in Newest(rows - gone, n) <==> r in Newest(rows, n);
    }
  }

  lemma OldAfterInsert(rows: set<Row>, gone: set<Row>, x: Row, n: nat)
    requires IsOld(rows, gone, n) && x !in gone
    ensures IsOld(rows + {x}, gone, n)
  {
    forall r | r in gone && r in rows + {x} ensures |NewerThan(rows + {x}, r)| >= n {
      Smaller(NewerThan(rows, r), NewerThan(rows + {x}, r));
    }
  }

  /** What a step deletes, other than by discarding. */
  ghost function Deleted(s: Replicas, step: Step, n: nat): set<Row>
    requires Enabled(s, step)
  {
    match step
    case DeleteChosen(i) => Victims(s.choices[i], n)
    case Prune => Victims(s.rows, n)
    case _ => {}
  }

  lemma ChoicesStayOld(s: Replicas, step: Step, n: nat)
    requires ChoicesAreOld(s, n) && Enabled(s, step) && !step.Discard?
    ensures ChoicesAreOld(Apply(s, step, n), n)
    ensures !step.Insert? ==> Newest(Apply(s, step, n).rows, n) == Newest(s.rows, n)
  {
    var t, gone := Apply(s, step, n), Deleted(s, step, n);
    SoundKept(s, step, n);
    assert IsOld(s.rows, gone, n);
    assert !step.Insert? ==> t.rows == s.rows - gone;
    OldDeletesAreHarmless(s.rows, gone, n);
    forall i | i in t.choices ensures IsOld(t.rows, Victims(t.choices[i], n), n) {
      if step.Insert? {
        OldAfterInsert(s.rows, Victims(s.choices[i], n), step.row, n);
      } else if step == Choose(i) {
        assert IsOld(s.rows, Victims(s.rows, n), n);
      } else {
        OldStaysOld(s.rows, gone, Victims(s.choices[i], n), n);
      }
    }
  }

  /** A prune that chooses and deletes at once never removes one of the newest `n`, whatever was discarded before. */
  lemma AtomicPrunesKeepTheNewest(s: Replicas, n: nat)
    requires Sound(s)
    ensures var t := Apply(s, Prune, n); t.rows == Newest(s.rows, n) == Newest(t.rows, n)
  {
    NewestIsSmaller(s.rows, n);
    assert IsOld(s.rows, Victims(s.rows, n), n);
    OldDeletesAreHarmless(s.rows, Victims(s.rows, n), n);
    assert s.rows - Victims(s.rows, n) == Newest(s.rows, n);
  }

  ghost predicate IsRun(s: Replicas, run: seq<Step>, n: nat)
    decreases |run|
  {
    run == [] || (Enabled(s, run[0]) && IsRun(Apply(s, run[0], n), run[1..], n))
  }

  ghost function Exec(s: Replicas, run: seq<Step>, n: nat): Replicas
    requires IsRun(s, run, n)
    decreases |run|
  {
    if run == [] then s else Exec(Apply(s, run[0], n), run[1..], n)
  }

  /**
   * As long as nothing is discarded, replicas pruning without a leader, each
   * from a choice made at any earlier time, never delete one of the `n` newest
   * rows ever inserted: the table always keeps exactly them, whatever else it
   * still holds.
   */
  lemma {:induction false} StaleChoicesNeverOverDelete(s: Replicas, run: seq<Step>, n: nat)
    requires ChoicesAreOld(s, n) && IsRun(s, run, n) && Newest(s.rows, n) == Newest(s.inserted, n)
    requires forall step :: step in run ==> !step.Discard?
    ensures ChoicesAreOld(Exec(s, run, n), n)
    ensures Newest(Exec(s, run, n).rows, n) == Newest(Exec(s, run, n).inserted, n)
    decreases |run|
  {
    if run != [] {
      var t := Apply(s, run[0], n);
      assert run[0] in run && forall step :: step in run[1..] ==> step in run;
      ChoicesStayOld(s, run[0], n);
      if run[0].Insert? { InsertKeepsNewest(s.rows, s.inserted, run[0].row, n); }
      StaleChoicesNeverOverDelete(t, run[1..], n);
    }
  }

  /** The newest `n` of a table, and so of any larger one with the same newest `n`, after one more row. */
  lemma InsertKeepsNewest(rows: set<Row>, all: set<Row>, x: Row, n: nat)
    requires rows <= all && UniqueIds(all) && Newest(rows, n) == Newest(all, n) && forall q :: q in all ==> q.id != x.id
    ensures Newest(rows + {x}, n) == Newest(all + {x}, n)
  {
    var gone := all - rows;
    forall r | r in gone ensures |NewerThan(all, r)| >= n {
      assert r !in Newest(all, n);
    }
    OldAfterInsert(all, gone, x, n);
    OldDeletesAreHarmless(all + {x}, gone, n);
    assert all + {x} - gone == rows + {x};
  }

  // ---------------------------------------------------------------- discards and stale choices

  /** A stale delete removes a row that is now among the newest `n`. */
  ghost predicate OverDeletes(rows: set<Row>, seen: set<Row>, n: nat) {
    exists r :: r in Victims(seen, n) && r in Newest(rows, n)
  }

  /** The rows still there of those the prune meant to keep, and of those that came later and are newer than `r`. */
  ghost function StillAbove(rows: set<Row>, seen: set<Row>, n: nat, r: Row): set<Row> {
    Newest(seen, n) * rows + NewerThan(rows - seen, r)
  }

  /** Some victim is still there, with fewer than `n` rows still above it. */
  ghost predicate TooFewAbove(rows: set<Row>, seen: set<Row>, n: nat) {
    exists r :: r in Victims(seen, n) && r in rows && |StillAbove(rows, seen, n, r)| < n
  }

  lemma KeptAreNewer(seen: set<Row>, n: nat, q: Row, r: Row)
    requires UniqueIds(seen) && q in Newest(seen, n) && r in Victims(seen, n)
    ensures Newer(q, r)
  {
    RankOrder(seen, q, r);
  }

  lemma StillAboveIsNewer(rows: set<Row>, seen: set<Row>, n: nat, r: Row)
    requires UniqueIds(rows + seen) && r in Victims(seen, n) && r in rows
    ensures StillAbove(rows, seen, n, r) <= NewerThan(rows, r)
  {
    forall q | q in StillAbove(rows, seen, n, r) ensures q in NewerThan(rows, r) {
      if q in Newest(seen, n) { KeptAreNewer(seen, n, q, r); }
    }
  }

  /** The newest victim that is left has nothing above it but those rows. */
  lemma NothingElseAbove(rows: set<Row>, seen: set<Row>, n: nat, top: Row, r: Row)
    requires UniqueIds(rows + seen) && top in Victims(seen, n) * rows && r in Victims(seen, n) * rows
    requires forall q :: q in Victims(seen, n) * rows - {top} ==> Newer(top, q)
    ensures NewerThan(rows, top) <= StillAbove(rows, seen, n, r)
  {
    assert r == top || Newer(top, r);
    forall q | q in NewerThan(rows, top) ensures q in StillAbove(rows, seen, n, r) {
      if q in seen {
        assert q !in Victims(seen, n) * rows - {top};
      }
    }
  }

  /**
   * A stale delete removes a row that is now among the newest `n` exactly when,
   * above some victim that is still there, fewer than `n` rows are left of those
   * the prune meant to keep and those that came later.
   */
  lemma StaleDeleteOverDeletesExactlyWhen(rows: set<Row>, seen: set<Row>, n: nat)
    requires UniqueIds(rows + seen)
    ensures OverDeletes(rows, seen, n) <==> TooFewAbove(rows, seen, n)
  {
    if OverDeletes(rows, seen, n) {
      var r :| r in Victims(seen, n) && r in Newest(rows, n);
      StillAboveIsNewer(rows, seen, n, r);
      Smaller(StillAbove(rows, seen, n, r), NewerThan(rows, r));
    }
    if TooFewAbove(rows, seen, n) {
      var r :| r in Victims(seen, n) && r in rows && |StillAbove(rows, seen, n, r)| < n;
      var top := NewestRow(Victims(seen, n) * rows);
      NothingElseAbove(rows, seen, n, top, r);
      Smaller(NewerThan(rows, top), StillAbove(rows, seen, n, r));
      assert top in Newest(rows, n);
    }
  }

  lemma {:induction false} EveryRunIsSound(s: Replicas, run: seq<Step>, n: nat)
    requires Sound(s) && IsRun(s, run, n)
    ensures Sound(Exec(s, run, n))
    decreases |run|
  {
    if run != [] {
      SoundKept(s, run[0], n);
      EveryRunIsSound(Apply(s, run[0], n), run[1..], n);
    }
  }

  /** The same in every run of any number of replicas, whatever is discarded in between. */
  lemma StaleDeletesInEveryRun(run: seq<Step>, n: nat, i: nat)
    requires IsRun(Replicas({}, {}, map[]), run, n) && i in Exec(Replicas({}, {}, map[]), run, n).choices
    ensures var s := Exec(Replicas({}, {}, map[]), run, n);
            OverDeletes(s.rows, s.choices[i], n) <==> TooFewAbove(s.rows, s.choices[i], n)
  {
    EveryRunIsSound(Replicas({}, {}, map[]), run, n);
    var s := Exec(Replicas({}, {}, map[]), run, n);
    assert s.rows + s.choices[i] <= s.inserted;
    StaleDeleteOverDeletesExactlyWhen(s.rows, s.choices[i], n);
  }

  /** So it takes the loss of a row that the prune meant to keep. */
  lemma OverDeletingNeedsADiscard(rows: set<Row>, seen: set<Row>, n: nat)
    requires UniqueIds(rows + seen) && OverDeletes(rows, seen, n)
    ensures !(Newest(seen, n) <= rows)
  {
    StaleDeleteOverDeletesExactlyWhen(rows, seen, n);
    var r :| r in Victims(seen, n) && r in rows && |StillAbove(rows, seen, n, r)| < n;
    if Newest(seen, n) <= rows {
      NewestSize(seen, n);
      Smaller(NewerThan(seen, r), seen);
      Smaller(Newest(seen, n), StillAbove(rows, seen, n, r));
    }
  }

  const OLDER := Row(0, 10)
  const YOUNGER := Row(1, 20)

  lemma RunFrom(s: Replicas, step: Step, rest: seq<Step>, n: nat)
    requires Enabled(s, step) && IsRun(Apply(s, step, n), rest, n)
    ensures IsRun(s, [step] + rest, n) && Exec(s, [step] + rest, n) == Exec(Apply(s, step, n), rest, n)
  {
    assert ([step] + rest)[1..] == rest;
  }

  /** With a limit of one row: two rows, a choice, the newer row discarded, and the delete leaves nothing. */
  lemma DiscardsMatter()
    ensures var run := [Insert(OLDER), Insert(YOUNGER), Choose(0), Discard(YOUNGER), DeleteChosen(0)];
            var s := Replicas({}, {}, map[]);
            IsRun(s, run, 1) && Exec(s, run, 1).rows == {} && OLDER in Exec(s, run, 1).inserted
  {
    var both := {OLDER, YOUNGER};
    assert NewerThan(both, OLDER) == {YOUNGER} && NewerThan(both, YOUNGER) == {};
    assert Victims(both, 1) == {OLDER};
    var s0 := Replicas({}, {}, map[]);
    var s1 := Replicas({OLDER}, {OLDER}, map[]);
    var s2 := Replicas(both, both, map[]);
    var s3 := Replicas(both, both, map[0 := both]);
    var s4 := Replicas({OLDER}, both, map[0 := both]);
    assert Apply(s4, DeleteChosen(0), 1).rows == {};
    RunFrom(s4, DeleteChosen(0), [], 1);
    assert [DeleteChosen(0)] + [] == [DeleteChosen(0)];
    assert Apply(s3, Discard(YOUNGER), 1) == s4;
    RunFrom(s3, Discard(YOUNGER), [DeleteChosen(0)], 1);
    assert Apply(s2, Choose(0), 1) == s3;
    RunFrom(s2, Choose(0), [Discard(YOUNGER)] + [DeleteChosen(0)], 1);
    assert Apply(s1, Insert(YOUNGER), 1) == s2;
    RunFrom(s1, Insert(YOUNGER), [Choose(0)] + ([Discard(YOUNGER)] + [DeleteChosen(0)]), 1);
    assert Apply(s0, Insert(OLDER), 1) == s1;
    RunFrom(s0, Insert(OLDER), [Insert(YOUNGER)] + ([Choose(0)] + ([Discard(YOUNGER)] + [DeleteChosen(0)])), 1);
    assert [Insert(OLDER)] + ([Insert(YOUNGER)] + ([Choose(0)] + ([Discard(YOUNGER)] + [DeleteChosen(0)])))
        == [Insert(OLDER), Insert(YOUNGER), Choose(0), Discard(YOUNGER), DeleteChosen(0)];
  }
}
