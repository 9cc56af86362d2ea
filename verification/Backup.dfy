/** Backup rotation (cmd/mqconnector/backup.go:64-65, 132-160). */
module Backup {
  import opened Options
  import opened Sorting
  import opened Clock
  import Decimal

  const PREFIX := "mqconnector-"
  const SUFFIX := ".db"

  /** The file that `backup --to-dir` writes at time `t`. */
  function SnapshotName(t: DateTime): string {
    PREFIX + (Stamp(t) + SUFFIX)
  }

  /** The names rotation looks at. */
  predicate IsSnapshotName(n: string) {
    PREFIX <= n && |n| >= |SUFFIX| && n[|n| - |SUFFIX|..] == SUFFIX
  }

  /** Snapshot names order as their times do. */
  lemma NameOrder(a: DateTime, b: DateTime)
    requires a.Valid() && b.Valid()
    ensures StringLess(SnapshotName(a), SnapshotName(b)) <==> Before(a, b)
    ensures IsSnapshotName(SnapshotName(a))
  {
    StampOrder(a, b);
    CommonSuffix(Stamp(a), Stamp(b), SUFFIX);
    CommonPrefix(PREFIX, Stamp(a) + SUFFIX, Stamp(b) + SUFFIX);
  }

  /**
   * The regular files of a directory that rotation may remove; `entries` maps
   * each name to whether it is a directory.
   */
  function Snapshots(entries: map<string, bool>): set<string> {
    set n | n in entries && !entries[n] && IsSnapshotName(n)
  }

  /** The snapshots in the order sort.Strings puts them. */
  ghost function SortedSnapshots(entries: map<string, bool>): (names: seq<string>)
    ensures IsOrdering(StringLeq, names, Snapshots(entries))
  {
    StringOrder();
    Ordered(StringLeq, Snapshots(entries))
  }

  lemma SortingGivesTheSnapshots(entries: map<string, bool>, names: seq<string>)
    requires Distinct(names) && forall n :: n in names <==> n in Snapshots(entries)
    ensures Sort(StringLeq, names) == SortedSnapshots(entries)
  {
    StringOrder();
    SortGivesTheOrdering(StringLeq, names, Snapshots(entries));
  }

  /** What rotation removes, in the order it removes it: all but the last `keep`. */
  ghost function Doomed(entries: map<string, bool>, keep: nat): seq<string> {
    var names := SortedSnapshots(entries);
    if |names| <= keep then [] else names[..|names| - keep]
  }

  function Names(names: seq<string>): set<string> {
    set n | n in names
  }

  class BackupDir {
    /** The directory: each name, and whether it is a directory itself. */
    var entries: map<string, bool>

    constructor (entries: map<string, bool>)
      ensures this.entries == entries
    {
      this.entries := entries;
    }

    method CollectNames() returns (names: seq<string>)
      ensures Distinct(names) && forall n :: n in names <==> n in Snapshots(entries)
    {
      names := [];
      var todo := entries.Keys;
      while todo != {}
        invariant todo <= entries.Keys && Distinct(names)
        invariant forall n :: n in names <==> n in Snapshots(entries) && n !in todo
        decreases |todo|
      {
        var n :| n in todo;
        todo := todo - {n};
        if !entries[n] && IsSnapshotName(n) {
          assert n !in names;
          names := names + [n];
        }
      }
    }

    method SortedNames() returns (names: seq<string>)
      ensures names == SortedSnapshots(entries)
    {
      names := CollectNames();
      SortingGivesTheSnapshots(entries, names);
      names := Sort(StringLeq, names);
    }

    /** Removes the files of `doomed` in turn until one cannot be removed. */
    method RemoveInTurn(doomed: seq<string>, failAt: Option<nat>) returns (removed: nat)
      modifies this
      ensures removed <= |doomed| && entries == old(entries) - Names(doomed[..removed])
      ensures removed == |doomed| <==> failAt.None? || failAt.value >= |doomed|
      ensures removed < |doomed| ==> failAt == Some(removed)
    {
      removed := 0;
      assert entries - Names(doomed[..0]) == entries;
      while removed < |doomed|
        invariant removed <= |doomed| && entries == old(entries) - Names(doomed[..removed])
        invariant failAt.Some? ==> failAt.value >= removed
      {
        if failAt == Some(removed) {
          return;
        }
        assert doomed[..removed + 1] == doomed[..removed] + [doomed[removed]];
        entries := entries - {doomed[removed]};
        removed := removed + 1;
      }
    }

    /** backup.go:135-160; `failAt` is the removal that fails, if one does, and `removed` counts those that worked. */
    method RotateBackups(keep: nat, readOk: bool, failAt: Option<nat>) returns (ok: bool, removed: nat)
      modifies this
      ensures !readOk ==> !ok && entries == old(entries)
      ensures readOk ==>
                && removed <= |Doomed(old(entries), keep)|
                && entries == old(entries) - Names(Doomed(old(entries), keep)[..removed])
                && (ok <==> removed == |Doomed(old(entries), keep)|)
                && (ok <==> failAt.None? || failAt.value >= |Doomed(old(entries), keep)|)
                && (!ok ==> failAt == Some(removed))
    {
      if !readOk {
        return false, 0;
      }
      var names := SortedNames();
      if |names| <= keep {
        assert entries - Names([]) == entries;
        return true, 0;
      }
      removed := RemoveInTurn(names[..|names| - keep], failAt);
      ok := removed == |names| - keep;
    }
  }

  // ---------------------------------------------------------------- what is left

  /** The matching names that sort after `n`. */
  ghost function SortAfter(entries: map<string, bool>, n: string): set<string> {
    set m | m in Snapshots(entries) && StringLess(n, m)
  }

  lemma SortsLater(entries: map<string, bool>, i: nat, j: nat)
    requires i < |SortedSnapshots(entries)| && j < |SortedSnapshots(entries)|
    ensures var names := SortedSnapshots(entries); names[j] in SortAfter(entries, names[i]) <==> j > i
  {
    var names := SortedSnapshots(entries);
    var a, b := names[i], names[j];
    assert b in names && b in Snapshots(entries);
    if j <= i {
      if StringLess(a, b) {
        if j < i { StringLessTransitive(a, b, a); }
        StringLessIrreflexive(a);
      }
    } else {
      assert StringLeq(a, b) && a != b;
    }
  }

  lemma HowManySortAfter(entries: map<string, bool>, i: nat)
    requires i < |SortedSnapshots(entries)|
    ensures |SortAfter(entries, SortedSnapshots(entries)[i])| == |SortedSnapshots(entries)| - 1 - i
  {
    var names := SortedSnapshots(entries);
    var later := SortAfter(entries, names[i]);
    forall m ensures m in names[i + 1..] <==> m in later {
      if m in names {
        var j :| 0 <= j < |names| && names[j] == m;
        SortsLater(entries, i, j);
        PlaceInPart(names, j, i + 1);
      }
    }
    OrderingSize(names[i + 1..], later);
  }

  /** An element of a list without repetition is in the first `k`, or in the rest, as its place is. */
  lemma PlaceInPart(names: seq<string>, i: nat, k: nat)
    requires Distinct(names) && i < |names| && k <= |names|
    ensures names[i] in names[..k] <==> i < k
    ensures names[i] in names[k..] <==> i >= k
  {
    if i < k {
      assert names[..k][i] == names[i];
    } else {
      assert names[k..][i - k] == names[i];
    }
  }

  /**
   * Whatever else the directory holds, a matching file survives a successful
   * rotation exactly when fewer than `keep` matching names sort after its own.
   */
  lemma SurvivesExactlyWhen(entries: map<string, bool>, keep: nat, n: string)
    requires n in Snapshots(entries)
    ensures n !in Doomed(entries, keep) <==> |SortAfter(entries, n)| < keep
  {
    var names := SortedSnapshots(entries);
    assert n in names;
    var i :| 0 <= i < |names| && names[i] == n;
    HowManySortAfter(entries, i);
    PlaceInPart(names, i, |Doomed(entries, keep)|);
  }

  /** However far rotation gets, it removes only matching files with at least `keep` matching names sorting after. */
  lemma RemovesOnlyEarlyNames(entries: map<string, bool>, keep: nat, removed: nat, n: string)
    requires removed <= |Doomed(entries, keep)|
    requires n in entries && n !in entries - Names(Doomed(entries, keep)[..removed])
    ensures n in Snapshots(entries) && |SortAfter(entries, n)| >= keep
  {
    var doomed := Doomed(entries, keep);
    assert n in doomed[..removed];
    assert n in doomed;
    assert n in SortedSnapshots(entries);
    SurvivesExactlyWhen(entries, keep, n);
  }

  /** Rotation leaves directories alone, and every name that does not have the form `mqconnector-*.db`. */
  lemma OtherNamesStay(entries: map<string, bool>, keep: nat, n: string)
    requires n in entries
    requires entries[n] || !("mqconnector-" <= n) || |n| < 3 || n[|n| - 3..] != ".db"
    ensures n !in Doomed(entries, keep)
  {
    assert n !in Snapshots(entries) && n !in SortedSnapshots(entries);
  }

  // ---------------------------------------------------------------- names with a time

  /** The matching names that no backup gives: a file put there by hand. */
  ghost predicate IsStray(n: string) {
    forall t: DateTime :: t.Valid() ==> n != SnapshotName(t)
  }

  /** `times` gives the time of every snapshot that is not a stray file, as its name does. */
  ghost predicate Dated(entries: map<string, bool>, times: map<string, DateTime>) {
    forall n :: n in Snapshots(entries) ==>
      if n in times then times[n].Valid() && n == SnapshotName(times[n]) else IsStray(n)
  }

  /** The snapshots taken after `n`. */
  ghost function Newer(entries: map<string, bool>, times: map<string, DateTime>, n: string): set<string>
    requires Dated(entries, times) && n in Snapshots(entries) && n in times
  {
    set m | m in Snapshots(entries) && m in times && Before(times[n], times[m])
  }

  /** The stray files whose names sort after `n`. */
  ghost function StraysAfter(entries: map<string, bool>, times: map<string, DateTime>, n: string): set<string> {
    set m | m in SortAfter(entries, n) && m !in times
  }

  lemma NewerOrStray(entries: map<string, bool>, times: map<string, DateTime>, n: string)
    requires Dated(entries, times) && n in Snapshots(entries) && n in times
    ensures |SortAfter(entries, n)| == |Newer(entries, times, n)| + |StraysAfter(entries, times, n)|
  {
    forall m | m in Snapshots(entries) && m in times
      ensures m in SortAfter(entries, n) <==> m in Newer(entries, times, n)
    {
      NameOrder(times[n], times[m]);
    }
    assert SortAfter(entries, n) == Newer(entries, times, n) + StraysAfter(entries, times, n);
  }

  /**
   * A successful rotation keeps a snapshot exactly when the newer snapshots and
   * the stray names that sort after it are together fewer than `keep`.
   */
  lemma KeepsTheNewest(entries: map<string, bool>, times: map<string, DateTime>, keep: nat, n: string)
    requires Dated(entries, times) && n in Snapshots(entries) && n in times
    ensures n !in Doomed(entries, keep) <==>
            |Newer(entries, times, n)| + |StraysAfter(entries, times, n)| < keep
  {
    SurvivesExactlyWhen(entries, keep, n);
    NewerOrStray(entries, times, n);
  }

  /**
   * However far rotation gets, it removes nothing but matching files, and with
   * no strays about never one of the newest `keep` snapshots.
   */
  lemma NeverRemovesTheNewest(entries: map<string, bool>, times: map<string, DateTime>, keep: nat, removed: nat,
                              n: string)
    requires Dated(entries, times) && removed <= |Doomed(entries, keep)|
    requires n in entries && n !in entries - Names(Doomed(entries, keep)[..removed])
    ensures n in Snapshots(entries)
    ensures n in times ==> |Newer(entries, times, n)| + |StraysAfter(entries, times, n)| >= keep
    ensures (forall m :: m in Snapshots(entries) ==> m in times) ==> |Newer(entries, times, n)| >= keep
  {
    RemovesOnlyEarlyNames(entries, keep, removed, n);
    if n in times {
      NewerOrStray(entries, times, n);
      if forall m :: m in Snapshots(entries) ==> m in times { assert StraysAfter(entries, times, n) == {}; }
    }
  }

  const STRAY := "mqconnector-z.db"

  /** A stray name after every stamp takes a place: with `keep` one, the only snapshot is removed. */
  lemma StraysMatter(t: DateTime)
    requires t.Valid()
    ensures Doomed(map[SnapshotName(t) := false, STRAY := false], 1) == [SnapshotName(t)]
  {
    var n, entries := SnapshotName(t), map[SnapshotName(t) := false, STRAY := false];
    StraySortsAfter(t);
    NameOrder(t, t);
    assert Snapshots(entries) == {n, STRAY};
    assert STRAY in SortAfter(entries, n);
    OrderingSize(SortedSnapshots(entries), Snapshots(entries));
    SurvivesExactlyWhen(entries, 1, n);
  }

  lemma StraySortsAfter(t: DateTime)
    requires t.Valid()
    ensures IsSnapshotName(STRAY) && StringLess(SnapshotName(t), STRAY) && SnapshotName(t) != STRAY
  {
    var rest := "z.db";
    assert STRAY == PREFIX + rest && STRAY[|STRAY| - |SUFFIX|..] == SUFFIX;
    CommonPrefix(PREFIX, Stamp(t) + SUFFIX, rest);
    assert Decimal.IsDigit(Stamp(t)[0]) by { assert Stamp(t)[0] == Pad(t.year, 4)[0]; }
    StringLessIrreflexive(STRAY);
  }

  /** After a successful rotation `keep` snapshots are left, or all if there were fewer. */
  lemma KeepsAsManyAsAsked(entries: map<string, bool>, keep: nat)
    ensures var left := Snapshots(entries - Names(Doomed(entries, keep)));
            |left| == if |Snapshots(entries)| < keep then |Snapshots(entries)| else keep
  {
    var names, doomed := SortedSnapshots(entries), Doomed(entries, keep);
    var kept := names[|doomed|..];
    OrderingSize(names, Snapshots(entries));
    var left := Snapshots(entries - Names(doomed));
    forall n ensures n in kept <==> n in left {
      if n in Snapshots(entries) {
        assert n in names;
        var j :| 0 <= j < |names| && names[j] == n;
        PlaceInPart(names, j, |doomed|);
        assert n in kept <==> j >= |doomed| by {
          if j >= |doomed| { assert kept[j - |doomed|] == n; }
        }
      }
    }
    OrderingSize(kept, left);
  }
}
