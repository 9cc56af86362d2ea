/** What a whole sweep does to the files, and exactly when it loses a row to a torn line. */
module ArchiveSweep {
  import opened Options
  import opened Sorting
  import opened Sequences
  import opened ArchiveMachine
  import opened ArchiveInvariants

  /** The lines of a day's file, none if there is no file. */
  function ItemsOf(files: map<Day, File>, d: Day): seq<Item> {
    if d in files then files[d].items else []
  }

  /** The rows of `rows` dated `d`, in order. */
  function OnDay(rows: seq<Row>, d: Day): seq<Row> {
    if rows == [] then []
    else
      var last := |rows| - 1;
      OnDay(rows[..last], d) + (if DayOf(rows[last].at) == d then [rows[last]] else [])
  }

  /** The lines that `rows` add to the file of day `d`, in order. */
  function LinesOn(rows: seq<Row>, d: Day): seq<Item> {
    if rows == [] then []
    else
      var last := |rows| - 1;
      LinesOn(rows[..last], d) + (if DayOf(rows[last].at) == d then [Rec(rows[last])] else [])
  }

  // ---------------------------------------------------------------- files before and after

  /** No file goes, and what is stable stays stable. */
  ghost predicate KeptOn(before: map<Day, File>, after: map<Day, File>, d: Day) {
    d in before ==> d in after && before[d].synced <= after[d].synced
  }

  ghost predicate StaysOn(before: map<Day, File>, after: map<Day, File>, d: Day) {
    KeptOn(before, after, d) && ItemsOf(after, d) == ItemsOf(before, d)
  }

  /** The file of `d` has become its object. */
  ghost predicate MovedOn(before: map<Day, File>, after: map<Day, File>, bucket: map<Day, seq<Item>>, d: Day) {
    d in before && d !in after && d in bucket && bucket[d] == before[d].items
  }

  /** A rotation left the file of `d` as it was, or `d` is the day `out` that was uploaded and pruned. */
  ghost predicate RotatedOn(before: map<Day, File>, after: map<Day, File>, bucket: map<Day, seq<Item>>,
                            out: Option<Day>, d: Day) {
    StaysOn(before, after, d) || (out == Some(d) && MovedOn(before, after, bucket, d))
  }

  /** As `RotatedOn`, and the file of the day of `r` has one line more. */
  ghost predicate AppendedOn(before: map<Day, File>, after: map<Day, File>, bucket: map<Day, seq<Item>>,
                             out: Option<Day>, r: Row, d: Day) {
    OneLineMore(before, after, r, d) || (out == Some(d) && d != DayOf(r.at) && MovedOn(before, after, bucket, d))
  }

  /** What is stable is part of the file. */
  ghost predicate SyncedWithin(files: map<Day, File>) {
    forall d :: d in files ==> files[d].synced <= |files[d].items|
  }

  lemma LayoutBounds(s: State)
    requires Layout(s)
    ensures SyncedWithin(s.files)
  {
    forall d | d in s.files ensures s.files[d].synced <= |s.files[d].items| { assert FileLayout(s, d); }
  }

  lemma OpenedAfter(before: map<Day, File>, mid: map<Day, File>, after: map<Day, File>, bucket: map<Day, seq<Item>>,
                    out: Option<Day>, day: Day)
    requires out != Some(day) && forall d :: RotatedOn(before, mid, bucket, out, d)
    requires after == if day in mid then mid else mid[day := File([], 0)]
    ensures forall d :: RotatedOn(before, after, bucket, out, d)
  {
    forall d ensures RotatedOn(before, after, bucket, out, d) {
      assert RotatedOn(before, mid, bucket, out, d);
    }
  }

  lemma AppendedAfter(before: map<Day, File>, mid: map<Day, File>, after: map<Day, File>, bucket: map<Day, seq<Item>>,
                      out: Option<Day>, r: Row)
    requires out != Some(DayOf(r.at)) && DayOf(r.at) in mid && forall d :: RotatedOn(before, mid, bucket, out, d)
    requires after == mid[DayOf(r.at) := Appended(mid[DayOf(r.at)], Rec(r))]
    ensures forall d :: AppendedOn(before, after, bucket, out, r, d)
  {
    forall d ensures AppendedOn(before, after, bucket, out, r, d) {
      assert RotatedOn(before, mid, bucket, out, d);
    }
  }

  ghost predicate OneLineMore(before: map<Day, File>, after: map<Day, File>, r: Row, d: Day) {
    && KeptOn(before, after, d)
    && ItemsOf(after, d) == ItemsOf(before, d) + (if DayOf(r.at) == d then [Rec(r)] else [])
  }

  /** The file of day `d` has gained its own rows of `rows`, in order, and nothing else. */
  ghost predicate GainedOn(before: map<Day, File>, after: map<Day, File>, rows: seq<Row>, d: Day) {
    KeptOn(before, after, d) && ItemsOf(after, d) == ItemsOf(before, d) + LinesOn(rows, d)
  }

  ghost predicate Gained(before: map<Day, File>, after: map<Day, File>, rows: seq<Row>) {
    forall d :: GainedOn(before, after, rows, d)
  }

  /** All of the file of `d` is stable. */
  ghost predicate IsSettled(files: map<Day, File>, d: Day) {
    d in files && files[d].synced == |files[d].items|
  }

  /** Every file that `rows` went to is stable, but for the open one. */
  ghost predicate Settled(files: map<Day, File>, open: Option<Day>, rows: seq<Row>) {
    forall d :: SettledOn(files, open, rows, d)
  }

  ghost predicate SettledOn(files: map<Day, File>, open: Option<Day>, rows: seq<Row>, d: Day) {
    LinesOn(rows, d) != [] ==> open == Some(d) || IsSettled(files, d)
  }

  /** The files have gained the lines of `rows`, and are stable but for the open one if every rotation synced. */
  ghost predicate Swept(before: map<Day, File>, after: map<Day, File>, open: Option<Day>, rows: seq<Row>,
                        synced: bool) {
    Gained(before, after, rows) && (synced ==> Settled(after, open, rows))
  }

  lemma NothingSwept(files: map<Day, File>, open: Option<Day>)
    ensures Swept(files, files, open, [], true)
  {
    forall d ensures GainedOn(files, files, [], d) {}
    forall d ensures SettledOn(files, open, [], d) {}
  }

  function WithSynced(files: map<Day, File>, open: Option<Day>): map<Day, File> {
    if open.Some? && open.value in files then files[open.value := Synced(files[open.value])] else files
  }

  lemma GainOne(start: map<Day, File>, before: map<Day, File>, after: map<Day, File>, bucket: map<Day, seq<Item>>,
                out: Option<Day>, order: seq<Row>, i: nat)
    requires out == None && i < |order| && Gained(start, before, order[..i])
    requires forall d :: AppendedOn(before, after, bucket, out, order[i], d)
    ensures Gained(start, after, order[..i + 1])
  {
    var upTo := order[..i + 1];
    assert upTo[..i] == order[..i];
    forall d ensures GainedOn(start, after, upTo, d) {
      assert GainedOn(start, before, order[..i], d) && AppendedOn(before, after, bucket, out, order[i], d);
    }
  }

  lemma SettleOne(before: map<Day, File>, open: Option<Day>, after: map<Day, File>, bucket: map<Day, seq<Item>>,
                  out: Option<Day>, order: seq<Row>, i: nat)
    requires out == None && i < |order| && Settled(before, open, order[..i])
    requires SyncedWithin(after) && forall d :: AppendedOn(before, after, bucket, out, order[i], d)
    requires forall d :: open == Some(d) && d != DayOf(order[i].at) ==> IsSettled(after, d)
    ensures Settled(after, Some(DayOf(order[i].at)), order[..i + 1])
  {
    var upTo := order[..i + 1];
    assert upTo[..i] == order[..i];
    forall d ensures SettledOn(after, Some(DayOf(order[i].at)), upTo, d) {
      assert SettledOn(before, open, order[..i], d) && AppendedOn(before, after, bucket, out, order[i], d);
    }
  }

  lemma OneMoreSwept(start: map<Day, File>, before: map<Day, File>, open: Option<Day>, after: map<Day, File>,
                     bucket: map<Day, seq<Item>>, out: Option<Day>, order: seq<Row>, i: nat, synced: bool)
    requires i < |order| && Swept(start, before, open, order[..i], synced) && out == None && SyncedWithin(after)
    requires forall d :: AppendedOn(before, after, bucket, out, order[i], d)
    requires synced ==> forall d :: open == Some(d) && d != DayOf(order[i].at) ==> IsSettled(after, d)
    ensures Swept(start, after, Some(DayOf(order[i].at)), order[..i + 1], synced)
  {
    GainOne(start, before, after, bucket, out, order, i);
    if synced { SettleOne(before, open, after, bucket, out, order, i); }
  }

  lemma SweepEnds(start: map<Day, File>, streamed: map<Day, File>, open: Option<Day>, after: map<Day, File>,
                  order: seq<Row>, synced: bool)
    requires Swept(start, streamed, open, order, synced) && after == WithSynced(streamed, open)
    requires open.Some? ==> open.value in streamed
    requires SyncedWithin(streamed)
    ensures Swept(start, after, None, order, synced)
  {
    forall d ensures GainedOn(start, after, order, d) {
      assert GainedOn(start, streamed, order, d);
    }
    if synced {
      forall d ensures SettledOn(after, None, order, d) {
        assert SettledOn(streamed, open, order, d);
      }
    }
  }

  lemma RowsGrow(order: seq<Row>, i: nat)
    requires i < |order|
    ensures order[i..][1..] == order[i + 1..] && order[i..][0] == order[i]
    ensures Rows(order[..i + 1]) == Rows(order[..i]) + {order[i]}
  {
    assert order[..i + 1] == order[..i] + [order[i]];
  }

  // ---------------------------------------------------------------- lines that can be read back

  function Recs(rows: seq<Row>): seq<Item> {
    if rows == [] then [] else [Rec(rows[0])] + Recs(rows[1..])
  }

  lemma {:induction false} RecsGrow(rows: seq<Row>, r: Row)
    ensures Recs(rows + [r]) == Recs(rows) + [Rec(r)]
    decreases |rows|
  {
    if rows == [] {
      assert [r][1..] == [] && [] + [r] == [r];
    } else {
      assert (rows + [r])[1..] == rows[1..] + [r];
      RecsGrow(rows[1..], r);
    }
  }

  lemma {:induction false} LinesOnIsOnDay(rows: seq<Row>, d: Day)
    ensures LinesOn(rows, d) == Recs(OnDay(rows, d))
    decreases |rows|
  {
    if rows != [] {
      var last := |rows| - 1;
      LinesOnIsOnDay(rows[..last], d);
      RecsGrow(OnDay(rows[..last], d), rows[last]);
      assert OnDay(rows[..last], d) + [] == OnDay(rows[..last], d);
    }
  }

  lemma {:induction false} OnDayIsDistinct(rows: seq<Row>, d: Day)
    requires Distinct(rows)
    ensures Distinct(OnDay(rows, d))
    ensures forall r :: r in OnDay(rows, d) <==> r in rows && DayOf(r.at) == d
    decreases |rows|
  {
    if rows != [] {
      var last := |rows| - 1;
      OnDayIsDistinct(rows[..last], d);
      assert rows == rows[..last] + [rows[last]];
    }
  }

  lemma {:induction false} AppendedRowsAreReadable(items: seq<Item>, rows: seq<Row>, r: Row)
    requires Distinct(rows)
    ensures Readable(items + Recs(rows), r) <==>
            Readable(items, r) || (r in rows && !(EndsInFragment(items) && r == rows[0]))
    decreases |rows|
  {
    if rows == [] {
      assert items + Recs(rows) == items;
    } else {
      var first := items + [Rec(rows[0])];
      assert items + Recs(rows) == first + Recs(rows[1..]);
      AppendedRowsAreReadable(first, rows[1..], r);
      if r == rows[0] {
        AppendedIsReadable(items, r);
      } else {
        OthersUnchanged(items, Rec(rows[0]), r);
        assert r in rows <==> r in rows[1..];
      }
    }
  }

  lemma OthersUnchanged(items: seq<Item>, x: Item, r: Row)
    requires x != Rec(r)
    ensures Readable(items + [x], r) <==> Readable(items, r)
  {
    var b := items + [x];
    if Readable(items, r) { ReadableGrows(items, b, r); }
    if Readable(b, r) {
      var i :| 0 <= i < |b| && b[i] == Rec(r) && (i == 0 || b[i - 1] != Frag);
      assert items[i] == Rec(r) && (i > 0 ==> items[i - 1] == b[i - 1]);
    }
  }

  // ---------------------------------------------------------------- torn lines, exactly

  /** What can be read back once `rows` have been appended to `items`. */
  ghost predicate ReadableAfter(items: seq<Item>, rows: seq<Row>, r: Row) {
    Readable(items, r) || (r in rows && !(EndsInFragment(items) && r == rows[0]))
  }

  /** For a file that ends in a torn line, the first row to be appended can be read back from it already. */
  ghost predicate TornDayIsCovered(files: map<Day, File>, order: seq<Row>, d: Day) {
    EndsInFragment(ItemsOf(files, d)) && OnDay(order, d) != [] ==> Readable(ItemsOf(files, d), OnDay(order, d)[0])
  }

  ghost predicate TornDaysAreCovered(files: map<Day, File>, order: seq<Row>) {
    forall d :: TornDayIsCovered(files, order, d)
  }

  /** A row of the sweep can be read back afterwards exactly when its line did not follow a torn one. */
  lemma SweptRowReads(s: State, t: State, order: seq<Row>, r: Row)
    requires Distinct(order) && r in order && Gained(s.files, t.files, order) && Settled(t.files, None, order)
    ensures OnDisk(t, r) <==> ReadableAfter(ItemsOf(s.files, DayOf(r.at)), OnDay(order, DayOf(r.at)), r)
  {
    var d := DayOf(r.at);
    OnDayIsDistinct(order, d);
    assert r in OnDay(order, d);
    LinesOnIsOnDay(order, d);
    AppendedRowsAreReadable(ItemsOf(s.files, d), OnDay(order, d), r);
    assert GainedOn(s.files, t.files, order, d) && SettledOn(t.files, None, order, d);
    assert LinesOn(order, d) != [];
    assert Durable(t.files[d]) == t.files[d].items;
  }

  /** What was on disk before the sweep still is. */
  lemma OldRowReads(s: State, t: State, order: seq<Row>, r: Row)
    requires Gained(s.files, t.files, order) && Layout(t) && OnDisk(s, r)
    ensures OnDisk(t, r)
  {
    var d := DayOf(r.at);
    assert GainedOn(s.files, t.files, order, d) && FileLayout(t, d);
    ReadableGrows(Durable(s.files[d]), Durable(t.files[d]), r);
  }

  lemma PrefixesAreOnDisk(s: State, r: Row)
    requires UploadsArePrefixes(s) && Archived(s, r)
    ensures OnDisk(s, r)
  {
    var d := DayOf(r.at);
    if InBucket(s, r) {
      assert PrefixOn(s, d);
      ReadableGrows(s.bucket[d], Durable(s.files[d]), r);
    }
  }

  /**
   * A sweep that wrote `order`, synced what it wrote and deleted what was due
   * loses nothing exactly when, for every day whose file ended in a torn line,
   * the first row it wrote there could be read back from that file before.
   */
  lemma CleanSweepLosesNothingExactlyWhen(s: State, t: State, cutoff: Time, order: seq<Row>)
    requires NothingLost(s) && UploadsArePrefixes(s) && UploadsArePrefixes(t) && Layout(t) && s.inserted == t.inserted
    requires s.table <= s.inserted && t.table == s.table - Due(s.table, cutoff)
    requires Distinct(order) && Rows(order) == Due(s.table, cutoff)
    requires Gained(s.files, t.files, order) && Settled(t.files, None, order)
    ensures NothingLost(t) <==> TornDaysAreCovered(s.files, order)
  {
    if NothingLost(t) {
      forall d ensures TornDayIsCovered(s.files, order, d) {
        if EndsInFragment(ItemsOf(s.files, d)) && OnDay(order, d) != [] {
          OnDayIsDistinct(order, d);
          var r := OnDay(order, d)[0];
          assert r in order && r in Rows(order);
          PrefixesAreOnDisk(t, r);
          SweptRowReads(s, t, order, r);
        }
      }
    }
    if TornDaysAreCovered(s.files, order) {
      forall r | r in t.inserted && r !in t.table ensures OnDisk(t, r) {
        if r in s.table {
          assert r in Rows(order);
          OnDayIsDistinct(order, DayOf(r.at));
          assert TornDayIsCovered(s.files, order, DayOf(r.at));
          SweptRowReads(s, t, order, r);
        } else {
          PrefixesAreOnDisk(s, r);
          OldRowReads(s, t, order, r);
        }
      }
    }
  }

  // ---------------------------------------------------------------- what is uploaded

  /** `items` ends with the lines of `rows`, after what the file of `d` held at the start or after nothing. */
  ghost predicate Holds(start: map<Day, File>, items: seq<Item>, rows: seq<Row>, d: Day) {
    items == ItemsOf(start, d) + LinesOn(rows, d) || items == LinesOn(rows, d)
  }

  /** The rows of day `d` are in its object, or still in its file while that is open. */
  ghost predicate HeldOn(start: map<Day, File>, files: map<Day, File>, bucket: map<Day, seq<Item>>, open: Option<Day>,
                         rows: seq<Row>, d: Day) {
    if LinesOn(rows, d) == [] || open == Some(d) then Holds(start, ItemsOf(files, d), rows, d)
    else d in bucket && Holds(start, bucket[d], rows, d)
  }

  ghost predicate Held(start: map<Day, File>, files: map<Day, File>, bucket: map<Day, seq<Item>>, open: Option<Day>,
                       rows: seq<Row>) {
    && (rows != [] ==> open == Some(DayOf(rows[|rows| - 1].at)))
    && forall d :: HeldOn(start, files, bucket, open, rows, d)
  }

  lemma NothingHeld(files: map<Day, File>, bucket: map<Day, seq<Item>>, open: Option<Day>)
    ensures Held(files, files, bucket, open, [])
  {
    forall d ensures HeldOn(files, files, bucket, open, [], d) {}
  }

  /** The objects once the file of `out`, if any, has been uploaded. */
  function WithUploaded(files: map<Day, File>, bucket: map<Day, seq<Item>>, out: Option<Day>): map<Day, seq<Item>> {
    if out.Some? && ItemsOf(files, out.value) != [] then bucket[out.value := ItemsOf(files, out.value)] else bucket
  }

  /** Rows in order, the youngest of which is older than day `d`, add nothing to it. */
  lemma {:induction false} NoneOnLaterDay(rows: seq<Row>, d: Day)
    requires InOrder(rows) && (rows != [] ==> DayOf(rows[|rows| - 1].at) < d)
    ensures LinesOn(rows, d) == []
    decreases |rows|
  {
    if rows != [] {
      var last := |rows| - 1;
      assert |rows[..last]| > 0 ==> rows[..last][last - 1].at <= rows[last].at;
      NoneOnLaterDay(rows[..last], d);
    }
  }

  /** The file of the row's own day: its earlier rows, if any, are still in it. */
  lemma RowIsHeld(start: map<Day, File>, before: map<Day, File>, after: map<Day, File>, rows: seq<Row>, r: Row)
    requires var d := DayOf(r.at);
             Holds(start, ItemsOf(before, d), rows, d) && ItemsOf(after, d) == ItemsOf(before, d) + [Rec(r)]
    ensures Holds(start, ItemsOf(after, DayOf(r.at)), rows + [r], DayOf(r.at))
  {
    var d := DayOf(r.at);
    assert (rows + [r])[..|rows|] == rows;
    Regroup(ItemsOf(start, d), LinesOn(rows, d), [Rec(r)], []);
  }

  lemma OtherDaysGainNothing(rows: seq<Row>, r: Row, d: Day)
    requires DayOf(r.at) != d
    ensures LinesOn(rows + [r], d) == LinesOn(rows, d)
  {
    assert (rows + [r])[..|rows|] == rows;
  }

  /** Another day: if its file was the open one, it has been uploaded, and is there or gone. */
  lemma OtherDayIsHeld(start: map<Day, File>, before: map<Day, File>, bucket: map<Day, seq<Item>>, open: Option<Day>,
                       after: map<Day, File>, uploaded: map<Day, seq<Item>>, out: Option<Day>, rows: seq<Row>, r: Row,
                       d: Day)
    requires d != DayOf(r.at) && HeldOn(start, before, bucket, open, rows, d) && (out.Some? ==> out == open)
    requires uploaded == WithUploaded(before, bucket, if open == Some(DayOf(r.at)) then None else open)
    requires AppendedOn(before, after, uploaded, out, r, d)
    ensures HeldOn(start, after, uploaded, Some(DayOf(r.at)), rows + [r], d)
  {
    OtherDaysGainNothing(rows, r, d);
    if LinesOn(rows, d) == [] {
      if ItemsOf(after, d) != ItemsOf(before, d) { assert d !in after; }
    } else if open == Some(d) {
      assert uploaded[d] == ItemsOf(before, d);
    } else {
      assert uploaded[d] == bucket[d];
    }
  }

  /** One more row of a sweep in order: what the rotation takes away, it has uploaded. */
  lemma OneMoreHeld(start: map<Day, File>, before: map<Day, File>, bucket: map<Day, seq<Item>>, open: Option<Day>,
                    after: map<Day, File>, uploaded: map<Day, seq<Item>>, out: Option<Day>, order: seq<Row>, i: nat)
    requires i < |order| && InOrder(order) && Held(start, before, bucket, open, order[..i])
    requires out.Some? ==> out == open
    requires uploaded == WithUploaded(before, bucket, if open == Some(DayOf(order[i].at)) then None else open)
    requires forall d :: AppendedOn(before, after, uploaded, out, order[i], d)
    ensures Held(start, after, uploaded, Some(DayOf(order[i].at)), order[..i + 1])
  {
    var r, rows := order[i], order[..i];
    var day := DayOf(r.at);
    assert order[..i + 1] == rows + [r];
    forall d ensures HeldOn(start, after, uploaded, Some(day), rows + [r], d) {
      assert HeldOn(start, before, bucket, open, rows, d);
      assert AppendedOn(before, after, uploaded, out, r, d);
      if d != day {
        OtherDayIsHeld(start, before, bucket, open, after, uploaded, out, rows, r, d);
      } else {
        if open != Some(day) {
          if i > 0 { assert order[i - 1].at <= order[i].at; }
          NoneOnLaterDay(rows, day);
        }
        RowIsHeld(start, before, after, rows, r);
      }
    }
  }

  /**
   * The day of `r` has an object that ends with all of the day's rows, and `r`
   * can be read from it, unless its line follows one that was torn before the sweep.
   */
  ghost predicate IsUploaded(start: map<Day, File>, bucket: map<Day, seq<Item>>, order: seq<Row>, r: Row) {
    var d := DayOf(r.at);
    && d in bucket
    && Holds(start, bucket[d], order, d)
    && (Readable(bucket[d], r) <==>
        bucket[d] == LinesOn(order, d) || ReadableAfter(ItemsOf(start, d), OnDay(order, d), r))
  }

  /** Every due day but the last has been uploaded. */
  ghost predicate EarlierDaysAreUploaded(start: map<Day, File>, bucket: map<Day, seq<Item>>, order: seq<Row>) {
    forall r :: r in order && DayOf(r.at) != DayOf(order[|order| - 1].at) ==> IsUploaded(start, bucket, order, r)
  }

  lemma HeldIsUploaded(start: map<Day, File>, files: map<Day, File>, bucket: map<Day, seq<Item>>, open: Option<Day>,
                       order: seq<Row>)
    requires Distinct(order) && Held(start, files, bucket, open, order)
    ensures EarlierDaysAreUploaded(start, bucket, order)
  {
    forall r | r in order && DayOf(r.at) != DayOf(order[|order| - 1].at) ensures IsUploaded(start, bucket, order, r) {
      var d := DayOf(r.at);
      assert HeldOn(start, files, bucket, open, order, d);
      OnDayIsDistinct(order, d);
      LinesOnIsOnDay(order, d);
      assert r in OnDay(order, d);
      assert LinesOn(order, d) != [];
      AppendedRowsAreReadable(ItemsOf(start, d), OnDay(order, d), r);
      AppendedRowsAreReadable([], OnDay(order, d), r);
      assert [] + LinesOn(order, d) == LinesOn(order, d);
    }
  }
}
