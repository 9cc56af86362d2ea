/**
 * The SIEM forwarder of internal/audit/syslog.go: producers that never block, a
 * bounded queue, and one writer goroutine with a reconnecting connection, as a
 * state machine whose runs are all the interleavings of the two sides.
 */
module Forwarder {
  import opened Options
  import opened Sequences
  import opened Cef
  import opened TextLines

  const CAPACITY := 1024

  /** Connections are numbered in the order they are dialled. */
  type Conn = nat

  datatype Result = Sent(conn: Conn) | Failed

  /** Where the writer goroutine is (syslog.go:141-161). */
  datatype Pc =
    | Selecting
    | Writing(entry: Entry)
    | Sending(entry: Entry, conn: Conn)
    | Dropping
    | BackingOff
    | Returned

  /** An entry handed to OnInsert, and whether the channel took it. */
  datatype Offer = Offer(entry: Entry, accepted: bool)

  /** An entry the writer is done with. */
  datatype Finished = Finished(entry: Entry, result: Result)

  /**
   * `line` is the frame of an entry without its newline, fixed by the
   * forwarder's settings; `closed` are the connections on which Close was called, `wire[c]` the bytes
   * connection `c` took; `offers` and `finished` are the history.
   */
  datatype State = State(
    line: Entry -> string,
    queue: seq<Entry>,
    pc: Pc,
    conn: Option<Conn>,
    cancelled: bool,
    stopped: bool,
    closed: set<Conn>,
    wire: seq<string>,
    offers: seq<Offer>,
    finished: seq<Finished>)

  datatype Step =
    | Insert(entry: Entry)
    | Cancel
    | Stop
    | Take
    | Dial(dialOk: bool)
    | Reuse
    | SendAll
    | SendSome(n: nat)
    | Drop
    | Wake
    | Return

  function Frame(s: State, e: Entry): string {
    s.line(e) + "\n"
  }

  predicate Enabled(s: State, step: Step) {
    match step
    case Insert(_) => true
    case Cancel => true
    case Stop => true
    case Take => s.pc == Selecting && s.queue != []
    case Dial(_) => s.pc.Writing? && s.conn == None
    case Reuse => s.pc.Writing? && s.conn.Some?
    case SendAll => s.pc.Sending? && s.pc.conn < |s.wire|
    case SendSome(n) => s.pc.Sending? && s.pc.conn < |s.wire| && n < |Frame(s, s.pc.entry)|
    case Drop => s.pc == Dropping
    case Wake => s.pc == BackingOff
    case Return => (s.pc == Selecting || s.pc == BackingOff) && (s.cancelled || s.stopped)
  }

  function Apply(s: State, step: Step): State
    requires Enabled(s, step)
  {
    match step
    case Insert(e) =>
      var accepted := |s.queue| < CAPACITY;
      s.(queue := if accepted then s.queue + [e] else s.queue, offers := s.offers + [Offer(e, accepted)])
    case Cancel => s.(cancelled := true)
    case Stop => s.(stopped := true)
    case Take => s.(queue := s.queue[1..], pc := Writing(s.queue[0]))
    case Dial(ok) =>
      if ok then s.(conn := Some(|s.wire|), wire := s.wire + [""], pc := Sending(s.pc.entry, |s.wire|))
      else s.(finished := s.finished + [Finished(s.pc.entry, Failed)], pc := Dropping)
    case Reuse => s.(pc := Sending(s.pc.entry, s.conn.value))
    case SendAll =>
      var c, e := s.pc.conn, s.pc.entry;
      s.(wire := s.wire[c := s.wire[c] + Frame(s, e)],
         finished := s.finished + [Finished(e, Sent(c))], pc := Selecting)
    case SendSome(n) =>
      var c, e := s.pc.conn, s.pc.entry;
      s.(wire := s.wire[c := s.wire[c] + Frame(s, e)[..n]],
         finished := s.finished + [Finished(e, Failed)], pc := Dropping)
    case Drop => s.(closed := s.closed + ConnSet(s.conn), conn := None, pc := BackingOff)
    case Wake => s.(pc := Selecting)
    case Return => s.(closed := s.closed + ConnSet(s.conn), pc := Returned)
  }

  function ConnSet(c: Option<Conn>): set<Conn> {
    if c.Some? then {c.value} else {}
  }

  function Init(line: Entry -> string): State {
    State(line, [], Selecting, None, false, false, {}, [], [], [])
  }

  predicate IsRun(s: State, run: seq<Step>)
    decreases |run|
  {
    run == [] || (Enabled(s, run[0]) && IsRun(Apply(s, run[0]), run[1..]))
  }

  function Exec(s: State, run: seq<Step>): State
    requires IsRun(s, run)
    decreases |run|
  {
    if run == [] then s else Exec(Apply(s, run[0]), run[1..])
  }

  // ---------------------------------------------------------------- the history

  function Accepted(offers: seq<Offer>): seq<Entry> {
    if offers == [] then []
    else
      var last := offers[|offers| - 1];
      Accepted(offers[..|offers| - 1]) + (if last.accepted then [last.entry] else [])
  }

  function Dropped(offers: seq<Offer>): seq<Entry> {
    if offers == [] then []
    else
      var last := offers[|offers| - 1];
      Dropped(offers[..|offers| - 1]) + (if last.accepted then [] else [last.entry])
  }

  function Offered(offers: seq<Offer>): seq<Entry> {
    if offers == [] then [] else Offered(offers[..|offers| - 1]) + [offers[|offers| - 1].entry]
  }

  function Entries(finished: seq<Finished>): seq<Entry> {
    if finished == [] then [] else Entries(finished[..|finished| - 1]) + [finished[|finished| - 1].entry]
  }

  /** The entries sent whole, in order. */
  function Written(finished: seq<Finished>): seq<Entry> {
    if finished == [] then []
    else
      var last := finished[|finished| - 1];
      Written(finished[..|finished| - 1]) + (if last.result.Sent? then [last.entry] else [])
  }

  function WriteFailed(finished: seq<Finished>): seq<Entry> {
    if finished == [] then []
    else
      var last := finished[|finished| - 1];
      WriteFailed(finished[..|finished| - 1]) + (if last.result.Sent? then [] else [last.entry])
  }

  /** The entry the writer holds. */
  function InFlight(pc: Pc): seq<Entry> {
    if pc.Writing? || pc.Sending? then [pc.entry] else []
  }

  /** Dialled and not closed. */
  predicate IsLive(s: State, c: Conn) {
    c < |s.wire| && c !in s.closed
  }

  // ---------------------------------------------------------------- invariants

  /** Accepted entries are finished, in flight or queued, in the order they came. */
  ghost predicate Accounted(s: State) {
    && |s.queue| <= CAPACITY
    && Accepted(s.offers) == Entries(s.finished) + InFlight(s.pc) + s.queue
  }

  /** The steps after which the writer is done with an entry. */
  predicate Finishes(step: Step) {
    step.SendAll? || step.SendSome? || step == Dial(false)
  }

  lemma OfferAccounted(s: State, e: Entry)
    requires Accounted(s)
    ensures Accounted(Apply(s, Insert(e)))
  {
    assert (s.offers + [Offer(e, |s.queue| < CAPACITY)])[..|s.offers|] == s.offers;
    Regroup(Entries(s.finished) + InFlight(s.pc), s.queue, [e], []);
  }

  lemma TakeAccounted(s: State)
    requires Accounted(s) && Enabled(s, Take)
    ensures Accounted(Apply(s, Take))
  {
    assert s.queue == [s.queue[0]] + s.queue[1..];
    Regroup(Entries(s.finished), [s.queue[0]], s.queue[1..], []);
  }

  lemma FinishAccounted(s: State, step: Step)
    requires Accounted(s) && Enabled(s, step) && Finishes(step)
    ensures Accounted(Apply(s, step))
  {
    var result := if step.SendAll? then Sent(s.pc.conn) else Failed;
    EntryAccounted(s, Apply(s, step), Finished(s.pc.entry, result));
  }

  lemma EntryAccounted(s: State, t: State, f: Finished)
    requires Accounted(s) && t.queue == s.queue && t.offers == s.offers && t.finished == s.finished + [f]
    requires InFlight(s.pc) == [f.entry] && InFlight(t.pc) == []
    ensures Accounted(t)
  {
    FinishedGrows(s.line, s.finished, f);
  }

  /** The connection the writer holds is the newest, and the only one not closed; none is open while it backs off. */
  ghost predicate OneConnection(s: State) {
    && (s.conn.Some? ==> s.conn.value == |s.wire| - 1)
    && (s.pc.Sending? ==> s.conn == Some(s.pc.conn))
    && (s.pc == BackingOff ==> s.conn == None)
    && (forall c :: c in s.closed ==> c < |s.wire|)
    && (forall c: Conn :: IsLive(s, c) <==> s.pc != Returned && s.conn == Some(c))
  }

  lemma OneConnectionKept(s: State, step: Step)
    requires OneConnection(s) && Enabled(s, step)
    ensures OneConnection(Apply(s, step))
  {
    var t := Apply(s, step);
    forall c: Conn ensures IsLive(t, c) <==> t.pc != Returned && t.conn == Some(c) {
      assert IsLive(s, c) <==> s.pc != Returned && s.conn == Some(c);
    }
  }

  // ---------------------------------------------------------------- the wire

  /** The lines sent whole on connection `c`, in order. */
  function SentOn(line: Entry -> string, finished: seq<Finished>, c: Conn): seq<string> {
    if finished == [] then []
    else
      var last := finished[|finished| - 1];
      SentOn(line, finished[..|finished| - 1], c) + (if last.result == Sent(c) then [line(last.entry)] else [])
  }

  function LinesOf(line: Entry -> string, entries: seq<Entry>): seq<string> {
    if entries == [] then [] else LinesOf(line, entries[..|entries| - 1]) + [line(entries[|entries| - 1])]
  }

  /** The lines sent on the first `k` connections, connection by connection. */
  function SentOnFirst(line: Entry -> string, finished: seq<Finished>, k: nat): seq<string> {
    if k == 0 then [] else SentOnFirst(line, finished, k - 1) + SentOn(line, finished, k - 1)
  }

  /** `r` is the beginning of a line that was not sent whole. */
  ghost predicate IsFragment(s: State, r: string) {
    exists e :: e in Entries(s.finished) && r <= s.line(e)
  }

  /** Connection `c` carries whole frames, and then at most one fragment, after which it is not used again. */
  ghost predicate WireOf(s: State, c: Conn)
    requires c < |s.wire|
  {
    var whole := Stream(SentOn(s.line, s.finished, c));
    && whole <= s.wire[c]
    && (whole == s.wire[c] ||
        (IsFragment(s, s.wire[c][|whole|..]) && (c in s.closed || (s.pc == Dropping && s.conn == Some(c)))))
  }

  ghost predicate Wires(s: State) {
    && (forall c :: 0 <= c < |s.wire| ==> WireOf(s, c))
    && (forall c :: c >= |s.wire| ==> SentOn(s.line, s.finished, c) == [])
    && SentOnFirst(s.line, s.finished, |s.wire|) == LinesOf(s.line, Written(s.finished))
  }

  lemma {:induction false} SentOnFirstUnchanged(line: Entry -> string, a: seq<Finished>, b: seq<Finished>, k: nat)
    requires forall c :: 0 <= c < k ==> SentOn(line, a, c) == SentOn(line, b, c)
    ensures SentOnFirst(line, a, k) == SentOnFirst(line, b, k)
    decreases k
  {
    if k > 0 { SentOnFirstUnchanged(line, a, b, k - 1); }
  }

  /** What one more finished entry does to the histories. */
  lemma FinishedGrows(line: Entry -> string, finished: seq<Finished>, f: Finished)
    ensures Entries(finished + [f]) == Entries(finished) + [f.entry]
    ensures Written(finished + [f]) == Written(finished) + (if f.result.Sent? then [f.entry] else [])
    ensures forall c :: SentOn(line, finished + [f], c) ==
                        SentOn(line, finished, c) + (if f.result == Sent(c) then [line(f.entry)] else [])
  {
    assert (finished + [f])[..|finished|] == finished;
  }

  /** A wire and its account that a step leaves alone. */
  lemma WireUnchanged(s: State, step: Step, c: Conn)
    requires Enabled(s, step) && c < |s.wire| && WireOf(s, c)
    requires var t := Apply(s, step);
             t.wire[c] == s.wire[c] && SentOn(t.line, t.finished, c) == SentOn(s.line, s.finished, c)
    requires OneConnection(s) && (s.pc == Dropping && s.conn == Some(c) ==> !step.SendAll? && !step.SendSome?)
    ensures WireOf(Apply(s, step), c)
  {
    var t := Apply(s, step);
    EntriesGrow(s, step);
    var whole := Stream(SentOn(s.line, s.finished, c));
    if whole != s.wire[c] {
      var e :| e in Entries(s.finished) && s.wire[c][|whole|..] <= s.line(e);
      assert e in Entries(t.finished);
    }
  }

  lemma EntriesGrow(s: State, step: Step)
    requires Enabled(s, step)
    ensures forall e :: e in Entries(s.finished) ==> e in Entries(Apply(s, step).finished)
  {
    var t := Apply(s, step);
    if step.SendAll? || step.SendSome? || step == Dial(false) {
      FinishedGrows(s.line, s.finished, t.finished[|s.finished|]);
    }
  }

  lemma NothingMoreSent(s: State, step: Step)
    requires Enabled(s, step) && !step.SendAll? && !step.SendSome?
    ensures Written(Apply(s, step).finished) == Written(s.finished)
    ensures forall c :: SentOn(s.line, Apply(s, step).finished, c) == SentOn(s.line, s.finished, c)
  {
    if step == Dial(false) {
      FinishedGrows(s.line, s.finished, Finished(s.pc.entry, Failed));
    }
  }

  lemma WiresUntouched(s: State, step: Step)
    requires OneConnection(s) && Wires(s) && Enabled(s, step) && !step.SendAll? && !step.SendSome? && step != Dial(true)
    ensures Wires(Apply(s, step))
  {
    var t := Apply(s, step);
    NothingMoreSent(s, step);
    forall c | 0 <= c < |t.wire| ensures WireOf(t, c) {
      assert WireOf(s, c);
      WireUnchanged(s, step, c);
    }
    SentOnFirstUnchanged(s.line, s.finished, t.finished, |s.wire|);
  }

  lemma WiresDialled(s: State)
    requires OneConnection(s) && Wires(s) && Enabled(s, Dial(true))
    ensures Wires(Apply(s, Dial(true)))
  {
    var t := Apply(s, Dial(true));
    forall c | 0 <= c < |t.wire| ensures WireOf(t, c) {
      if c < |s.wire| { assert WireOf(s, c) && t.wire[c] == s.wire[c]; }
    }
    assert SentOnFirst(s.line, s.finished, |s.wire|) + [] == SentOnFirst(s.line, s.finished, |s.wire|);
  }

  lemma WiresSent(s: State, step: Step)
    requires OneConnection(s) && Wires(s) && Enabled(s, step) && (step.SendAll? || step.SendSome?)
    ensures Wires(Apply(s, step))
  {
    var t, last := Apply(s, step), |s.wire| - 1;
    FinishedGrows(s.line, s.finished, t.finished[|s.finished|]);
    forall c | 0 <= c < |t.wire| ensures WireOf(t, c) {
      assert WireOf(s, c);
      if c == last {
        assert IsLive(s, last);
        LastWireGrows(s, step);
      } else {
        WireUnchanged(s, step, c);
      }
    }
    SentInOrder(s.line, s.finished, t.finished[|s.finished|], last);
  }

  lemma SentInOrder(line: Entry -> string, finished: seq<Finished>, f: Finished, last: Conn)
    requires f.result == Sent(last) || f.result == Failed
    requires SentOnFirst(line, finished, last + 1) == LinesOf(line, Written(finished))
    ensures SentOnFirst(line, finished + [f], last + 1) == LinesOf(line, Written(finished + [f]))
  {
    var more := if f.result.Sent? then [line(f.entry)] else [];
    FinishedGrows(line, finished, f);
    SentOnFirstUnchanged(line, finished, finished + [f], last);
    LinesGrow(line, Written(finished), f.entry);
    Regroup(SentOnFirst(line, finished, last), SentOn(line, finished, last), more, []);
  }

  lemma LinesGrow(line: Entry -> string, entries: seq<Entry>, e: Entry)
    ensures LinesOf(line, entries + [e]) == LinesOf(line, entries) + [line(e)]
    ensures LinesOf(line, entries + []) == LinesOf(line, entries) + []
  {
    assert (entries + [e])[..|entries|] == entries;
    assert entries + [] == entries;
  }

  lemma LastWireGrows(s: State, step: Step)
    requires OneConnection(s) && Enabled(s, step) && (step.SendAll? || step.SendSome?)
    requires WireOf(s, |s.wire| - 1) && IsLive(s, |s.wire| - 1)
    ensures WireOf(Apply(s, step), |s.wire| - 1)
  {
    var t, c, e := Apply(s, step), |s.wire| - 1, s.pc.entry;
    var lines := SentOn(s.line, s.finished, c);
    assert Stream(lines) == s.wire[c];
    FinishedGrows(s.line, s.finished, t.finished[|s.finished|]);
    if step.SendAll? {
      assert SentOn(t.line, t.finished, c) == lines + [s.line(e)];
      StreamGrows(lines, s.line(e));
      assert t.wire[c] == Stream(lines + [s.line(e)]);
    } else {
      assert SentOn(t.line, t.finished, c) == lines;
      assert t.wire[c][|Stream(lines)|..] == Frame(s, e)[..step.n] == s.line(e)[..step.n];
      assert e in Entries(t.finished) && s.line(e)[..step.n] <= t.line(e);
    }
  }

  // ---------------------------------------------------------------- every run

  ghost predicate Inv(s: State) {
    Accounted(s) && OneConnection(s) && Wires(s)
  }

  lemma InvKept(s: State, step: Step)
    requires Inv(s) && Enabled(s, step)
    ensures Inv(Apply(s, step))
  {
    if step.Insert? { OfferAccounted(s, step.entry); }
    else if step.Take? { TakeAccounted(s); }
    else if Finishes(step) { FinishAccounted(s, step); }
    OneConnectionKept(s, step);
    if step.SendAll? || step.SendSome? { WiresSent(s, step); }
    else if step == Dial(true) { WiresDialled(s); }
    else { WiresUntouched(s, step); }
  }

  lemma {:induction false} InvAlways(s: State, run: seq<Step>)
    requires Inv(s) && IsRun(s, run)
    ensures Inv(Exec(s, run))
    decreases |run|
  {
    if run != [] {
      InvKept(s, run[0]);
      InvAlways(Apply(s, run[0]), run[1..]);
    }
  }

  // ---------------------------------------------------------------- what the invariant means

  /** `a` can be got from `b` by leaving elements out. */
  predicate IsSubsequence<T(==)>(a: seq<T>, b: seq<T>) {
    if a == [] then true
    else if b == [] then false
    else if a[|a| - 1] == b[|b| - 1] && IsSubsequence(a[..|a| - 1], b[..|b| - 1]) then true
    else IsSubsequence(a, b[..|b| - 1])
  }

  lemma {:induction false} SubsequenceOfMore<T>(a: seq<T>, b: seq<T>, x: T)
    requires IsSubsequence(a, b)
    ensures IsSubsequence(a, b + [x]) && IsSubsequence(a + [x], b + [x])
  {
    assert (b + [x])[..|b|] == b && (a + [x])[..|a|] == a;
  }

  lemma {:induction false} SubsequencePrefix<T>(a: seq<T>, b: seq<T>, more: seq<T>)
    requires IsSubsequence(a, b)
    ensures IsSubsequence(a, b + more)
    decreases |more|
  {
    if more == [] {
      assert b + more == b;
    } else {
      var last := |more| - 1;
      SubsequencePrefix(a, b, more[..last]);
      SubsequenceOfMore(a, b + more[..last], more[last]);
      assert more == more[..last] + [more[last]];
      Regroup(b, more[..last], [more[last]], []);
    }
  }

  lemma {:induction false} SubsequenceTransitive<T>(a: seq<T>, b: seq<T>, c: seq<T>)
    requires IsSubsequence(a, b) && IsSubsequence(b, c)
    ensures IsSubsequence(a, c)
    decreases |c|
  {
    if a != [] {
      var a', b', c' := a[..|a| - 1], b[..|b| - 1], c[..|c| - 1];
      if b[|b| - 1] == c[|c| - 1] && IsSubsequence(b', c') {
        if a[|a| - 1] == b[|b| - 1] && IsSubsequence(a', b') {
          SubsequenceTransitive(a', b', c');
        } else {
          SubsequenceTransitive(a, b', c');
        }
      } else {
        SubsequenceTransitive(a, b, c');
      }
    }
  }

  lemma {:induction false} WrittenInOrder(finished: seq<Finished>)
    ensures IsSubsequence(Written(finished), Entries(finished))
    decreases |finished|
  {
    if finished != [] {
      var before, f := finished[..|finished| - 1], finished[|finished| - 1];
      WrittenInOrder(before);
      SubsequenceOfMore(Written(before), Entries(before), f.entry);
      assert Written(before) + [] == Written(before);
    }
  }

  lemma {:induction false} WrittenOrFailed(finished: seq<Finished>)
    ensures multiset(Entries(finished)) == multiset(Written(finished)) + multiset(WriteFailed(finished))
    decreases |finished|
  {
    if finished != [] {
      var before, f := finished[..|finished| - 1], finished[|finished| - 1];
      WrittenOrFailed(before);
      assert multiset(Entries(finished)) == multiset(Entries(before)) + multiset{f.entry};
      if f.result.Sent? {
        assert multiset(Written(finished)) == multiset(Written(before)) + multiset{f.entry};
        assert WriteFailed(finished) == WriteFailed(before);
      } else {
        assert multiset(WriteFailed(finished)) == multiset(WriteFailed(before)) + multiset{f.entry};
        assert Written(finished) == Written(before);
      }
    }
  }

  lemma {:induction false} AcceptedInOrder(offers: seq<Offer>)
    ensures IsSubsequence(Accepted(offers), Offered(offers))
    decreases |offers|
  {
    if offers != [] {
      var before, o := offers[..|offers| - 1], offers[|offers| - 1];
      AcceptedInOrder(before);
      SubsequenceOfMore(Accepted(before), Offered(before), o.entry);
      assert Accepted(before) + [] == Accepted(before);
    }
  }

  lemma {:induction false} AcceptedOrDropped(offers: seq<Offer>)
    ensures multiset(Offered(offers)) == multiset(Accepted(offers)) + multiset(Dropped(offers))
    decreases |offers|
  {
    if offers != [] {
      var before, o := offers[..|offers| - 1], offers[|offers| - 1];
      AcceptedOrDropped(before);
      assert multiset(Offered(offers)) == multiset(Offered(before)) + multiset{o.entry};
      if o.accepted {
        assert multiset(Accepted(offers)) == multiset(Accepted(before)) + multiset{o.entry};
        assert Dropped(offers) == Dropped(before);
      } else {
        assert multiset(Dropped(offers)) == multiset(Dropped(before)) + multiset{o.entry};
        assert Accepted(offers) == Accepted(before);
      }
    }
  }

  lemma StartsWell(line: Entry -> string)
    ensures Inv(Init(line))
  {
  }

  ghost predicate Conserved(s: State) {
    && multiset(Offered(s.offers)) ==
       multiset(Written(s.finished)) + multiset(WriteFailed(s.finished)) + multiset(Dropped(s.offers))
       + multiset(s.queue) + multiset(InFlight(s.pc))
    && |s.queue| <= CAPACITY
    && IsSubsequence(Written(s.finished), Offered(s.offers))
  }

  /**
   * Over every interleaving: each entry handed to OnInsert is in exactly one
   * of written, write-failed, dropped, queued or in flight, the queue stays
   * within its capacity, and the entries written are in insertion order.
   */
  lemma Conservation(line: Entry -> string, run: seq<Step>)
    requires IsRun(Init(line), run)
    ensures Conserved(Exec(Init(line), run))
  {
    StartsWell(line);
    InvAlways(Init(line), run);
    EverythingIsSomewhere(Exec(Init(line), run));
    WrittenAsInserted(Exec(Init(line), run));
  }

  // ---------------------------------------------------------------- when an entry is refused

  /** How many entries the writer has taken off the queue. */
  function Taken(run: seq<Step>): nat {
    if run == [] then 0 else Taken(run[1..]) + (if run[0] == Take then 1 else 0)
  }

  /** How many offers were accepted. */
  function Admitted(offers: seq<Offer>): nat {
    |Accepted(offers)|
  }

  lemma {:induction false} QueueIsAdmittedLessTaken(s: State, run: seq<Step>)
    requires IsRun(s, run)
    ensures |Exec(s, run).queue| + Taken(run) + Admitted(s.offers) == |s.queue| + Admitted(Exec(s, run).offers)
    decreases |run|
  {
    if run != [] {
      var t := Apply(s, run[0]);
      if run[0].Insert? { OfferGrows(s.offers, Offer(run[0].entry, |s.queue| < CAPACITY)); }
      QueueIsAdmittedLessTaken(t, run[1..]);
    }
  }

  lemma OfferGrows(offers: seq<Offer>, o: Offer)
    ensures Accepted(offers + [o]) == Accepted(offers) + (if o.accepted then [o.entry] else [])
    ensures Dropped(offers + [o]) == Dropped(offers) + (if o.accepted then [] else [o.entry])
  {
    assert (offers + [o])[..|offers|] == offers;
  }

  /**
   * Over every run an offer is refused exactly when 1024 of the entries accepted
   * before it have not been taken by the writer.
   */
  lemma RefusedExactlyWhenFull(line: Entry -> string, run: seq<Step>, e: Entry)
    requires IsRun(Init(line), run)
    ensures var s := Exec(Init(line), run);
            var waiting := Admitted(s.offers) - Taken(run);
            && Apply(s, Insert(e)).offers == s.offers + [Offer(e, waiting < 1024)]
            && 0 <= waiting <= 1024
  {
    QueueIsAdmittedLessTaken(Init(line), run);
    StartsWell(line);
    InvAlways(Init(line), run);
  }

  /** A run drops nothing exactly when none of its entries arrived at a full queue. */
  lemma {:induction false} NothingDroppedExactlyWhen(s: State, run: seq<Step>)
    requires IsRun(s, run)
    ensures Dropped(Exec(s, run).offers) == [] <==> Dropped(s.offers) == [] && NeverFull(s, run)
    decreases |run|
  {
    if run != [] {
      var t := Apply(s, run[0]);
      if run[0].Insert? { OfferGrows(s.offers, Offer(run[0].entry, |s.queue| < CAPACITY)); }
      NothingDroppedExactlyWhen(t, run[1..]);
    }
  }

  /** Whenever an entry is offered, fewer than 1024 are queued. */
  predicate NeverFull(s: State, run: seq<Step>)
    requires IsRun(s, run)
    decreases |run|
  {
    run == [] || ((run[0].Insert? ==> |s.queue| < 1024) && NeverFull(Apply(s, run[0]), run[1..]))
  }

  lemma EverythingIsSomewhere(s: State)
    requires Accounted(s)
    ensures multiset(Offered(s.offers)) ==
            multiset(Written(s.finished)) + multiset(WriteFailed(s.finished)) + multiset(Dropped(s.offers))
            + multiset(s.queue) + multiset(InFlight(s.pc))
  {
    WrittenOrFailed(s.finished);
    AcceptedOrDropped(s.offers);
    assert multiset(Accepted(s.offers)) == multiset(Entries(s.finished)) + multiset(InFlight(s.pc)) + multiset(s.queue);
  }

  lemma WrittenAsInserted(s: State)
    requires Accounted(s)
    ensures IsSubsequence(Written(s.finished), Offered(s.offers))
  {
    WrittenInOrder(s.finished);
    AcceptedInOrder(s.offers);
    SubsequencePrefix(Written(s.finished), Entries(s.finished), InFlight(s.pc));
    SubsequencePrefix(Written(s.finished), Entries(s.finished) + InFlight(s.pc), s.queue);
    SubsequenceTransitive(Written(s.finished), Accepted(s.offers), Offered(s.offers));
  }

  /** At most one connection is open at any time, none survives a failed write, and none survives the writer. */
  lemma ConnectionDiscipline(line: Entry -> string, run: seq<Step>)
    requires IsRun(Init(line), run)
    ensures var s := Exec(Init(line), run);
            && (forall c, d :: IsLive(s, c) && IsLive(s, d) ==> c == d)
            && (s.pc == BackingOff || s.pc == Returned ==> forall c: Conn :: !IsLive(s, c))
  {
    StartsWell(line);
    InvAlways(Init(line), run);
  }
}
