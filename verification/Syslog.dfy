/**
 * The `SyslogForwarder` object of internal/audit/syslog.go: each method leads
 * from one state of `Forwarder` to another by the steps its contract names. The
 * outcome of a dial and the number of bytes a write takes are arguments.
 */
module Syslog {
  import opened Options
  import opened Sequences
  import opened Cef
  import opened Frames
  import opened Forwarder
  import Clock

  /** `run` leads from `s` to `t`. */
  ghost predicate Leads(s: State, run: seq<Step>, t: State) {
    IsRun(s, run) && Exec(s, run) == t
  }

  /** One more step at the end of a run. */
  lemma {:induction false} LeadsOn(s: State, run: seq<Step>, t: State, step: Step)
    requires Leads(s, run, t) && Enabled(t, step)
    ensures Leads(s, run + [step], Apply(t, step))
    decreases |run|
  {
    if run == [] {
      assert run + [step] == [step] && [step][1..] == [];
    } else {
      assert (run + [step])[0] == run[0] && (run + [step])[1..] == run[1..] + [step];
      LeadsOn(Apply(s, run[0]), run[1..], t, step);
    }
  }

  /** What a write returns: all the bytes went out, or an error after `n` of them. */
  datatype SendOutcome = All | Only(n: nat)

  function SendStep(sent: SendOutcome): Step {
    if sent == All then SendAll else SendSome(sent.n)
  }

  function ConnStep(conn: Option<Conn>, dialOk: bool): Step {
    if conn.Some? then Reuse else Dial(dialOk)
  }

  /** The steps of `write` (syslog.go:164-173). */
  function WriteSteps(conn: Option<Conn>, dialOk: bool, sent: SendOutcome): seq<Step> {
    [ConnStep(conn, dialOk)] + (if conn == None && !dialOk then [] else [SendStep(sent)])
  }

  predicate Writes(conn: Option<Conn>, dialOk: bool, sent: SendOutcome) {
    (conn.Some? || dialOk) && sent == All
  }

  /** The steps for one entry (syslog.go:147-151): the connection of a failed write is dropped. */
  function HandleSteps(conn: Option<Conn>, dialOk: bool, sent: SendOutcome): seq<Step> {
    [Take] + WriteSteps(conn, dialOk, sent) + (if Writes(conn, dialOk, sent) then [] else [Drop])
  }

  /** What happens before and during one turn of the writer's loop. */
  datatype Turn = Turn(arrivals: seq<Entry>, dialOk: bool, sent: SendOutcome)

  /** All that arrives, in order. */
  function Arrivals(turns: seq<Turn>): seq<Entry> {
    if turns == [] then [] else Arrivals(turns[..|turns| - 1]) + turns[|turns| - 1].arrivals
  }

  /** How many wait when `more` entries come to `waiting`. */
  function Fill(waiting: nat, more: nat): nat {
    if waiting >= 1024 then waiting else if waiting + more < 1024 then waiting + more else 1024
  }

  /** How many wait after some turns: each turn takes one, if there is one. */
  function Waiting(before: nat, turns: seq<Turn>): nat {
    if turns == [] then before
    else
      var filled := Fill(Waiting(before, turns[..|turns| - 1]), |turns[|turns| - 1].arrivals|);
      if filled == 0 then 0 else filled - 1
  }

  /** How many entries the writer is done with after some turns. */
  function Handled(before: nat, turns: seq<Turn>): nat {
    if turns == [] then 0
    else
      var filled := Fill(Waiting(before, turns[..|turns| - 1]), |turns[|turns| - 1].arrivals|);
      Handled(before, turns[..|turns| - 1]) + (if filled == 0 then 0 else 1)
  }

  /** From `offered`, `waiting` and `done`, the turns lead to `offeredNow`, `waitingNow` and `doneNow`. */
  predicate Served(offered: seq<Entry>, waiting: nat, done: nat, offeredNow: seq<Entry>, waitingNow: nat, doneNow: nat,
                   turns: seq<Turn>) {
    && offeredNow == offered + Arrivals(turns)
    && waitingNow == Waiting(waiting, turns)
    && doneNow == done + Handled(waiting, turns)
  }

  lemma ServedOn(offered: seq<Entry>, waiting: nat, done: nat, offeredNow: seq<Entry>, waitingNow: nat, doneNow: nat,
                 turns: seq<Turn>, turn: Turn)
    requires Served(offered, waiting, done, offeredNow, waitingNow, doneNow, turns)
    ensures var filled := Fill(waitingNow, |turn.arrivals|);
            Served(offered, waiting, done, offeredNow + turn.arrivals, if filled == 0 then 0 else filled - 1,
                   doneNow + (if filled == 0 then 0 else 1), turns + [turn])
  {
    assert (turns + [turn])[..|turns|] == turns;
    Regroup(offered, Arrivals(turns), turn.arrivals, []);
  }

  lemma OfferedGrows(offers: seq<Offer>, o: Offer)
    ensures Offered(offers + [o]) == Offered(offers) + [o.entry]
  {
    assert (offers + [o])[..|offers|] == offers;
  }

  /** A write cannot take more than there is. */
  function AtMost(sent: SendOutcome, size: nat): SendOutcome {
    if sent.Only? && sent.n > size then Only(size) else sent
  }

  class SyslogForwarder {
    const hostname: string
    const app: string
    const outputFormat: Format
    const version: string
    const line: Entry -> string
    var conn: Option<Conn>
    var ch: seq<Entry>
    var stopped: bool

    // The network: what each connection dialled so far has taken.
    var wire: seq<string>

    // The writer's program counter and the history.
    ghost var pc: Pc
    ghost var cancelled: bool
    ghost var closed: set<Conn>
    ghost var offers: seq<Offer>
    ghost var finished: seq<Finished>
    ghost var run: seq<Step>

    ghost function View(): State
      reads this
    {
      State(line, ch, pc, conn, cancelled, stopped, closed, wire, offers, finished)
    }

    /** The forwarder sends the frames of `Frames`. */
    ghost predicate Settings() {
      forall e :: line(e) == LineOf(e, outputFormat, version, hostname, app)
    }

    /** The forwarder is where `run` leads from a fresh one. */
    ghost predicate Valid()
      reads this
    {
      Settings() && Leads(Init(line), run, View())
    }

    /** Records a step from `before` whose effect on the fields has just been made. */
    ghost method Took(before: State, step: Step)
      requires Settings() && Leads(Init(line), run, before)
      requires Enabled(before, step) && View() == Apply(before, step)
      modifies this`run
      ensures Valid() && run == old(run) + [step]
    {
      LeadsOn(Init(line), run, before, step);
      run := run + [step];
    }

    constructor (hostname: string, app: string, outputFormat: Format, version: string)
      ensures Valid() && View() == Init(line) && run == []
      ensures this.outputFormat == outputFormat && this.version == version
      ensures this.hostname == OrElse(hostname, "mqconnector") && this.app == OrElse(app, "mqconnector")
    {
      var h, a := OrElse(hostname, "mqconnector"), OrElse(app, "mqconnector");
      this.hostname, this.app, this.outputFormat, this.version := h, a, outputFormat, version;
      line := e => LineOf(e, outputFormat, version, h, a);
      conn, ch, stopped := None, [], false;
      pc, cancelled, closed, wire, offers, finished, run := Selecting, false, {}, [], [], [], [];
    }

    /** syslog.go:111-118. */
    method OnInsert(e: Entry)
      requires Valid()
      modifies this`ch, this`offers, this`run
      ensures Valid() && View() == Apply(old(View()), Insert(e)) && run == old(run) + [Insert(e)]
      ensures ch == if |old(ch)| < 1024 then old(ch) + [e] else old(ch)
      ensures offers == old(offers) + [Offer(e, |old(ch)| < 1024)]
    {
      ghost var before := View();
      if |ch| < CAPACITY {
        ch := ch + [e];
        offers := offers + [Offer(e, true)];
      } else {
        offers := offers + [Offer(e, false)];
      }
      Took(before, Insert(e));
    }

    /** syslog.go:129-131; closing twice is avoided, so stopping again changes nothing. */
    method StopWriter()
      requires Valid()
      modifies this`stopped, this`run
      ensures Valid() && View() == Apply(old(View()), Stop) && run == old(run) + [Stop]
    {
      ghost var before := View();
      if !stopped {
        stopped := true;
      }
      Took(before, Stop);
    }

    /** The context given to `run` is cancelled. */
    method CancelWriter()
      requires Valid()
      modifies this`cancelled, this`run
      ensures Valid() && View() == Apply(old(View()), Cancel) && run == old(run) + [Cancel]
    {
      ghost var before := View();
      cancelled := true;
      Took(before, Cancel);
    }

    /** syslog.go:206-223. */
    method FormatFrame(e: Entry) returns (msg: string)
      requires Valid()
      ensures msg == line(e) + "\n"
    {
      var body;
      match outputFormat {
        case FormatCEF => body := Cef.FormatCEF(e, version);
        case FormatRFC5424 => body := e.json;
      }
      msg := FrameLine(e.at, hostname, app, body) + "\n";
    }

    /** syslog.go:175-191. */
    method EnsureConn(dialOk: bool) returns (ok: bool)
      requires Valid() && pc.Writing?
      modifies this`conn, this`wire, this`pc, this`finished, this`run
      ensures ok == (old(conn).Some? || dialOk)
      ensures ok ==> conn.Some? && conn.value < |wire| && pc == Sending(old(pc.entry), conn.value)
      ensures !ok ==> pc == Dropping
      ensures var step := ConnStep(old(conn), dialOk);
              Valid() && View() == Apply(old(View()), step) && run == old(run) + [step]
    {
      ghost var before := View();
      ok := true;
      if conn.Some? {
        pc := Sending(pc.entry, conn.value);
      } else if dialOk {
        conn := Option.Some(|wire|);
        pc, wire := Sending(pc.entry, |wire|), wire + [""];
      } else {
        finished, pc := finished + [Finished(pc.entry, Failed)], Dropping;
        ok := false;
      }
      Took(before, ConnStep(before.conn, dialOk));
      StartsWell(line);
      InvAlways(Init(line), run);
    }

    /** syslog.go:193-200. */
    method DropConn()
      requires Valid() && pc == Dropping
      modifies this`conn, this`closed, this`pc, this`run
      ensures Valid() && View() == Apply(old(View()), Drop) && run == old(run) + [Drop]
      ensures conn == None && pc == BackingOff
    {
      ghost var before := View();
      closed := closed + ConnSet(conn);
      if conn.Some? {
        conn := None;
      }
      pc := BackingOff;
      Took(before, Drop);
    }

    /** The call `c.Write` at syslog.go:171. */
    method ConnWrite(c: Conn, msg: string, sent: SendOutcome)
      requires Valid() && pc.Sending? && pc.conn == c < |wire| && msg == Frame(View(), pc.entry)
      requires sent.Only? ==> sent.n < |msg|
      modifies this`wire, this`pc, this`finished, this`run
      ensures var step := SendStep(sent);
              Valid() && View() == Apply(old(View()), step) && run == old(run) + [step]
    {
      ghost var before := View();
      match sent {
        case All =>
          wire := wire[c := wire[c] + msg];
          finished, pc := finished + [Finished(pc.entry, Sent(c))], Selecting;
        case Only(n) =>
          wire := wire[c := wire[c] + msg[..n]];
          finished, pc := finished + [Finished(pc.entry, Failed)], Dropping;
      }
      Took(before, SendStep(sent));
    }

    /** syslog.go:164-173. */
    method Write(e: Entry, dialOk: bool, sent: SendOutcome) returns (ok: bool)
      requires Valid() && pc == Writing(e) && (sent.Only? ==> sent.n <= |line(e)|)
      modifies this`conn, this`wire, this`pc, this`finished, this`run
      ensures Valid() && ok == Writes(old(conn), dialOk, sent)
      ensures run == old(run) + WriteSteps(old(conn), dialOk, sent)
      ensures ch == old(ch) && pc == (if ok then Selecting else Dropping) && |finished| == |old(finished)| + 1
    {
      ghost var before := run;
      var connected := EnsureConn(dialOk);
      if !connected {
        return false;
      }
      var msg := FormatFrame(e);
      Regroup(before, [run[|before|]], [SendStep(sent)], []);
      ConnWrite(conn.value, msg, sent);
      ok := sent == All;
    }

    /** The receive from the channel at syslog.go:147. */
    method Receive() returns (e: Entry)
      requires Valid() && pc == Selecting && ch != []
      modifies this`ch, this`pc, this`run
      ensures Valid() && e == old(ch)[0] && View() == Apply(old(View()), Take) && run == old(run) + [Take]
      ensures ch == old(ch)[1..] && pc == Writing(e)
    {
      ghost var before := View();
      e := ch[0];
      ch := ch[1..];
      pc := Writing(e);
      Took(before, Take);
    }

    /** syslog.go:147-151: one entry; after a failure the connection is dropped before anything else is sent. */
    method HandleOne(dialOk: bool, sent: SendOutcome) returns (ok: bool)
      requires Valid() && pc == Selecting && ch != [] && (sent.Only? ==> sent.n <= |line(ch[0])|)
      modifies this`ch, this`conn, this`wire, this`pc, this`finished, this`closed, this`run
      ensures Valid() && ch == old(ch)[1..] && |finished| == |old(finished)| + 1
      ensures run == old(run) + HandleSteps(old(conn), dialOk, sent)
      ensures ok == Writes(old(conn), dialOk, sent)
      ensures if ok then pc == Selecting else pc == BackingOff && conn == None
    {
      ghost var before, steps := run, WriteSteps(conn, dialOk, sent);
      var e := Receive();
      ok := Write(e, dialOk, sent);
      Regroup(before, [Take], steps, [Drop]);
      assert [Take] + steps + [] == [Take] + steps;
      if !ok {
        DropConn();
      }
    }

    /** The back-off timer fires (syslog.go:157). */
    method WakeUp()
      requires Valid() && pc == BackingOff
      modifies this`pc, this`run
      ensures Valid() && View() == Apply(old(View()), Wake) && run == old(run) + [Wake]
    {
      ghost var before := View();
      pc := Selecting;
      Took(before, Wake);
    }

    /** Some entries arrive while the writer is in its select. */
    method Arrive(arrivals: seq<Entry>)
      requires Valid()
      modifies this`ch, this`offers, this`run
      ensures Valid() && old(run) <= run && |ch| == Fill(|old(ch)|, |arrivals|)
      ensures Offered(offers) == old(Offered(offers)) + arrivals
    {
      ghost var offered, waiting := Offered(offers), |ch|;
      assert arrivals[..0] == [] && offered + [] == offered;
      for k := 0 to |arrivals|
        invariant Valid() && old(run) <= run && |ch| == Fill(waiting, k)
        invariant Offered(offers) == offered + arrivals[..k]
      {
        Regroup(offered, arrivals[..k], [arrivals[k]], []);
        OfferedGrows(offers, Offer(arrivals[k], |ch| < 1024));
        assert arrivals[..k + 1] == arrivals[..k] + [arrivals[k]];
        OnInsert(arrivals[k]);
      }
      assert arrivals[..|arrivals|] == arrivals;
    }

    /** One turn of the loop: some entries arrive, and then one is handled, if there is one. */
    method ServeTurn(turn: Turn)
      requires Valid() && pc == Selecting
      modifies this`ch, this`offers, this`conn, this`wire, this`pc, this`finished, this`closed, this`run
      ensures Valid() && pc == Selecting && old(run) <= run
      ensures Offered(offers) == old(Offered(offers)) + turn.arrivals
      ensures var filled := Fill(|old(ch)|, |turn.arrivals|);
              if filled == 0 then ch == [] && finished == old(finished)
              else |ch| == filled - 1 && |finished| == |old(finished)| + 1
    {
      Arrive(turn.arrivals);
      if ch != [] {
        HandleAndWake(turn.dialOk, AtMost(turn.sent, |line(ch[0])|));
      }
    }

    /**
     * The loop of `run` (syslog.go:141-161) while nothing stops it: before each
     * turn some entries arrive, and then one is handled, if there is one.
     */
    method Serve(turns: seq<Turn>)
      requires Valid() && pc == Selecting
      modifies this`ch, this`offers, this`conn, this`wire, this`pc, this`finished, this`closed, this`run
      ensures Valid() && pc == Selecting && old(run) <= run && Conserved(View())
      ensures Offered(offers) == old(Offered(offers)) + Arrivals(turns)
      ensures |ch| == Waiting(|old(ch)|, turns) && |finished| == |old(finished)| + Handled(|old(ch)|, turns)
    {
      ghost var offered, waiting, done := Offered(offers), |ch|, |finished|;
      for i := 0 to |turns|
        invariant Valid() && pc == Selecting && old(run) <= run
        invariant Served(offered, waiting, done, Offered(offers), |ch|, |finished|, turns[..i])
      {
        assert turns[..i + 1] == turns[..i] + [turns[i]];
        ServedOn(offered, waiting, done, Offered(offers), |ch|, |finished|, turns[..i], turns[i]);
        ServeTurn(turns[i]);
      }
      assert turns[..|turns|] == turns;
      Conservation(line, run);
    }

    /** One entry and, after a failure, the whole back-off (syslog.go:147-158). */
    method HandleAndWake(dialOk: bool, sent: SendOutcome)
      requires Valid() && pc == Selecting && ch != [] && (sent.Only? ==> sent.n <= |line(ch[0])|)
      modifies this`ch, this`conn, this`wire, this`pc, this`finished, this`closed, this`run
      ensures Valid() && pc == Selecting && ch == old(ch)[1..] && |finished| == |old(finished)| + 1
      ensures run == old(run) + HandleSteps(old(conn), dialOk, sent)
                     + (if Writes(old(conn), dialOk, sent) then [] else [Wake])
    {
      var ok := HandleOne(dialOk, sent);
      if !ok {
        WakeUp();
      }
    }

    /** The deferred close at syslog.go:134-140, when the writer leaves its loop. */
    method Finish()
      requires Valid() && (pc == Selecting || pc == BackingOff) && (cancelled || stopped)
      modifies this`closed, this`pc, this`run
      ensures Valid() && View() == Apply(old(View()), Return) && run == old(run) + [Return]
      ensures forall c: Conn :: !IsLive(View(), c)
    {
      ghost var before := View();
      closed := closed + ConnSet(conn);
      pc := Returned;
      Took(before, Return);
      StartsWell(line);
      InvAlways(Init(line), run);
    }
  }
}
