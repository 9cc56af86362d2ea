/** What the SIEM at the other end of the forwarder's connections reads. */
module Receiver {
  import opened Options
  import opened Cef
  import opened CefReader
  import opened Frames
  import Clock
  import opened TextLines
  import opened Forwarder

  /** The complete lines that the connections accepted, one after the other. */
  function Received(wire: seq<string>): seq<string> {
    if wire == [] then [] else Received(wire[..|wire| - 1]) + Lines(wire[|wire| - 1]).0
  }

  lemma {:induction false} EntriesAreOffered(s: State)
    requires Accounted(s)
    ensures forall e :: e in Entries(s.finished) ==> e in Offered(s.offers)
  {
    AcceptedOrDropped(s.offers);
    forall e | e in Entries(s.finished) ensures e in Offered(s.offers) {
      assert e in Accepted(s.offers);
      assert e in multiset(Accepted(s.offers));
      assert e in multiset(Offered(s.offers));
    }
  }

  lemma {:induction false} SentLinesAreWhole(line: Entry -> string, finished: seq<Finished>, c: Conn)
    requires forall e :: e in Entries(finished) ==> '\n' !in line(e)
    ensures forall i :: 0 <= i < |SentOn(line, finished, c)| ==> '\n' !in SentOn(line, finished, c)[i]
    decreases |finished|
  {
    if finished != [] {
      SentLinesAreWhole(line, finished[..|finished| - 1], c);
    }
  }

  lemma WireReads(s: State, c: Conn)
    requires c < |s.wire| && WireOf(s, c) && forall e :: e in Entries(s.finished) ==> '\n' !in s.line(e)
    ensures Lines(s.wire[c]).0 == SentOn(s.line, s.finished, c)
  {
    var lines := SentOn(s.line, s.finished, c);
    var tail := s.wire[c][|Stream(lines)|..];
    SentLinesAreWhole(s.line, s.finished, c);
    assert s.wire[c] == Stream(lines) + tail;
    if Stream(lines) != s.wire[c] {
      var e :| e in Entries(s.finished) && tail <= s.line(e);
    }
    StreamReads(lines, tail);
  }

  lemma {:induction false} ReceivedFirst(s: State, k: nat)
    requires k <= |s.wire| && Wires(s) && forall e :: e in Entries(s.finished) ==> '\n' !in s.line(e)
    ensures Received(s.wire[..k]) == SentOnFirst(s.line, s.finished, k)
    decreases k
  {
    if k > 0 {
      ReceivedFirst(s, k - 1);
      assert WireOf(s, k - 1);
      WireReads(s, k - 1);
      assert s.wire[..k][..k - 1] == s.wire[..k - 1];
    }
  }

  // ---------------------------------------------------------------- what arrives

  lemma {:induction false} PrefixLines(s: string, n: nat)
    requires n <= |s|
    ensures Lines(s[..n]).0 <= Lines(s).0
    decreases n
  {
    if n > 0 {
      assert s[..n][1..] == s[1..][..n - 1] && s[..n][0] == s[0];
      PrefixLines(s[1..], n - 1);
    }
  }

  lemma {:induction false} SubsequencesAppend<T>(a: seq<T>, b: seq<T>, c: seq<T>, d: seq<T>)
    requires IsSubsequence(a, b) && IsSubsequence(c, d)
    ensures IsSubsequence(a + c, b + d)
    decreases |d|
  {
    if c == [] {
      assert a + c == a;
      SubsequencePrefix(a, b, d);
    } else {
      var d', c' := d[..|d| - 1], c[..|c| - 1];
      assert (b + d)[..|b + d| - 1] == b + d' && (a + c)[..|a + c| - 1] == a + c';
      if c[|c| - 1] == d[|d| - 1] && IsSubsequence(c', d') {
        SubsequencesAppend(a, b, c', d');
      } else {
        SubsequencesAppend(a, b, c, d');
      }
    }
  }

  lemma {:induction false} PrefixIsSubsequence<T>(a: seq<T>, b: seq<T>)
    requires a <= b
    ensures IsSubsequence(a, b)
    decreases |b|
  {
    if a != [] && a != b {
      PrefixIsSubsequence(a, b[..|b| - 1]);
      SubsequencePrefix(a, b[..|b| - 1], [b[|b| - 1]]);
      assert b[..|b| - 1] + [b[|b| - 1]] == b;
    } else if a != [] {
      PrefixIsSubsequence(a[..|a| - 1], b[..|b| - 1]);
    }
  }

  /** How much of each connection's bytes reached the peer: what a connection accepted may be lost with it. */
  ghost predicate Delivery(wire: seq<string>, delivered: seq<nat>) {
    |delivered| == |wire| && forall c :: 0 <= c < |wire| ==> delivered[c] <= |wire[c]|
  }

  /** The complete lines that reached the peer, connection by connection. */
  function Delivered(wire: seq<string>, delivered: seq<nat>): seq<string>
    requires |delivered| == |wire| && forall c :: 0 <= c < |wire| ==> delivered[c] <= |wire[c]|
  {
    if wire == [] then []
    else
      var last := |wire| - 1;
      Delivered(wire[..last], delivered[..last]) + Lines(wire[last][..delivered[last]]).0
  }

  lemma {:induction false} DeliveredIsReceived(wire: seq<string>, delivered: seq<nat>)
    requires Delivery(wire, delivered)
    ensures IsSubsequence(Delivered(wire, delivered), Received(wire))
    decreases |wire|
  {
    if wire != [] {
      var last := |wire| - 1;
      DeliveredIsReceived(wire[..last], delivered[..last]);
      PrefixLines(wire[last], delivered[last]);
      PrefixIsSubsequence(Lines(wire[last][..delivered[last]]).0, Lines(wire[last]).0);
      SubsequencesAppend(Delivered(wire[..last], delivered[..last]), Received(wire[..last]),
                         Lines(wire[last][..delivered[last]]).0, Lines(wire[last]).0);
    }
  }

  /**
   * A write that returned no error may still be lost with its connection. Then
   * the complete lines that reach the peer are, on each connection, the first of
   * those sent on it, and over all connections a subsequence of the frames
   * written, so nothing is torn, mixed up or out of order.
   */
  lemma PeerSeesOnlyTheWritten(line: Entry -> string, run: seq<Step>, delivered: seq<nat>)
    requires IsRun(Init(line), run) && Delivery(Exec(Init(line), run).wire, delivered)
    requires forall e :: e in Offered(Exec(Init(line), run).offers) ==> '\n' !in line(e)
    ensures var s := Exec(Init(line), run);
            && IsSubsequence(Delivered(s.wire, delivered), LinesOf(line, Written(s.finished)))
            && forall c :: 0 <= c < |s.wire| ==>
                 Lines(s.wire[c][..delivered[c]]).0 <= SentOn(line, s.finished, c)
  {
    var s := Exec(Init(line), run);
    ReceiverSeesExactlyTheWritten(line, run);
    DeliveredIsReceived(s.wire, delivered);
    StartsWell(line);
    InvAlways(Init(line), run);
    LineKept(Init(line), run);
    EntriesAreOffered(s);
    forall c | 0 <= c < |s.wire| ensures Lines(s.wire[c][..delivered[c]]).0 <= SentOn(line, s.finished, c) {
      assert WireOf(s, c);
      WireReads(s, c);
      PrefixLines(s.wire[c], delivered[c]);
    }
  }

  /**
   * Reconnecting keeps the stream readable: whatever writes fail halfway, the
   * complete lines that all the connections together accepted are exactly the
   * frames written whole, in order, provided every frame is a single line.
   */
  lemma ReceiverSeesExactlyTheWritten(line: Entry -> string, run: seq<Step>)
    requires IsRun(Init(line), run)
    requires forall e :: e in Offered(Exec(Init(line), run).offers) ==> '\n' !in line(e)
    ensures var s := Exec(Init(line), run); Received(s.wire) == LinesOf(line, Written(s.finished))
  {
    StartsWell(line);
    InvAlways(Init(line), run);
    LineKept(Init(line), run);
    var s := Exec(Init(line), run);
    EntriesAreOffered(s);
    ReceivedFirst(s, |s.wire|);
    assert s.wire[..|s.wire|] == s.wire;
  }

  lemma {:induction false} LineKept(s: State, run: seq<Step>)
    requires IsRun(s, run)
    ensures Exec(s, run).line == s.line
    decreases |run|
  {
    if run != [] { LineKept(Apply(s, run[0]), run[1..]); }
  }

  // ---------------------------------------------------------------- what a line says

  /**
   * In the plain format a frame carries the JSON of its entry, in the CEF format
   * a message that reads back as the entry's; either way under the host and the
   * application name, in that order.
   */
  lemma LinesRead(e: Entry, version: string, hostname: string, app: string)
    requires ' ' !in hostname && ' ' !in app
    ensures ReadFrame(LineOf(e, FormatRFC5424, version, hostname, app)) ==
            Some(Syslog(16, 5, 1, Clock.Rfc3339(e.at), hostname, app, "-", "audit", e.json))
    ensures var frame := ReadFrame(LineOf(e, FormatCEF, version, hostname, app));
            && frame == Some(Syslog(16, 5, 1, Clock.Rfc3339(e.at), hostname, app, "-", "audit", CefText(e, version)))
            && Parse(frame.value.msg) == Some(Message(Header(e, version), NonBlank(Extension(e))))
  {
    FrameReads(e.at, hostname, app, e.json);
    FrameReads(e.at, hostname, app, CefText(e, version));
    RoundTrip(e, version);
  }
}
