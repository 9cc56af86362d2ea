/**
 * The RFC 5424 envelope of internal/audit/syslog.go and the newline-delimited
 * stream it is sent in (section 3.4.2 of RFC 6587), against readers written
 * from those documents.
 */
module Frames {
  import opened Options
  import opened Cef
  import opened TextLines
  import Clock
  import Decimal

  datatype Format = FormatRFC5424 | FormatCEF

  const PRI_VERSION := "<133>1"
  const NIL := "-"
  const MSG_ID := "audit"

  function FrameText(time: string, hostname: string, app: string, body: string): string {
    var tail := NIL + " " + (MSG_ID + " " + (NIL + " " + body));
    PRI_VERSION + " " + (time + " " + (hostname + " " + (app + " " + tail)))
  }

  /** One frame without the newline that ends it (syslog.go:216-222). */
  function FrameLine(at: Clock.DateTime, hostname: string, app: string, body: string): string {
    FrameText(Clock.Rfc3339(at), hostname, app, body)
  }

  function Body(e: Entry, format: Format, version: string): string {
    if format == FormatCEF then CefText(e, version) else e.json
  }

  function LineOf(e: Entry, format: Format, version: string, hostname: string, app: string): string {
    FrameLine(e.at, hostname, app, Body(e, format, version))
  }

  // ---------------------------------------------------------------- reading one frame

  /** The text before the first space and the text after it. */
  function TakeWord(s: string): Option<(string, string)> {
    if s == "" then None
    else if s[0] == ' ' then Some(("", s[1..]))
    else
      match TakeWord(s[1..])
      case None => None
      case Some((word, rest)) => Some(([s[0]] + word, rest))
  }

  /** The first `n` words and the text after them. */
  function TakeWords(s: string, n: nat): Option<(seq<string>, string)>
    decreases n
  {
    if n == 0 then Some(([], s))
    else
      match TakeWord(s)
      case None => None
      case Some((word, rest)) =>
        match TakeWords(rest, n - 1)
        case None => None
        case Some((words, tail)) => Some(([word] + words, tail))
  }

  datatype Syslog = Syslog(facility: nat, severity: nat, version: nat, timestamp: string, hostname: string, app: string,
                           procId: string, msgId: string, msg: string)

  /** `<PRI>VERSION`: up to three digits in angle brackets, then a version number. */
  function ReadPri(word: string): Option<(nat, nat)> {
    if |word| < 4 || word[0] != '<' then None
    else
      var close := if word[2] == '>' then 2 else if word[3] == '>' then 3 else 4;
      if close + 1 >= |word| || word[close] != '>' then None
      else if !Decimal.AllDigits(word[1..close]) || !Decimal.AllDigits(word[close + 1..]) then None
      else Some((Decimal.Value(word[1..close]), Decimal.Value(word[close + 1..])))
  }

  /** Section 6 of RFC 5424, for messages whose structured data is the nil value. */
  function ReadFrame(line: string): Option<Syslog> {
    match TakeWords(line, 7)
    case None => None
    case Some((w, msg)) =>
      if |w| != 7 || w[6] != NIL then None
      else
        match ReadPri(w[0])
        case None => None
        case Some((pri, version)) => Some(Syslog(pri / 8, pri % 8, version, w[1], w[2], w[3], w[4], w[5], msg))
  }

  lemma {:induction false} WordReads(word: string, rest: string)
    requires ' ' !in word
    ensures TakeWord(word + " " + rest) == Some((word, rest))
    decreases |word|
  {
    var s := word + " " + rest;
    if word == "" {
      assert s == " " + rest && s[1..] == rest;
    } else {
      assert s[1..] == word[1..] + " " + rest;
      WordReads(word[1..], rest);
      assert [word[0]] + word[1..] == word;
    }
  }

  lemma {:induction false} WordsHaveNoSpace(s: string)
    ensures TakeWord(s).Some? ==> ' ' !in TakeWord(s).value.0
    decreases |s|
  {
    if s != "" { WordsHaveNoSpace(s[1..]); }
  }

  /** The words of a text that starts with the given space-free words. */
  lemma {:induction false} WordsRead(words: seq<string>, rest: string)
    requires forall i :: 0 <= i < |words| ==> ' ' !in words[i]
    ensures TakeWords(Spaced(words, rest), |words|) == Some((words, rest))
    decreases |words|
  {
    if words != [] {
      WordReads(words[0], Spaced(words[1..], rest));
      WordsRead(words[1..], rest);
      assert [words[0]] + words[1..] == words;
    }
  }

  /** `words`, each followed by a space, and `rest`. */
  function Spaced(words: seq<string>, rest: string): string {
    if words == [] then rest else words[0] + " " + Spaced(words[1..], rest)
  }

  lemma SpacedStep(word: string, words: seq<string>, rest: string)
    ensures Spaced([word] + words, rest) == word + " " + Spaced(words, rest)
  {
    assert ([word] + words)[1..] == words;
  }

  lemma SpacedSeven(a: string, b: string, c: string, d: string, e: string, f: string, g: string, rest: string)
    ensures Spaced([a, b, c, d, e, f, g], rest) ==
            a + " " + (b + " " + (c + " " + (d + " " + (e + " " + (f + " " + (g + " " + rest))))))
  {
    SpacedStep(g, [], rest);
    SpacedStep(f, [g], rest);
    SpacedStep(e, [f, g], rest);
    SpacedStep(d, [e, f, g], rest);
    SpacedStep(c, [d, e, f, g], rest);
    SpacedStep(b, [c, d, e, f, g], rest);
    SpacedStep(a, [b, c, d, e, f, g], rest);
    assert [g] + [] == [g] && [f] + [g] == [f, g] && [e] + [f, g] == [e, f, g] && [d] + [e, f, g] == [d, e, f, g];
    assert [c] + [d, e, f, g] == [c, d, e, f, g] && [b] + [c, d, e, f, g] == [b, c, d, e, f, g];
    assert [a] + [b, c, d, e, f, g] == [a, b, c, d, e, f, g];
  }

  /** PRI 133 is facility 16 (local0) times 8 plus severity 5 (notice). */
  lemma Pri133()
    ensures ReadPri(PRI_VERSION) == Some((16 * 8 + 5, 1))
  {
    var w := PRI_VERSION;
    assert w[1..4] == "133" && w[5..] == "1";
    assert "133"[..2] == "13" && "13"[..1] == "1" && "1"[..0] == "";
  }

  lemma FrameTextReads(time: string, hostname: string, app: string, body: string)
    requires ' ' !in time && ' ' !in hostname && ' ' !in app
    ensures TakeWords(FrameText(time, hostname, app, body), 7) ==
            Some(([PRI_VERSION, time, hostname, app, NIL, MSG_ID, NIL], body))
  {
    assert ' ' !in PRI_VERSION && ' ' !in NIL && ' ' !in MSG_ID;
    var words := [PRI_VERSION, time, hostname, app, NIL, MSG_ID, NIL];
    SpacedSeven(PRI_VERSION, time, hostname, app, NIL, MSG_ID, NIL, body);
    WordsRead(words, body);
  }

  /** A frame reads back when the host and application names have no space. */
  lemma FrameReads(at: Clock.DateTime, hostname: string, app: string, body: string)
    requires ' ' !in hostname && ' ' !in app
    ensures ReadFrame(FrameLine(at, hostname, app, body)) ==
            Some(Syslog(16, 5, 1, Clock.Rfc3339(at), hostname, app, NIL, MSG_ID, body))
  {
    Clock.Rfc3339IsOneWord(at);
    FrameTextReads(Clock.Rfc3339(at), hostname, app, body);
    Pri133();
  }

  /** And so does the time in it. */
  lemma FrameTimeReads(at: Clock.DateTime, hostname: string, app: string, body: string)
    requires ' ' !in hostname && ' ' !in app && at.Valid()
    ensures var frame := ReadFrame(FrameLine(at, hostname, app, body));
            frame.Some? && Clock.ReadRfc3339(frame.value.timestamp) == Some(at)
  {
    FrameReads(at, hostname, app, body);
    Clock.Rfc3339Reads(at);
  }

  lemma {:induction false} TakenWordsHaveNoSpace(s: string, n: nat)
    ensures TakeWords(s, n).Some? ==>
              |TakeWords(s, n).value.0| == n &&
              forall i :: 0 <= i < n ==> ' ' !in TakeWords(s, n).value.0[i]
    decreases n
  {
    if n > 0 && TakeWord(s).Some? {
      WordsHaveNoSpace(s);
      TakenWordsHaveNoSpace(TakeWord(s).value.1, n - 1);
    }
  }

  /** Exactly then: a host or application name with a space does not come back. */
  lemma FrameReadsExactlyWhen(at: Clock.DateTime, hostname: string, app: string, body: string)
    ensures (ReadFrame(FrameLine(at, hostname, app, body)).Some?
             && ReadFrame(FrameLine(at, hostname, app, body)).value.hostname == hostname
             && ReadFrame(FrameLine(at, hostname, app, body)).value.app == app)
            <==> ' ' !in hostname && ' ' !in app
  {
    TakenWordsHaveNoSpace(FrameLine(at, hostname, app, body), 7);
    if ' ' !in hostname && ' ' !in app { FrameReads(at, hostname, app, body); }
  }

  // ---------------------------------------------------------------- newlines in a CEF body

  lemma {:induction false} ValuesHaveNoNewline(v: string)
    ensures '\n' !in EscapedValue(v)
    decreases |v|
  {
    if v != "" { ValuesHaveNoNewline(v[1..]); }
  }

  lemma {:induction false} HeadersKeepNewlines(f: string)
    ensures '\n' in EscapedHeader(f) <==> '\n' in f
    decreases |f|
  {
    if f != "" {
      HeadersKeepNewlines(f[1..]);
      assert f == [f[0]] + f[1..];
    }
  }

  lemma {:induction false} ExtensionsHaveNoNewline(pairs: seq<Pair>)
    requires forall i :: 0 <= i < |pairs| ==> '\n' !in pairs[i].key
    ensures '\n' !in ExtensionText(pairs)
    decreases |pairs|
  {
    if pairs != [] {
      ValuesHaveNoNewline(pairs[0].value);
      ExtensionsHaveNoNewline(pairs[1..]);
    }
  }

  lemma {:induction false} HeaderNewlines(fields: seq<string>)
    ensures '\n' in HeaderText(fields) <==> exists i :: 0 <= i < |fields| && '\n' in fields[i]
    decreases |fields|
  {
    if fields != [] {
      HeadersKeepNewlines(fields[0]);
      HeaderNewlines(fields[1..]);
      if '\n' in HeaderText(fields[1..]) {
        var i :| 0 <= i < |fields[1..]| && '\n' in fields[1..][i];
        assert fields[i + 1] == fields[1..][i];
      }
      if i :| 0 <= i < |fields| && '\n' in fields[i] {
        if i > 0 { assert fields[1..][i - 1] == fields[i]; }
      }
    }
  }

  lemma {:induction false} PrintedKeys(pairs: seq<Pair>)
    requires forall i :: 0 <= i < |pairs| ==> '\n' !in pairs[i].key
    ensures forall i :: 0 <= i < |NonBlank(pairs)| ==> '\n' !in NonBlank(pairs)[i].key
    decreases |pairs|
  {
    if pairs != [] { PrintedKeys(pairs[1..]); }
  }

  lemma ExtensionKeysAreOneLine(e: Entry)
    ensures forall i :: 0 <= i < |Extension(e)| ==> '\n' !in Extension(e)[i].key
  {
  }

  /** Of seven fields only three can have a newline. */
  lemma NewlinesOfSeven(h: seq<string>)
    requires |h| == 7 && '\n' !in h[0] && '\n' !in h[1] && '\n' !in h[2] && '\n' !in h[6]
    ensures (exists i :: 0 <= i < |h| && '\n' in h[i]) <==> '\n' in h[3] || '\n' in h[4] || '\n' in h[5]
  {
  }

  lemma FixedFieldsAreOneLine(status: int)
    ensures '\n' !in CEF_VERSION && '\n' !in VENDOR && '\n' !in Decimal.Text(Severity(status))
  {
    Decimal.TextReads(Severity(status));
  }

  lemma FallbackNewlines(s: string, fallback: string)
    requires '\n' !in fallback
    ensures '\n' in OrElse(s, fallback) <==> '\n' in s
  {
  }

  lemma HeaderFieldNewlines(e: Entry, version: string)
    ensures (exists i :: 0 <= i < |Header(e, version)| && '\n' in Header(e, version)[i])
            <==> '\n' in version || '\n' in e.action || '\n' in e.resource
  {
    FixedFieldsAreOneLine(e.status);
    FallbackNewlines(version, "dev");
    FallbackNewlines(e.resource, "audit");
    NewlinesOfSeven(Header(e, version));
  }

  /**
   * The extension escapes newlines and the header does not: a CEF body is one
   * line exactly when version, action and resource are.
   */
  lemma CefIsOneLineExactlyWhen(e: Entry, version: string)
    ensures '\n' !in CefText(e, version) <==> '\n' !in version && '\n' !in e.action && '\n' !in e.resource
  {
    HeaderNewlines(Header(e, version));
    HeaderFieldNewlines(e, version);
    ExtensionKeysAreOneLine(e);
    PrintedKeys(Extension(e));
    ExtensionsHaveNoNewline(NonBlank(Extension(e)));
  }

  /** A whole frame is one line exactly when its names and its body are. */
  lemma FrameIsOneLineExactlyWhen(at: Clock.DateTime, hostname: string, app: string, body: string)
    ensures '\n' !in FrameLine(at, hostname, app, body) <==> '\n' !in hostname && '\n' !in app && '\n' !in body
  {
    Clock.Rfc3339IsOneWord(at);
  }
}
