/**
 * The ArcSight CEF printer of internal/audit/syslog.go: a header of seven fields
 * ended by pipes, then `key=value` pairs. `CefReader` reads it back.
 */
module Cef {
  import opened Options
  import opened Sequences
  import Clock
  import Decimal

  /** storage.AuditEntry; `json` is its JSON encoding, which this model does not look into. */
  datatype Entry = Entry(id: string, tenantId: string, at: Clock.DateTime, actor: string, actorSub: string,
                         action: string, resource: string, status: int, requestId: string, remoteIp: string,
                         json: string)

  datatype Pair = Pair(key: string, value: string)

  // ---------------------------------------------------------------- the printer

  /** What escapeCEFHeader turns one rune into. */
  function HeaderRune(c: char): string {
    if c == '\\' || c == '|' then ['\\', c] else [c]
  }

  /** What escapeCEFValue turns one rune into. */
  function ValueRune(c: char): string {
    if c == '\\' || c == '=' then ['\\', c]
    else if c == '\n' then ['\\', 'n']
    else if c == '\r' then ['\\', 'r']
    else [c]
  }

  function EscapedHeader(s: string): string {
    if s == "" then "" else HeaderRune(s[0]) + EscapedHeader(s[1..])
  }

  function EscapedValue(s: string): string {
    if s == "" then "" else ValueRune(s[0]) + EscapedValue(s[1..])
  }

  /** One rune of the escaping loops. */
  lemma EscapeStep(s: string, i: nat, r: string)
    requires i < |s|
    ensures r + EscapedHeader(s[i..]) == r + HeaderRune(s[i]) + EscapedHeader(s[i + 1..])
    ensures r + EscapedValue(s[i..]) == r + ValueRune(s[i]) + EscapedValue(s[i + 1..])
  {
    assert s[i..][1..] == s[i + 1..];
    Regroup(r, HeaderRune(s[i]), EscapedHeader(s[i + 1..]), "");
    Regroup(r, ValueRune(s[i]), EscapedValue(s[i + 1..]), "");
  }

  /** syslog.go:299-310. */
  method EscapeCEFHeader(s: string) returns (r: string)
    ensures r == EscapedHeader(s)
  {
    r := "";
    for i := 0 to |s|
      invariant r + EscapedHeader(s[i..]) == EscapedHeader(s)
    {
      var piece := if s[i] == '\\' || s[i] == '|' then "\\" + [s[i]] else [s[i]];
      assert piece == HeaderRune(s[i]);
      EscapeStep(s, i, r);
      r := r + piece;
    }
    assert s[|s|..] == "" && r + "" == r;
  }

  /** syslog.go:314-329. */
  method EscapeCEFValue(s: string) returns (r: string)
    ensures r == EscapedValue(s)
  {
    r := "";
    for i := 0 to |s|
      invariant r + EscapedValue(s[i..]) == EscapedValue(s)
    {
      var piece := [s[i]];
      if s[i] == '\\' || s[i] == '=' {
        piece := "\\" + [s[i]];
      } else if s[i] == '\n' {
        piece := "\\n";
      } else if s[i] == '\r' {
        piece := "\\r";
      }
      assert piece == ValueRune(s[i]);
      EscapeStep(s, i, r);
      r := r + piece;
    }
    assert s[|s|..] == "" && r + "" == r;
  }

  function Severity(status: int): int {
    if status >= 500 then 7 else if status >= 400 then 5 else 3
  }

  function Outcome(status: int): string {
    if status >= 400 then "failure" else "success"
  }

  /** The extension's keys in their printed order (syslog.go:256-271), blank values included. */
  function Extension(e: Entry): seq<Pair> {
    [Pair("act", e.action), Pair("suser", e.actor), Pair("suid", e.actorSub), Pair("src", e.remoteIp),
     Pair("request", e.resource), Pair("requestMethod", e.action), Pair("externalId", e.id),
     Pair("cs1Label", "request_id"), Pair("cs1", e.requestId), Pair("cs2Label", "tenant_id"), Pair("cs2", e.tenantId),
     Pair("cs3Label", "status"), Pair("cs3", Decimal.Text(e.status)), Pair("outcome", Outcome(e.status))]
  }

  /** The pairs that are printed. */
  function NonBlank(pairs: seq<Pair>): seq<Pair> {
    if pairs == [] then []
    else (if pairs[0].value == "" then [] else [pairs[0]]) + NonBlank(pairs[1..])
  }

  function PairText(p: Pair): string {
    p.key + "=" + EscapedValue(p.value)
  }

  /** The printed form of a list of pairs, separated by single spaces. */
  function ExtensionText(pairs: seq<Pair>): string {
    if pairs == [] then ""
    else if |pairs| == 1 then PairText(pairs[0])
    else PairText(pairs[0]) + " " + ExtensionText(pairs[1..])
  }

  function OrElse(s: string, fallback: string): string {
    if s == "" then fallback else s
  }

  const CEF_VERSION := "CEF:0"
  const VENDOR := "mqconnector"

  /** The seven header fields as they should be read back; the product is named after its vendor. */
  function Header(e: Entry, version: string): seq<string> {
    [CEF_VERSION, VENDOR, VENDOR, OrElse(version, "dev"), e.action, OrElse(e.resource, "audit"),
     Decimal.Text(Severity(e.status))]
  }

  /** Fields each followed by a pipe. */
  function HeaderText(fields: seq<string>): string {
    if fields == [] then "" else EscapedHeader(fields[0]) + "|" + HeaderText(fields[1..])
  }

  function CefText(e: Entry, version: string): string {
    HeaderText(Header(e, version)) + ExtensionText(NonBlank(Extension(e)))
  }

  // ---------------------------------------------------------------- the loop that builds the extension

  /** A printed extension starts with its first key and an `=`. */
  lemma ExtensionStarts(pairs: seq<Pair>)
    requires |pairs| > 0
    ensures ExtensionText(pairs) == pairs[0].key + "=" + AfterFirstKey(pairs)
  {
    var key, v := pairs[0].key, EscapedValue(pairs[0].value);
    if |pairs| > 1 {
      Regroup(key + "=", v, " ", ExtensionText(pairs[1..]));
    }
  }

  /** What follows the first key and its `=`. */
  function AfterFirstKey(pairs: seq<Pair>): string
    requires |pairs| > 0
  {
    var v := EscapedValue(pairs[0].value);
    if |pairs| == 1 then v else v + (" " + ExtensionText(pairs[1..]))
  }

  lemma {:induction false} NonBlankGrows(pairs: seq<Pair>, i: nat)
    requires i < |pairs|
    ensures NonBlank(pairs[..i + 1]) == NonBlank(pairs[..i]) + (if pairs[i].value == "" then [] else [pairs[i]])
    decreases i
  {
    if i == 0 {
      assert pairs[..1] == [pairs[0]] && pairs[..1][1..] == [];
    } else {
      assert pairs[..i + 1][1..] == pairs[1..][..i] && pairs[..i][1..] == pairs[1..][..i - 1];
      NonBlankGrows(pairs[1..], i - 1);
    }
  }

  /** Appending one more pair to a printed extension, as the loop does. */
  lemma {:induction false} ExtensionTextGrows(pairs: seq<Pair>, p: Pair)
    ensures ExtensionText(pairs + [p]) == (if pairs == [] then "" else ExtensionText(pairs) + " ") + PairText(p)
    decreases |pairs|
  {
    if pairs == [] {
      assert pairs + [p] == [p];
    } else {
      assert (pairs + [p])[1..] == pairs[1..] + [p];
      ExtensionTextGrows(pairs[1..], p);
      if |pairs| > 1 {
        var a, b, c := PairText(pairs[0]) + " ", ExtensionText(pairs[1..]) + " ", PairText(p);
        assert a + (b + c) == (a + b) + c;
      }
    }
  }

  lemma ExtensionTextBlank(pairs: seq<Pair>)
    ensures ExtensionText(pairs) == "" <==> pairs == []
  {
    if pairs != [] { ExtensionStarts(pairs); }
  }

  /** A header field and its closing pipe, before the rest of the message. */
  function Field(field: string, rest: string): string {
    field + "|" + rest
  }

  /** syslog.go:272-281. */
  method FormatExtension(ext: seq<Pair>) returns (extBuf: string)
    ensures extBuf == ExtensionText(NonBlank(ext))
  {
    extBuf := "";
    for i := 0 to |ext|
      invariant extBuf == ExtensionText(NonBlank(ext[..i]))
    {
      ghost var printed := NonBlank(ext[..i]);
      NonBlankGrows(ext, i);
      if ext[i].value != "" {
        ExtensionTextBlank(printed);
        ExtensionTextGrows(printed, ext[i]);
        if extBuf != "" {
          extBuf := extBuf + " ";
        }
        var value := EscapeCEFValue(ext[i].value);
        assert PairText(ext[i]) == ext[i].key + "=" + value;
        extBuf := extBuf + (ext[i].key + "=" + value);
      } else {
        assert printed + [] == printed;
      }
    }
    assert ext[..|ext|] == ext;
  }

  /** syslog.go:238-295. */
  method FormatCEF(e: Entry, version: string) returns (text: string)
    ensures text == CefText(e, version)
  {
    var severity := 3;
    if e.status >= 500 {
      severity := 7;
    } else if e.status >= 400 {
      severity := 5;
    }
    var extBuf := FormatExtension(Extension(e));
    var vendor := EscapeCEFHeader(VENDOR);
    var ver := EscapeCEFHeader(OrElse(version, "dev"));
    var action := EscapeCEFHeader(e.action);
    var name := EscapeCEFHeader(OrElse(e.resource, "audit"));
    var sev := Decimal.Text(severity);
    var tail := Field(sev, extBuf);
    text := Field(CEF_VERSION, Field(vendor, Field(vendor, Field(ver, Field(action, Field(name, tail))))));
    CefSpelledOut(e, version);
  }

  /** The message as the format string at syslog.go:286 puts it together. */
  lemma CefSpelledOut(e: Entry, version: string)
    ensures var vendor, ver := EscapedHeader(VENDOR), EscapedHeader(OrElse(version, "dev"));
            var action, name := EscapedHeader(e.action), EscapedHeader(OrElse(e.resource, "audit"));
            var tail := Field(Decimal.Text(Severity(e.status)), ExtensionText(NonBlank(Extension(e))));
            CefText(e, version) ==
            Field(CEF_VERSION, Field(vendor, Field(vendor, Field(ver, Field(action, Field(name, tail))))))
  {
    PlainVersion();
    PlainSeverity(e.status);
    HeaderOfSeven(CEF_VERSION, VENDOR, VENDOR, OrElse(version, "dev"), e.action, OrElse(e.resource, "audit"),
                  Decimal.Text(Severity(e.status)), ExtensionText(NonBlank(Extension(e))));
  }

  lemma PlainVersion()
    ensures EscapedHeader(CEF_VERSION) == CEF_VERSION
  {
    PlainHeader(CEF_VERSION);
  }

  lemma PlainSeverity(status: int)
    ensures EscapedHeader(Decimal.Text(Severity(status))) == Decimal.Text(Severity(status))
  {
    Decimal.TextReads(Severity(status));
    PlainHeader(Decimal.Text(Severity(status)));
  }

  lemma HeaderStep(field: string, fields: seq<string>, rest: string)
    ensures HeaderText([field] + fields) + rest == Field(EscapedHeader(field), HeaderText(fields) + rest)
  {
    assert ([field] + fields)[1..] == fields;
  }

  lemma HeaderOfFour(d: string, e: string, f: string, g: string, rest: string)
    ensures HeaderText([d, e, f, g]) + rest ==
            Field(EscapedHeader(d), Field(EscapedHeader(e), Field(EscapedHeader(f), Field(EscapedHeader(g), rest))))
  {
    assert HeaderText([]) + rest == rest;
    HeaderStep(g, [], rest);
    HeaderStep(f, [g], rest);
    HeaderStep(e, [f, g], rest);
    HeaderStep(d, [e, f, g], rest);
    assert [g] + [] == [g] && [f] + [g] == [f, g] && [e] + [f, g] == [e, f, g] && [d] + [e, f, g] == [d, e, f, g];
  }

  lemma HeaderOfSeven(a: string, b: string, c: string, d: string, e: string, f: string, g: string, rest: string)
    ensures HeaderText([a, b, c, d, e, f, g]) + rest ==
            Field(EscapedHeader(a), Field(EscapedHeader(b), Field(EscapedHeader(c), Field(EscapedHeader(d),
              Field(EscapedHeader(e), Field(EscapedHeader(f), Field(EscapedHeader(g), rest)))))))
  {
    HeaderOfFour(d, e, f, g, rest);
    HeaderStep(c, [d, e, f, g], rest);
    HeaderStep(b, [c, d, e, f, g], rest);
    HeaderStep(a, [b, c, d, e, f, g], rest);
    assert [c] + [d, e, f, g] == [c, d, e, f, g] && [b] + [c, d, e, f, g] == [b, c, d, e, f, g];
    assert [a] + [b, c, d, e, f, g] == [a, b, c, d, e, f, g];
  }

  lemma {:induction false} PlainHeader(s: string)
    requires forall i :: 0 <= i < |s| ==> s[i] !in "\\|"
    ensures EscapedHeader(s) == s
    decreases |s|
  {
    if s != "" {
      PlainHeader(s[1..]);
      assert [s[0]] + s[1..] == s;
    }
  }
}
