/**
 * A reader of CEF written from the format: a header of seven fields ended by
 * unescaped pipes, then `key=value` pairs in which each key is the space-free
 * run before an unescaped `=`. What the printer prints reads back.
 */
module CefReader {
  import opened Options
  import opened Sequences
  import opened Cef
  import Decimal

  // ---------------------------------------------------------------- an independent reader

  /** Undoes `\\` and `\|`; a backslash before anything else stands for itself. */
  function TakeField(s: string): Option<(string, string)> {
    if s == "" then None
    else if s[0] == '|' then Some(("", s[1..]))
    else if s[0] == '\\' && |s| > 1 && s[1] in "\\|" then
      match TakeField(s[2..])
      case None => None
      case Some((field, rest)) => Some(([s[1]] + field, rest))
    else
      match TakeField(s[1..])
      case None => None
      case Some((field, rest)) => Some(([s[0]] + field, rest))
  }

  /** The first `n` fields, unescaped, and the text after the `n`-th unescaped pipe. */
  function TakeFields(s: string, n: nat): Option<(seq<string>, string)>
    decreases n
  {
    if n == 0 then Some(([], s))
    else
      match TakeField(s)
      case None => None
      case Some((field, rest)) =>
        match TakeFields(rest, n - 1)
        case None => None
        case Some((fields, tail)) => Some(([field] + fields, tail))
  }

  /** The pieces between the unescaped `=` signs, still escaped. */
  function Pieces(s: string): (r: seq<string>)
    ensures |r| > 0
  {
    if s == "" then [""]
    else if s[0] == '=' then [""] + Pieces(s[1..])
    else if s[0] == '\\' && |s| > 1 then
      var rest := Pieces(s[2..]);
      [s[..2] + rest[0]] + rest[1..]
    else
      var rest := Pieces(s[1..]);
      [[s[0]] + rest[0]] + rest[1..]
  }

  function Unescaped(s: string): string {
    if s == "" then ""
    else if s[0] == '\\' && |s| > 1 then
      [if s[1] == 'n' then '\n' else if s[1] == 'r' then '\r' else s[1]] + Unescaped(s[2..])
    else [s[0]] + Unescaped(s[1..])
  }

  /** The position of the last space, or -1. */
  function LastSpace(s: string): (i: int)
    ensures -1 <= i < |s|
  {
    if s == "" then -1 else if s[|s| - 1] == ' ' then |s| - 1 else LastSpace(s[..|s| - 1])
  }

  /**
   * `pieces[0]` is a key; every later piece is a value, a space and the next
   * key, except the last, which is a value.
   */
  function PairUp(pieces: seq<string>): Option<seq<Pair>>
    requires |pieces| > 0
    decreases |pieces|
  {
    if |pieces| == 1 then None
    else if |pieces| == 2 then Some([Pair(pieces[0], Unescaped(pieces[1]))])
    else
      var cut := LastSpace(pieces[1]);
      if cut < 0 then None
      else
        match PairUp([pieces[1][cut + 1..]] + pieces[2..])
        case None => None
        case Some(later) => Some([Pair(pieces[0], Unescaped(pieces[1][..cut]))] + later)
  }

  datatype Message = Message(header: seq<string>, extension: seq<Pair>)

  function Parse(s: string): Option<Message> {
    match TakeFields(s, 7)
    case None => None
    case Some((fields, tail)) =>
      match PairUp(Pieces(tail))
      case None => None
      case Some(pairs) => Some(Message(fields, pairs))
  }

  // ---------------------------------------------------------------- headers

  lemma {:induction false} FieldReads(f: string, rest: string)
    ensures TakeField(EscapedHeader(f) + "|" + rest) == Some((f, rest))
    decreases |f|
  {
    var s := EscapedHeader(f) + "|" + rest;
    if f != "" {
      var tail := EscapedHeader(f[1..]) + "|" + rest;
      FieldReads(f[1..], rest);
      assert s == HeaderRune(f[0]) + tail;
      if f[0] == '\\' || f[0] == '|' {
        assert s[2..] == tail;
      } else {
        assert s[1..] == tail;
      }
      assert [f[0]] + f[1..] == f;
    } else {
      assert s == "|" + rest && s[1..] == rest;
    }
  }

  lemma {:induction false} FieldsRead(fields: seq<string>, rest: string)
    ensures TakeFields(HeaderText(fields) + rest, |fields|) == Some((fields, rest))
    decreases |fields|
  {
    if fields == [] {
      assert HeaderText(fields) + rest == rest;
    } else {
      var tail := HeaderText(fields[1..]) + rest;
      assert HeaderText(fields) + rest == EscapedHeader(fields[0]) + "|" + tail;
      FieldReads(fields[0], tail);
      FieldsRead(fields[1..], rest);
      assert [fields[0]] + fields[1..] == fields;
    }
  }

  // ---------------------------------------------------------------- extensions

  /** Text with no unescaped `=`, and no backslash left open at its end. */
  predicate Inert(s: string) {
    s == "" ||
    (if s[0] == '\\' then |s| > 1 && Inert(s[2..]) else s[0] != '=' && Inert(s[1..]))
  }

  lemma {:induction false} InertConcat(a: string, b: string)
    requires Inert(a) && Inert(b)
    ensures Inert(a + b)
    decreases |a|
  {
    if a == "" {
      assert a + b == b;
    } else if a[0] == '\\' {
      assert (a + b)[2..] == a[2..] + b;
      InertConcat(a[2..], b);
    } else {
      assert (a + b)[1..] == a[1..] + b;
      InertConcat(a[1..], b);
    }
  }

  lemma {:induction false} ValuesAreInert(v: string)
    ensures Inert(EscapedValue(v)) && Unescaped(EscapedValue(v)) == v
    decreases |v|
  {
    if v != "" {
      ValuesAreInert(v[1..]);
      var s := EscapedValue(v);
      if |ValueRune(v[0])| == 2 {
        assert s[2..] == EscapedValue(v[1..]);
      } else {
        assert s[1..] == EscapedValue(v[1..]);
      }
      assert [v[0]] + v[1..] == v;
    }
  }

  /** A key: at least one character, none of them a space, `=` or a backslash. */
  predicate IsKey(k: string) {
    k != "" && forall i :: 0 <= i < |k| ==> k[i] !in " =\\"
  }

  lemma {:induction false} KeysAreInert(k: string)
    requires forall i :: 0 <= i < |k| ==> k[i] !in " =\\"
    ensures Inert(k)
    decreases |k|
  {
    if k != "" { KeysAreInert(k[1..]); }
  }

  /** An inert text is one piece, up to the next `=`. */
  lemma {:induction false} PieceReads(a: string, rest: string)
    requires Inert(a)
    ensures Pieces(a + "=" + rest) == [a] + Pieces(rest)
    decreases |a|
  {
    var s := a + "=" + rest;
    if a == "" {
      assert s == "=" + rest && s[1..] == rest;
    } else if a[0] == '\\' {
      assert s[2..] == a[2..] + "=" + rest && s[..2] == a[..2];
      PieceReads(a[2..], rest);
      assert a[..2] + a[2..] == a;
    } else {
      assert s[1..] == a[1..] + "=" + rest;
      PieceReads(a[1..], rest);
      assert [a[0]] + a[1..] == a;
    }
  }

  lemma {:induction false} LastPieceReads(a: string)
    requires Inert(a)
    ensures Pieces(a) == [a]
    decreases |a|
  {
    if a == "" {
    } else if a[0] == '\\' {
      LastPieceReads(a[2..]);
      assert a[..2] + a[2..] == a;
    } else {
      LastPieceReads(a[1..]);
      assert [a[0]] + a[1..] == a;
    }
  }

  lemma {:induction false} LastSpaceBeforeKey(v: string, k: string)
    requires forall i :: 0 <= i < |k| ==> k[i] != ' '
    ensures LastSpace(v + " " + k) == |v|
    decreases |k|
  {
    var s := v + " " + k;
    if k == "" {
      assert s == v + " ";
    } else {
      assert s[..|s| - 1] == v + " " + k[..|k| - 1];
      LastSpaceBeforeKey(v, k[..|k| - 1]);
    }
  }

  lemma OnePairReads(p: Pair)
    requires IsKey(p.key)
    ensures Pieces(PairText(p)) == [p.key, EscapedValue(p.value)]
    ensures PairUp(Pieces(PairText(p))) == Some([p])
  {
    ValuesAreInert(p.value);
    KeysAreInert(p.key);
    PieceReads(p.key, EscapedValue(p.value));
    LastPieceReads(EscapedValue(p.value));
  }

  /** A value sticks to the next key, up to the last space; what follows it is read as before. */
  lemma PairUpStuck(key: string, v: string, next: string, later: seq<string>, pairs: seq<Pair>)
    requires IsKey(next) && |later| > 1 && later[0] == next && PairUp(later) == Some(pairs)
    ensures PairUp([key, v + " " + next] + later[1..]) == Some([Pair(key, Unescaped(v))] + pairs)
  {
    LastSpaceBeforeKey(v, next);
    NextInFront(key, v, " ", next, later);
  }

  lemma NextInFront(key: string, v: string, space: string, next: string, later: seq<string>)
    requires |space| == 1 && |later| > 0 && later[0] == next
    ensures var stuck := v + space + next;
            var all := [key, stuck] + later[1..];
            && stuck[..|v|] == v && stuck[|v| + 1..] == next
            && all[0] == key && all[1] == stuck && all[2..] == later[1..] && [next] + all[2..] == later
  {
  }

  lemma TwoInFront(first: string, second: string, rest: seq<string>)
    ensures [first] + ([second] + rest) == [first, second] + rest
  {
  }

  /** One pair in front of a text that already reads back. */
  lemma PairBefore(p: Pair, next: string, later: string, pairs: seq<Pair>)
    requires IsKey(p.key) && IsKey(next) && |Pieces(later)| > 1 && Pieces(later)[0] == next
    requires PairUp(Pieces(later)) == Some(pairs)
    requires forall v: string :: Inert(v) ==> Pieces(v + " " + later) == [v + " " + next] + Pieces(later)[1..]
    ensures var all := Pieces(PairText(p) + " " + later);
            |all| > 1 && all[0] == p.key && PairUp(all) == Some([p] + pairs)
  {
    var v := EscapedValue(p.value);
    ValuesAreInert(p.value);
    KeysAreInert(p.key);
    PieceReads(p.key, v + " " + later);
    Regroup(p.key + "=", v, " ", later);
    TwoInFront(p.key, v + " " + next, Pieces(later)[1..]);
    PairUpStuck(p.key, v, next, Pieces(later), pairs);
  }

  /** A printed list of pairs reads back as that list. */
  lemma {:induction false} PairsRead(pairs: seq<Pair>)
    requires |pairs| > 0 && forall i :: 0 <= i < |pairs| ==> IsKey(pairs[i].key)
    ensures PairUp(Pieces(ExtensionText(pairs))) == Some(pairs)
    ensures Pieces(ExtensionText(pairs))[0] == pairs[0].key && |Pieces(ExtensionText(pairs))| > 1
    decreases |pairs|
  {
    if |pairs| == 1 {
      OnePairReads(pairs[0]);
      assert [pairs[0]] == pairs;
    } else {
      PairsRead(pairs[1..]);
      forall v: string | Inert(v)
        ensures Pieces(v + " " + ExtensionText(pairs[1..]))
             == [v + " " + pairs[1].key] + Pieces(ExtensionText(pairs[1..]))[1..]
      {
        ExtensionStarts(pairs[1..]);
        StuckPiece(v, pairs[1].key, AfterFirstKey(pairs[1..]));
      }
      PairBefore(pairs[0], pairs[1].key, ExtensionText(pairs[1..]), pairs[1..]);
      assert [pairs[0]] + pairs[1..] == pairs;
    }
  }

  lemma StuckPiece(v: string, key: string, rest: string)
    requires Inert(v) && IsKey(key)
    ensures Pieces(v + " " + (key + "=" + rest)) == [v + " " + key] + Pieces(key + "=" + rest)[1..]
  {
    KeysAreInert(key);
    assert Inert(" ") by { assert " "[1..] == ""; }
    InertConcat(v, " ");
    InertConcat(v + " ", key);
    PieceReads(key, rest);
    PieceReads(v + " " + key, rest);
    assert v + " " + (key + "=" + rest) == v + " " + key + "=" + rest;
  }

  // ---------------------------------------------------------------- the round trip

  lemma {:induction false} NonBlankKeys(pairs: seq<Pair>)
    requires forall i :: 0 <= i < |pairs| ==> IsKey(pairs[i].key)
    ensures forall i :: 0 <= i < |NonBlank(pairs)| ==> IsKey(NonBlank(pairs)[i].key)
    decreases |pairs|
  {
    if pairs != [] { NonBlankKeys(pairs[1..]); }
  }

  lemma {:induction false} NonBlankKeepsLast(pairs: seq<Pair>)
    requires |pairs| > 0 && pairs[|pairs| - 1].value != ""
    ensures NonBlank(pairs) != []
    decreases |pairs|
  {
    if |pairs| > 1 { NonBlankKeepsLast(pairs[1..]); }
  }

  lemma ExtensionKeys(e: Entry)
    ensures forall i :: 0 <= i < |Extension(e)| ==> IsKey(Extension(e)[i].key)
  {
  }

  lemma LastIsPrinted(e: Entry)
    ensures |Extension(e)| > 0 && Extension(e)[|Extension(e)| - 1].value != ""
  {
  }

  /** For every entry and version, the reader recovers the header and exactly the non-blank pairs. */
  lemma RoundTrip(e: Entry, version: string)
    ensures Parse(CefText(e, version)) == Some(Message(Header(e, version), NonBlank(Extension(e))))
  {
    ExtensionKeys(e);
    LastIsPrinted(e);
    NonBlankKeys(Extension(e));
    NonBlankKeepsLast(Extension(e));
    FieldsRead(Header(e, version), ExtensionText(NonBlank(Extension(e))));
    PairsRead(NonBlank(Extension(e)));
  }
}
