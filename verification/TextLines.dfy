/** Newline-terminated lines: printing a list of them and reading a text back into lines. */
module TextLines {

  /** Each line followed by a newline. */
  function Stream(lines: seq<string>): string {
    if lines == [] then "" else lines[0] + "\n" + Stream(lines[1..])
  }

  /** The complete lines of a stream, and what follows the last newline. */
  function Lines(s: string): (r: (seq<string>, string)) {
    if s == "" then ([], "")
    else
      var (lines, tail) := Lines(s[1..]);
      if s[0] == '\n' then ([""] + lines, tail)
      else if lines == [] then ([], [s[0]] + tail)
      else ([[s[0]] + lines[0]] + lines[1..], tail)
  }

  function Newlines(s: string): nat {
    if s == "" then 0 else (if s[0] == '\n' then 1 else 0) + Newlines(s[1..])
  }

  lemma {:induction false} LineReads(line: string, rest: string)
    requires '\n' !in line
    ensures Lines(line + "\n" + rest) == ([line] + Lines(rest).0, Lines(rest).1)
    decreases |line|
  {
    var s := line + "\n" + rest;
    if line == "" {
      assert s == "\n" + rest && s[1..] == rest;
    } else {
      assert s[1..] == line[1..] + "\n" + rest;
      LineReads(line[1..], rest);
      assert [line[0]] + line[1..] == line;
      assert ([line[1..]] + Lines(rest).0)[1..] == Lines(rest).0;
    }
  }

  lemma {:induction false} TailReads(s: string)
    requires '\n' !in s
    ensures Lines(s) == ([], s)
    decreases |s|
  {
    if s != "" {
      TailReads(s[1..]);
      assert [s[0]] + s[1..] == s;
    }
  }

  lemma {:induction false} StreamReads(lines: seq<string>, tail: string)
    requires (forall i :: 0 <= i < |lines| ==> '\n' !in lines[i]) && '\n' !in tail
    ensures Lines(Stream(lines) + tail) == (lines, tail)
    decreases |lines|
  {
    if lines == [] {
      assert Stream(lines) + tail == tail;
      TailReads(tail);
    } else {
      assert Stream(lines) + tail == lines[0] + "\n" + (Stream(lines[1..]) + tail);
      LineReads(lines[0], Stream(lines[1..]) + tail);
      StreamReads(lines[1..], tail);
      assert [lines[0]] + lines[1..] == lines;
    }
  }

  lemma {:induction false} OneLinePerNewline(s: string)
    ensures |Lines(s).0| == Newlines(s)
    decreases |s|
  {
    if s != "" { OneLinePerNewline(s[1..]); }
  }

  lemma {:induction false} NewlinesAdd(a: string, b: string)
    ensures Newlines(a + b) == Newlines(a) + Newlines(b)
    decreases |a|
  {
    if a == "" {
      assert a + b == b;
    } else {
      assert (a + b)[1..] == a[1..] + b;
      NewlinesAdd(a[1..], b);
    }
  }

  lemma {:induction false} SomeNewline(s: string)
    ensures '\n' in s <==> Newlines(s) > 0
    decreases |s|
  {
    if s != "" {
      SomeNewline(s[1..]);
      assert s == [s[0]] + s[1..];
    }
  }

  lemma {:induction false} StreamNewlines(lines: seq<string>)
    ensures Newlines(Stream(lines)) >= |lines|
    ensures forall i :: 0 <= i < |lines| && '\n' in lines[i] ==> Newlines(Stream(lines)) > |lines|
    decreases |lines|
  {
    if lines != [] {
      var rest := Stream(lines[1..]);
      StreamNewlines(lines[1..]);
      assert Stream(lines) == lines[0] + ("\n" + rest);
      NewlinesAdd(lines[0], "\n" + rest);
      assert ("\n" + rest)[1..] == rest;
      SomeNewline(lines[0]);
      forall i | 0 <= i < |lines| && '\n' in lines[i] ensures Newlines(Stream(lines)) > |lines| {
        if i > 0 { assert lines[1..][i - 1] == lines[i]; }
      }
    }
  }

  /** A stream splits back into its lines exactly when none of them contains a newline. */
  lemma StreamSplitsExactlyWhen(lines: seq<string>)
    ensures Lines(Stream(lines)).0 == lines <==> forall i :: 0 <= i < |lines| ==> '\n' !in lines[i]
  {
    if forall i :: 0 <= i < |lines| ==> '\n' !in lines[i] {
      StreamReads(lines, "");
      assert Stream(lines) + "" == Stream(lines);
    } else {
      StreamNewlines(lines);
      OneLinePerNewline(Stream(lines));
    }
  }

  /** One more line at the end of a stream. */
  lemma {:induction false} StreamGrows(lines: seq<string>, line: string)
    ensures Stream(lines + [line]) == Stream(lines) + (line + "\n")
    decreases |lines|
  {
    if lines == [] {
      assert lines + [line] == [line] && [line][1..] == [];
      assert Stream([line]) == line + "\n" + "";
    } else {
      assert (lines + [line])[1..] == lines[1..] + [line];
      StreamGrows(lines[1..], line);
      var first, rest := lines[0] + "\n", Stream(lines[1..]);
      assert first + (rest + (line + "\n")) == first + rest + (line + "\n");
    }
  }
}
