/** The clean-up of a model's reply before it is parsed as JSON (internal/ai/openai_compatible.go:379-395). */
module CodeFence {
  import opened Sequences

  const FENCE := "```"

  /** Go's unicode.IsSpace. */
  predicate IsSpace(c: char) {
    || '\t' <= c <= '\r' || c == ' ' || c == '\U{0085}' || c == '\U{00A0}' || c == '\U{1680}'
    || '\U{2000}' <= c <= '\U{200A}' || c == '\U{2028}' || c == '\U{2029}' || c == '\U{202F}' || c == '\U{205F}'
    || c == '\U{3000}'
  }

  predicate AllSpace(s: string) {
    forall i :: 0 <= i < |s| ==> IsSpace(s[i])
  }

  function TrimLeft(s: string): string {
    if s != "" && IsSpace(s[0]) then TrimLeft(s[1..]) else s
  }

  function TrimRight(s: string): string {
    if s != "" && IsSpace(s[|s| - 1]) then TrimRight(s[..|s| - 1]) else s
  }

  /** strings.TrimSpace. */
  function TrimSpace(s: string): string {
    TrimLeft(TrimRight(s))
  }

  predicate HasPrefix(s: string, p: string) {
    p <= s
  }

  /** The index of the first newline, or -1 (strings.IndexByte). */
  function IndexNewline(s: string): (i: int)
    ensures -1 <= i < |s|
  {
    if s == "" then -1
    else if s[0] == '\n' then 0
    else
      var i := IndexNewline(s[1..]);
      if i < 0 then -1 else i + 1
  }

  /** Contains a space, a tab, `{` or `[`, and so is not taken for a language tag. */
  predicate NotATag(s: string) {
    exists i :: 0 <= i < |s| && s[i] in " \t{["
  }

  /** strings.TrimRight(s, "\n "). */
  function TrimNewlines(s: string): string {
    if s != "" && s[|s| - 1] in "\n " then TrimNewlines(s[..|s| - 1]) else s
  }

  /** strings.TrimSuffix(s, "```"). */
  function WithoutFence(s: string): string {
    if |s| >= 3 && s[|s| - 3..] == FENCE then s[..|s| - 3] else s
  }

  /** The text after the opening fence, once a first line that looks like a language tag is dropped. */
  function Inner(text: string): string {
    var nl := IndexNewline(text);
    if nl >= 0 && !NotATag(text[..nl]) then text[nl + 1..] else text
  }

  /** openai_compatible.go:382-395. */
  function StripCodeFence(s: string): string {
    if !HasPrefix(s, FENCE) then s
    else TrimSpace(WithoutFence(TrimNewlines(Inner(s[3..]))))
  }

  // ---------------------------------------------------------------- what it does

  lemma {:induction false} FirstNewline(first: string, rest: string)
    requires '\n' !in first
    ensures IndexNewline(first + "\n" + rest) == |first|
    decreases |first|
  {
    var s := first + "\n" + rest;
    if first == "" {
      assert s == "\n" + rest;
    } else {
      assert s[1..] == first[1..] + "\n" + rest;
      FirstNewline(first[1..], rest);
    }
  }

  lemma {:induction false} NoNewline(s: string)
    requires '\n' !in s
    ensures IndexNewline(s) == -1
    decreases |s|
  {
    if s != "" { NoNewline(s[1..]); }
  }

  lemma FencedEnd(s: string)
    ensures WithoutFence(TrimNewlines(s + FENCE)) == s
  {
    var t := s + FENCE;
    assert t[|t| - 1] == '`' && t[|t| - 3..] == FENCE && t[..|t| - 3] == s;
  }

  lemma {:induction false} IndexStays(s: string, tail: string)
    requires '\n' !in tail
    ensures IndexNewline(s + tail) == IndexNewline(s)
    decreases |s|
  {
    if s == "" {
      assert s + tail == tail;
      NoNewline(tail);
    } else {
      assert (s + tail)[1..] == s[1..] + tail;
      IndexStays(s[1..], tail);
    }
  }

  /** Every text between two fences, whatever it contains, comes out trimmed and without its tag line. */
  lemma FencedText(text: string)
    ensures StripCodeFence(FENCE + text + FENCE) == TrimSpace(Inner(text))
  {
    var s := FENCE + text + FENCE;
    var rest := text + FENCE;
    assert s[3..] == rest;
    IndexStays(text, FENCE);
    var nl := IndexNewline(text);
    if nl >= 0 {
      assert rest[..nl] == text[..nl];
      assert rest[nl + 1..] == text[nl + 1..] + FENCE;
    }
    FencedEnd(Inner(text));
    assert Inner(text) + FENCE == if nl >= 0 && !NotATag(text[..nl]) then rest[nl + 1..] else rest;
  }

  lemma TaggedInner(tag: string, body: string)
    requires '\n' !in tag && !NotATag(tag)
    ensures TrimSpace(Inner(tag + "\n" + body + "\n")) == TrimSpace(body)
  {
    var text := tag + "\n" + body + "\n";
    assert text == tag + "\n" + (body + "\n");
    FirstNewline(tag, body + "\n");
    assert text[..|tag|] == tag && text[|tag| + 1..] == body + "\n";
    assert (body + "\n")[..|body|] == body;
  }

  /** The usual shape: a tag line, the body and a closing fence on its own line. */
  lemma TaggedFence(tag: string, body: string)
    requires '\n' !in tag && !NotATag(tag)
    ensures StripCodeFence(FENCE + tag + "\n" + body + "\n" + FENCE) == TrimSpace(body)
  {
    Regroup(FENCE, tag, "\n", body);
    Regroup(FENCE, tag + "\n" + body, "\n", FENCE);
    FencedText(tag + "\n" + body + "\n");
    TaggedInner(tag, body);
  }

  /** A first line with a brace or a bracket is part of the answer and not a tag, so it is kept. */
  lemma OpeningBraceIsKept(first: string, body: string, c: char)
    requires '\n' !in first && c in first && (c == '{' || c == '[' || c == ' ' || c == '\t')
    ensures StripCodeFence(FENCE + (first + "\n" + body) + FENCE) == TrimSpace(first + "\n" + body)
  {
    FencedText(first + "\n" + body);
    FirstNewline(first, body);
    assert (first + "\n" + body)[..|first|] == first;
    var i :| 0 <= i < |first| && first[i] == c;
    assert NotATag(first);
  }

  /** A fence on one line: a text with no newline is taken whole. */
  lemma OneLineFence(text: string)
    requires '\n' !in text
    ensures StripCodeFence(FENCE + text + FENCE) == TrimSpace(text)
  {
    FencedText(text);
    NoNewline(text);
  }

  // ---------------------------------------------------------------- which texts are left alone

  lemma {:induction false} TrimNewlinesIsPrefix(s: string)
    ensures TrimNewlines(s) <= s
    decreases |s|
  {
    if s != "" && s[|s| - 1] in "\n " { TrimNewlinesIsPrefix(s[..|s| - 1]); }
  }

  /** An opening fence is always dropped, so what is left is at least three characters shorter. */
  lemma OpeningFenceGoes(s: string)
    requires HasPrefix(s, FENCE)
    ensures |StripCodeFence(s)| <= |s| - 3
  {
    var body := Inner(s[3..]);
    TrimNewlinesIsPrefix(body);
    var a, b := TrimSpaceCuts(WithoutFence(TrimNewlines(body)));
  }

  /** Text is left alone exactly when it does not begin with a fence. */
  lemma UntouchedExactlyWhen(s: string)
    ensures StripCodeFence(s) == s <==> !HasPrefix(s, FENCE)
  {
    if HasPrefix(s, FENCE) { OpeningFenceGoes(s); }
  }

  /** Begins with a fence and, but for newlines and spaces, ends with another. */
  predicate FencedAtBothEnds(s: string) {
    var t := TrimNewlines(s);
    HasPrefix(s, FENCE) && |t| >= 6 && t[|t| - 3..] == FENCE
  }

  /** What the comment in the source asks for: only strip when both ends match. */
  predicate StrippedOnlyIfFenced(s: string) {
    StripCodeFence(s) == s || FencedAtBothEnds(s)
  }

  /** The code does as its comment says exactly on texts without an opening fence and on texts with both fences. */
  lemma CommentHoldsExactlyWhen(s: string)
    ensures StrippedOnlyIfFenced(s) <==> (HasPrefix(s, FENCE) ==> FencedAtBothEnds(s))
  {
    UntouchedExactlyWhen(s);
  }

  lemma {:induction false} TrimAfterTrim(s: string)
    ensures TrimRight(TrimNewlines(s)) == TrimRight(s)
    decreases |s|
  {
    if s != "" && s[|s| - 1] in "\n " { TrimAfterTrim(s[..|s| - 1]); }
  }

  lemma TagLineGoes(tag: string, nl: string, body: string)
    requires nl == "\n" && '\n' !in tag && !NotATag(tag)
    ensures Inner(tag + nl + body) == body
  {
    FirstNewline(tag, body);
    assert (tag + nl + body)[..|tag|] == tag && (tag + nl + body)[|tag| + 1..] == body;
  }

  /**
   * The source's comment says that only text fenced at both ends is stripped.
   * The code also drops an opening fence that is never closed.
   */
  lemma UnclosedFence(tag: string, body: string)
    requires '\n' !in tag && !NotATag(tag) && WithoutFence(TrimNewlines(body)) == TrimNewlines(body)
    ensures StripCodeFence(FENCE + tag + "\n" + body) == TrimSpace(body)
  {
    Regroup(FENCE, tag, "\n", body);
    assert (FENCE + (tag + "\n" + body))[3..] == tag + "\n" + body;
    TagLineGoes(tag, "\n", body);
    TrimAfterTrim(body);
  }

  // ---------------------------------------------------------------- TrimSpace, independently

  lemma {:induction false} TrimRightCuts(s: string)
    ensures TrimRight(s) <= s && AllSpace(s[|TrimRight(s)|..])
    ensures TrimRight(s) == "" || !IsSpace(TrimRight(s)[|TrimRight(s)| - 1])
    decreases |s|
  {
    if s != "" && IsSpace(s[|s| - 1]) {
      TrimRightCuts(s[..|s| - 1]);
      var t := TrimRight(s);
      assert s[|t|..] == s[..|s| - 1][|t|..] + [s[|s| - 1]];
    }
  }

  lemma {:induction false} TrimLeftCuts(s: string)
    ensures |TrimLeft(s)| <= |s| && TrimLeft(s) == s[|s| - |TrimLeft(s)|..] && AllSpace(s[..|s| - |TrimLeft(s)|])
    ensures TrimLeft(s) == "" || !IsSpace(TrimLeft(s)[0])
    decreases |s|
  {
    if s != "" && IsSpace(s[0]) {
      TrimLeftCuts(s[1..]);
      var n := |s| - |TrimLeft(s)|;
      assert s[n..] == s[1..][n - 1..];
      assert s[..n] == [s[0]] + s[1..][..n - 1];
    }
  }

  /** TrimSpace cuts space off both ends and nothing else. */
  lemma TrimSpaceCuts(s: string) returns (a: string, b: string)
    ensures s == a + TrimSpace(s) + b && AllSpace(a) && AllSpace(b)
  {
    var u, t := TrimRight(s), TrimSpace(s);
    TrimRightCuts(s);
    TrimLeftCuts(u);
    a, b := u[..|u| - |t|], s[|u|..];
    assert u == a + t && s == u + b;
  }

  /** And it leaves none there. */
  lemma TrimSpaceLeavesNone(s: string)
    ensures var t := TrimSpace(s); t == "" || (!IsSpace(t[0]) && !IsSpace(t[|t| - 1]))
  {
    var u, t := TrimRight(s), TrimSpace(s);
    TrimRightCuts(s);
    TrimLeftCuts(u);
    if t != "" { assert t[|t| - 1] == u[|u| - 1]; }
  }

  /** Only white space trims to nothing. */
  lemma BlankExactlyWhen(s: string)
    ensures TrimSpace(s) == "" <==> forall i :: 0 <= i < |s| ==> IsSpace(s[i])
  {
    var a, b := TrimSpaceCuts(s);
    TrimSpaceLeavesNone(s);
    if TrimSpace(s) == "" {
      assert s == a + b;
    } else {
      assert s[|a|] == TrimSpace(s)[0];
    }
  }

  lemma NothingToTrim(s: string)
    requires s != "" && !IsSpace(s[0]) && !IsSpace(s[|s| - 1])
    ensures TrimSpace(s) == s
  {
  }
}
