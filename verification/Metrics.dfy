/**
 * The call counter of internal/ai/metrics.go and its hand-written renderer,
 * against a reader of the Prometheus text exposition format 0.0.4.
 */
module Metrics {
  import opened Options
  import opened Sequences
  import opened Sorting
  import opened TextLines
  import Decimal

  const MIN_INT64 := -0x8000_0000_0000_0000
  const MAX_INT64 := 0x7fff_ffff_ffff_ffff

  /** Go's `int` on the platforms the service is built for. */
  type Int64 = v: int | MIN_INT64 <= v <= MAX_INT64

  /** Two's-complement wrap-around. */
  function Wrap(v: int): Int64 {
    (v - MIN_INT64) % 0x1_0000_0000_0000_0000 + MIN_INT64
  }

  datatype CallKey = CallKey(feature: string, model: string, outcome: string)

  /** The comparator of the renderer (metrics.go:89-97). */
  predicate KeyLess(a: CallKey, b: CallKey) {
    if a.feature != b.feature then StringLess(a.feature, b.feature)
    else if a.model != b.model then StringLess(a.model, b.model)
    else StringLess(a.outcome, b.outcome)
  }

  predicate KeyLeq(a: CallKey, b: CallKey) {
    a == b || KeyLess(a, b)
  }

  /** The comparator is a strict total order on distinct keys. */
  lemma KeyOrder()
    ensures TotalOrder(KeyLeq)
    ensures forall a, b :: KeyLess(a, b) ==> !KeyLess(b, a)
  {
    forall a, b ensures KeyLeq(a, b) || KeyLeq(b, a) {
      StringLessTotal(a.feature, b.feature);
      StringLessTotal(a.model, b.model);
      StringLessTotal(a.outcome, b.outcome);
    }
    forall a, b | KeyLess(a, b) ensures !KeyLess(b, a) {
      if KeyLess(b, a) {
        var x, y := if a.feature != b.feature then a.feature else if a.model != b.model then a.model else a.outcome,
                    if a.feature != b.feature then b.feature else if a.model != b.model then b.model else b.outcome;
        StringLessTransitive(x, y, x);
        StringLessIrreflexive(x);
      }
    }
    forall a, b, c | KeyLeq(a, b) && KeyLeq(b, c) ensures KeyLeq(a, c) {
      KeyTransitive(a, b, c);
    }
  }

  lemma KeyTransitive(a: CallKey, b: CallKey, c: CallKey)
    requires KeyLeq(a, b) && KeyLeq(b, c)
    ensures KeyLeq(a, c)
  {
    if a != b && b != c {
      if a.feature != b.feature && b.feature != c.feature {
        StringLessTransitive(a.feature, b.feature, c.feature);
        if a.feature == c.feature { StringLessIrreflexive(a.feature); }
      } else if a.feature == b.feature == c.feature {
        if a.model != b.model && b.model != c.model {
          StringLessTransitive(a.model, b.model, c.model);
          if a.model == c.model { StringLessIrreflexive(a.model); }
        } else if a.model == b.model == c.model {
          StringLessTransitive(a.outcome, b.outcome, c.outcome);
          if a.outcome == c.outcome { StringLessIrreflexive(a.outcome); }
        }
      }
    }
  }

  // ---------------------------------------------------------------- decimal numbers

  /** What appendInt writes: the canonical numeral, except for the one value whose negation wraps. */
  function IntText(v: Int64): string {
    if v == MIN_INT64 then "-" else Decimal.Text(v)
  }

  lemma SignAndDigits(v: Int64)
    requires v != 0
    ensures v < 0 ==> Wrap(0 - v) == if v == MIN_INT64 then v else 0 - v
    ensures IntText(v) == if v > 0 then Decimal.Digits(v)
                          else if v == MIN_INT64 then "-" else "-" + Decimal.Digits(0 - v)
  {
  }

  lemma TenToThe19()
    ensures Decimal.Pow10(19) > MAX_INT64
  {
    assert Decimal.Pow10(10) == 10000000000;
  }

  /**
   * The loop at metrics.go:153-161: the digits are written backwards into a
   * buffer of twenty bytes, whose indices Dafny checks. A value that is not
   * positive leaves the buffer alone.
   */
  method DigitsBackwards(value: Int64) returns (digits: string)
    ensures digits == if value > 0 then Decimal.Digits(value) else ""
  {
    if value <= 0 {
      return "";
    }
    var v: nat := value;
    var buf := new char[20];
    var i := buf.Length;
    TenToThe19();
    assert buf[20..] == "";
    while v > 0
      invariant 1 <= i <= 20 && v < Decimal.Pow10(i - 1)
      invariant Decimal.Digits(value) == Decimal.Digits(v) + buf[i..]
    {
      i := i - 1;
      buf[i] := Decimal.Digit(v % 10);
      assert buf[i..] == [Decimal.Digit(v % 10)] + buf[i + 1..];
      assert v / 10 < Decimal.Pow10(i - 1) by { assert Decimal.Pow10(i) == 10 * Decimal.Pow10(i - 1); }
      v := v / 10;
    }
    digits := buf[i..];
  }

  /** metrics.go:144-162. */
  method AppendInt(b: string, value: Int64) returns (r: string)
    ensures r == b + IntText(value)
  {
    if value == 0 {
      return b + "0";
    }
    r := b;
    var v := value;
    SignAndDigits(value);
    if v < 0 {
      r := r + "-";
      v := Wrap(0 - v as int);
    }
    var digits := DigitsBackwards(v);
    r := r + digits;
  }

  // ---------------------------------------------------------------- label values

  function LabelRune(c: char): string {
    if c == '\\' then "\\\\" else if c == '"' then "\\\"" else if c == '\n' then "\\n" else [c]
  }

  function EscapedLabel(s: string): string {
    if s == "" then "" else LabelRune(s[0]) + EscapedLabel(s[1..])
  }

  predicate IsSpecial(c: char) {
    c == '\\' || c == '"' || c == '\n'
  }

  /** Has a rune that must be escaped. */
  predicate NeedsEscape(s: string) {
    exists i :: 0 <= i < |s| && IsSpecial(s[i])
  }

  lemma {:induction false} PlainLabel(s: string)
    requires !NeedsEscape(s)
    ensures EscapedLabel(s) == s
    decreases |s|
  {
    if s != "" {
      assert !IsSpecial(s[0]);
      forall i | 0 <= i < |s[1..]| ensures !IsSpecial(s[1..][i]) { assert s[1..][i] == s[i + 1]; }
      PlainLabel(s[1..]);
      assert [s[0]] + s[1..] == s;
    }
  }

  lemma EscapedStep(s: string, i: nat, r: string)
    requires i < |s|
    ensures r + EscapedLabel(s[i..]) == r + LabelRune(s[i]) + EscapedLabel(s[i + 1..])
  {
    assert s[i..][1..] == s[i + 1..];
    assert r + (LabelRune(s[i]) + EscapedLabel(s[i + 1..])) == r + LabelRune(s[i]) + EscapedLabel(s[i + 1..]);
  }

  /** metrics.go:120-139. */
  method EscapeLabel(s: string) returns (r: string)
    ensures r == EscapedLabel(s)
  {
    if !NeedsEscape(s) {
      PlainLabel(s);
      return s;
    }
    r := "";
    for i := 0 to |s|
      invariant r + EscapedLabel(s[i..]) == EscapedLabel(s)
    {
      var piece := [s[i]];
      if s[i] == '\\' {
        piece := "\\\\";
      } else if s[i] == '"' {
        piece := "\\\"";
      } else if s[i] == '\n' {
        piece := "\\n";
      }
      assert piece == LabelRune(s[i]);
      EscapedStep(s, i, r);
      r := r + piece;
    }
    assert s[|s|..] == "" && r + "" == r;
  }

  // ---------------------------------------------------------------- the rendering

  const METRIC := "mqconnector_ai_calls_total"
  const HELP := "#" + (" HELP " + (METRIC + (" AI provider calls by feature," + " model, and outcome")))
  const TYPE := "#" + (" TYPE " + (METRIC + " counter"))

  datatype Label = Label(name: string, value: string)

  function Labels(k: CallKey): seq<Label> {
    [Label("feature", k.feature), Label("model", k.model), Label("outcome", k.outcome)]
  }

  function LabelText(l: Label): string {
    l.name + "=\"" + EscapedLabel(l.value) + "\""
  }

  function LabelsText(labels: seq<Label>): string {
    if labels == [] then ""
    else if |labels| == 1 then LabelText(labels[0])
    else LabelText(labels[0]) + "," + LabelsText(labels[1..])
  }

  /** One series, without its newline. */
  function SeriesLine(k: CallKey, v: Int64): string {
    METRIC + ("{" + (LabelsText(Labels(k)) + ("}" + (" " + IntText(v)))))
  }

  function SeriesLines(keys: seq<CallKey>, counts: map<CallKey, Int64>): seq<string>
    requires forall k :: k in keys ==> k in counts
  {
    if keys == [] then []
    else SeriesLines(keys[..|keys| - 1], counts) + [SeriesLine(keys[|keys| - 1], counts[keys[|keys| - 1]])]
  }

  /** The two comment lines, then one line per series. */
  function RenderedLines(keys: seq<CallKey>, counts: map<CallKey, Int64>): seq<string>
    requires forall k :: k in keys ==> k in counts
  {
    [HELP, TYPE] + SeriesLines(keys, counts)
  }

  /** The keys of the map in the order of the comparator. */
  ghost function SortedKeys(counts: map<CallKey, Int64>): (keys: seq<CallKey>)
    ensures Distinct(keys) && SortedBy(KeyLeq, keys) && forall k :: k in keys <==> k in counts
  {
    KeyOrder();
    Ordered(KeyLeq, counts.Keys)
  }

  /** The whole exposition: a function of the counter map alone. */
  ghost function Rendering(counts: map<CallKey, Int64>): string {
    Stream(RenderedLines(SortedKeys(counts), counts))
  }

  lemma SortingGivesTheKeys(counts: map<CallKey, Int64>, keys: seq<CallKey>)
    requires Distinct(keys) && forall k :: k in keys <==> k in counts.Keys
    ensures Sort(KeyLeq, keys) == SortedKeys(counts)
  {
    KeyOrder();
    SortGivesTheOrdering(KeyLeq, keys, counts.Keys);
  }

  /** One more call with the labels of `k`. */
  function Incremented(counts: map<CallKey, Int64>, k: CallKey): map<CallKey, Int64> {
    counts[k := Wrap(Count(counts, k) + 1)]
  }

  /** A missing key reads as zero. */
  function Count(counts: map<CallKey, Int64>, k: CallKey): int {
    if k in counts then counts[k] else 0
  }

  lemma ThreeLabels(a: Label, b: Label, c: Label)
    ensures LabelsText([a, b, c]) == LabelText(a) + "," + (LabelText(b) + "," + LabelText(c))
  {
    assert [a, b, c][1..] == [b, c] && [b, c][1..] == [c];
    assert LabelsText([c]) == LabelText(c) && LabelsText([b, c]) == LabelText(b) + "," + LabelText(c);
  }

  lemma RenderingGrows(keys: seq<CallKey>, i: nat, counts: map<CallKey, Int64>)
    requires i < |keys| && forall k :: k in keys ==> k in counts
    ensures Stream(RenderedLines(keys[..i + 1], counts)) ==
            Stream(RenderedLines(keys[..i], counts)) + (SeriesLine(keys[i], counts[keys[i]]) + "\n")
  {
    assert keys[..i + 1][..i] == keys[..i] && keys[..i + 1][i] == keys[i];
    RenderedGrows(keys[..i + 1], counts);
    StreamGrows(RenderedLines(keys[..i], counts), SeriesLine(keys[i], counts[keys[i]]));
  }

  /** The calls counted so far; a nil receiver counts nothing. */
  class CallCounter {
    var counts: map<CallKey, Int64>

    constructor ()
      ensures counts == map[]
    {
      counts := map[];
    }

    /** metrics.go:35-46; a nil map and an empty one are not told apart here. */
    static method Inc(c: CallCounter?, feature: string, model: string, outcome: string)
      modifies c
      ensures c != null ==> c.counts == Incremented(old(c.counts), CallKey(feature, model, outcome))
    {
      if c == null {
        return;
      }
      var k := CallKey(feature, model, outcome);
      c.counts := c.counts[k := Wrap(Count(c.counts, k) + 1)];
    }

    /** metrics.go:71-112; the map's keys come in any order. */
    static method Prometheus(c: CallCounter?) returns (out: string)
      ensures c == null ==> out == Stream([HELP, TYPE])
      ensures c != null ==> out == Rendering(c.counts)
    {
      out := Stream([HELP, TYPE]);
      if c == null {
        return;
      }
      var keys := CollectKeys(c.counts);
      SortingGivesTheKeys(c.counts, keys);
      keys := Sort(KeyLeq, keys);
      assert keys[..0] == [];
      assert [HELP, TYPE] + [] == [HELP, TYPE];
      for i := 0 to |keys|
        invariant out == Stream(RenderedLines(keys[..i], c.counts))
      {
        var line := RenderSeries(keys[i], c.counts[keys[i]]);
        RenderingGrows(keys, i, c.counts);
        out := out + (line + "\n");
      }
      assert keys[..|keys|] == keys;
    }

    /** metrics.go:79-82. */
    static method CollectKeys(counts: map<CallKey, Int64>) returns (keys: seq<CallKey>)
      ensures Distinct(keys) && forall k :: k in keys <==> k in counts.Keys
    {
      keys := [];
      var todo := counts.Keys;
      while todo != {}
        invariant todo <= counts.Keys && Distinct(keys) && forall k :: k in keys <==> k in counts.Keys - todo
        decreases |todo|
      {
        var k :| k in todo;
        assert k !in keys;
        keys, todo := keys + [k], todo - {k};
      }
    }

    /** metrics.go:99-108. */
    static method RenderSeries(k: CallKey, v: Int64) returns (line: string)
      ensures line == SeriesLine(k, v)
    {
      var f := EscapeLabel(k.feature);
      var m := EscapeLabel(k.model);
      var o := EscapeLabel(k.outcome);
      var more := "model" + "=\"" + m + "\"" + "," + ("outcome" + "=\"" + o + "\"");
      var labels := "feature" + "=\"" + f + "\"" + "," + more;
      ThreeLabels(Label("feature", k.feature), Label("model", k.model), Label("outcome", k.outcome));
      var number := AppendInt("", v);
      assert "" + IntText(v) == IntText(v);
      line := METRIC + ("{" + (labels + ("}" + (" " + number))));
    }
  }

  // ---------------------------------------------------------------- an independent reader

  /** One sample line of the exposition format, without a timestamp and with an integer value. */
  datatype Sample = Sample(metric: string, labels: seq<Label>, value: int)

  predicate IsNameChar(c: char) {
    'a' <= c <= 'z' || 'A' <= c <= 'Z' || '0' <= c <= '9' || c == '_' || c == ':'
  }

  /** The longest run of name characters, and the rest. */
  function TakeName(s: string): (r: (string, string))
    ensures |r.1| <= |s|
  {
    if s == "" || !IsNameChar(s[0]) then ("", s)
    else
      var (name, rest) := TakeName(s[1..]);
      ([s[0]] + name, rest)
  }

  /** A label value up to its closing quote, with `\\`, `\"` and `\n` undone. */
  function TakeQuoted(s: string): (r: Option<(string, string)>)
    ensures r.Some? ==> |r.value.1| < |s|
  {
    if s == "" || s[0] == '\n' then None
    else if s[0] == '"' then Some(("", s[1..]))
    else if s[0] == '\\' then
      if |s| == 1 || s[1] !in "\\\"n" then None
      else
        match TakeQuoted(s[2..])
        case None => None
        case Some((value, rest)) => Some(([if s[1] == 'n' then '\n' else s[1]] + value, rest))
    else
      match TakeQuoted(s[1..])
      case None => None
      case Some((value, rest)) => Some(([s[0]] + value, rest))
  }

  /** `name="value"` pairs separated by commas, up to the closing brace. */
  function TakeLabels(s: string): Option<(seq<Label>, string)>
    decreases |s|
  {
    if s != "" && s[0] == '}' then Some(([], s[1..]))
    else
      var (name, afterName) := TakeName(s);
      if name == "" || |afterName| < 2 || afterName[0] != '=' || afterName[1] != '"' then None
      else
        match TakeQuoted(afterName[2..])
        case None => None
        case Some((value, rest)) =>
          if rest == "" || (rest[0] != ',' && rest[0] != '}') then None
          else if rest[0] == '}' then Some(([Label(name, value)], rest[1..]))
          else
            match TakeLabels(rest[1..])
            case None => None
            case Some((more, tail)) => Some(([Label(name, value)] + more, tail))
  }

  function SkipBlanks(s: string): string {
    if s != "" && (s[0] == ' ' || s[0] == '\t') then SkipBlanks(s[1..]) else s
  }

  function ParseValue(metric: string, labels: seq<Label>, s: string): Option<Sample> {
    var number := SkipBlanks(s);
    if Decimal.IsNumeral(number) then Some(Sample(metric, labels, Decimal.Read(number))) else None
  }

  function ParseSample(line: string): Option<Sample> {
    var (metric, rest) := TakeName(line);
    if metric == "" then None
    else if rest != "" && rest[0] == '{' then
      match TakeLabels(rest[1..])
      case None => None
      case Some((labels, tail)) => ParseValue(metric, labels, tail)
    else ParseValue(metric, [], rest)
  }

  /** The samples of a list of lines; comment lines and blank lines carry none. */
  function ParseLines(lines: seq<string>): Option<seq<Sample>> {
    if lines == [] then Some([])
    else
      match ParseLines(lines[..|lines| - 1])
      case None => None
      case Some(before) =>
        var line := SkipBlanks(lines[|lines| - 1]);
        if line == "" || line[0] == '#' then Some(before)
        else
          match ParseSample(line)
          case None => None
          case Some(sample) => Some(before + [sample])
  }

  /** A text whose last line ends in a newline, as the format requires. */
  function ParseExposition(text: string): Option<seq<Sample>> {
    var (lines, tail) := Lines(text);
    if tail != "" then None else ParseLines(lines)
  }

  function LabelValue(labels: seq<Label>, name: string): string {
    if labels == [] then "" else if labels[0].name == name then labels[0].value else LabelValue(labels[1..], name)
  }

  function KeyOf(s: Sample): CallKey {
    CallKey(LabelValue(s.labels, "feature"), LabelValue(s.labels, "model"), LabelValue(s.labels, "outcome"))
  }

  /** The counter map that the samples describe, each key once; None if one comes twice. */
  function MapOf(samples: seq<Sample>): Option<map<CallKey, int>> {
    if samples == [] then Some(map[])
    else
      var last := samples[|samples| - 1];
      match MapOf(samples[..|samples| - 1])
      case None => None
      case Some(before) => if KeyOf(last) in before then None else Some(before[KeyOf(last) := last.value])
  }

  // ---------------------------------------------------------------- reading back what was printed

  lemma {:induction false} NameReads(name: string, rest: string)
    requires (forall i :: 0 <= i < |name| ==> IsNameChar(name[i])) && (rest != "" ==> !IsNameChar(rest[0]))
    ensures TakeName(name + rest) == (name, rest)
    decreases |name|
  {
    if name == "" {
      assert name + rest == rest;
    } else {
      assert (name + rest)[1..] == name[1..] + rest;
      NameReads(name[1..], rest);
      assert [name[0]] + name[1..] == name;
    }
  }

  lemma QuotedRune(c: char, tail: string, value: string, rest: string)
    requires TakeQuoted(tail) == Some((value, rest))
    ensures TakeQuoted(LabelRune(c) + tail) == Some(([c] + value, rest))
  {
    var s := LabelRune(c) + tail;
    assert if |LabelRune(c)| == 2 then s[2..] == tail else s[1..] == tail;
  }

  lemma {:induction false} QuotedReads(value: string, rest: string)
    ensures TakeQuoted(EscapedLabel(value) + "\"" + rest) == Some((value, rest))
    decreases |value|
  {
    if value == "" {
      assert EscapedLabel(value) + "\"" + rest == "\"" + rest && ("\"" + rest)[1..] == rest;
    } else {
      QuotedReads(value[1..], rest);
      Regroup(LabelRune(value[0]), EscapedLabel(value[1..]), "\"", rest);
      QuotedRune(value[0], EscapedLabel(value[1..]) + "\"" + rest, value[1..], rest);
      assert [value[0]] + value[1..] == value;
    }
  }

  predicate IsName(s: string) {
    s != "" && forall i :: 0 <= i < |s| ==> IsNameChar(s[i])
  }

  /** A name, then `="`, then a text that reads as a quoted value. */
  lemma NameAndQuoted(name: string, eq: string, quoted: string, value: string, after: string)
    requires IsName(name) && eq == "=\"" && TakeQuoted(quoted) == Some((value, after))
    requires after != "" && (after[0] == ',' || after[0] == '}')
    ensures TakeLabels(name + (eq + quoted)) ==
            if after[0] == '}' then Some(([Label(name, value)], after[1..]))
            else match TakeLabels(after[1..])
                 case None => None
                 case Some((more, tail)) => Some(([Label(name, value)] + more, tail))
  {
    var s := name + (eq + quoted);
    NameReads(name, eq + quoted);
    assert s[0] == name[0] && (eq + quoted)[2..] == quoted;
  }

  /** One label in front of a text that starts with a comma or the closing brace. */
  lemma LabelReads(l: Label, after: string)
    requires IsName(l.name) && after != "" && (after[0] == ',' || after[0] == '}')
    ensures TakeLabels(LabelText(l) + after) ==
            if after[0] == '}' then Some(([l], after[1..]))
            else match TakeLabels(after[1..])
                 case None => None
                 case Some((more, tail)) => Some(([l] + more, tail))
  {
    Regroup(l.name + "=\"", EscapedLabel(l.value), "\"", after);
    Regroup(l.name, "=\"", EscapedLabel(l.value) + "\"" + after, "");
    QuotedReads(l.value, after);
    NameAndQuoted(l.name, "=\"", EscapedLabel(l.value) + "\"" + after, l.value, after);
  }

  lemma LabelBefore(l: Label, text: string, rest: string, more: seq<Label>)
    requires IsName(l.name) && TakeLabels(text + ("}" + rest)) == Some((more, rest))
    ensures TakeLabels((LabelText(l) + "," + text) + ("}" + rest)) == Some(([l] + more, rest))
  {
    var after := "," + (text + ("}" + rest));
    LabelReads(l, after);
    assert after[1..] == text + ("}" + rest);
    Regroup(LabelText(l), ",", text, "}" + rest);
  }

  lemma {:induction false} LabelsRead(labels: seq<Label>, rest: string)
    requires |labels| > 0 && forall i :: 0 <= i < |labels| ==> IsName(labels[i].name)
    ensures TakeLabels(LabelsText(labels) + ("}" + rest)) == Some((labels, rest))
    decreases |labels|
  {
    var first, later := labels[0], labels[1..];
    assert labels == [first] + later;
    if later == [] {
      LabelReads(first, "}" + rest);
      assert ("}" + rest)[1..] == rest && [first] == labels;
    } else {
      LabelsRead(later, rest);
      LabelBefore(first, LabelsText(later), rest, later);
    }
  }

  lemma NumberStarts(v: Int64)
    ensures IntText(v) != "" && (IntText(v)[0] == '-' || Decimal.IsDigit(IntText(v)[0]))
    ensures Decimal.IsNumeral(IntText(v)) <==> v != MIN_INT64
    ensures v != MIN_INT64 ==> Decimal.Read(IntText(v)) == v
    ensures '\n' !in IntText(v)
  {
    Decimal.TextReads(v);
    if v == MIN_INT64 { assert IntText(v)[1..] == ""; }
  }

  /** A number after one blank. */
  lemma ValueReads(metric: string, labels: seq<Label>, v: Int64)
    ensures ParseValue(metric, labels, " " + IntText(v))
         == if v == MIN_INT64 then None else Some(Sample(metric, labels, v))
  {
    NumberStarts(v);
    assert (" " + IntText(v))[1..] == IntText(v);
    assert SkipBlanks(" " + IntText(v)) == SkipBlanks(IntText(v)) == IntText(v);
  }

  lemma BracedReads(metric: string, text: string, labels: seq<Label>, number: string)
    requires IsName(metric) && TakeLabels(text + ("}" + number)) == Some((labels, number))
    ensures ParseSample(metric + ("{" + (text + ("}" + number)))) == ParseValue(metric, labels, number)
  {
    var rest := "{" + (text + ("}" + number));
    NameReads(metric, rest);
    assert rest[1..] == text + ("}" + number);
  }

  lemma StartsLikeAName(metric: string, rest: string)
    requires IsName(metric)
    ensures metric + rest != "" && SkipBlanks(metric + rest) == metric + rest && (metric + rest)[0] != '#'
  {
    assert (metric + rest)[0] == metric[0];
  }

  lemma NamesAreNames()
    ensures IsName(METRIC) && IsName("feature") && IsName("model") && IsName("outcome")
  {
  }

  lemma SeriesReads(k: CallKey, v: Int64)
    ensures ParseSample(SeriesLine(k, v)) == if v == MIN_INT64 then None else Some(Sample(METRIC, Labels(k), v))
    ensures SeriesLine(k, v) != "" && SkipBlanks(SeriesLine(k, v)) == SeriesLine(k, v) && SeriesLine(k, v)[0] != '#'
  {
    NamesAreNames();
    LabelsRead(Labels(k), " " + IntText(v));
    BracedReads(METRIC, LabelsText(Labels(k)), Labels(k), " " + IntText(v));
    ValueReads(METRIC, Labels(k), v);
    StartsLikeAName(METRIC, "{" + (LabelsText(Labels(k)) + ("}" + (" " + IntText(v)))));
  }

  /** The samples the counter map should read back as. */
  function Samples(keys: seq<CallKey>, counts: map<CallKey, Int64>): seq<Sample>
    requires forall k :: k in keys ==> k in counts
  {
    if keys == [] then []
    else
      var k := keys[|keys| - 1];
      Samples(keys[..|keys| - 1], counts) + [Sample(METRIC, Labels(k), counts[k])]
  }

  lemma ParseOneMore(lines: seq<string>, line: string)
    ensures ParseLines(lines + [line]) ==
            match ParseLines(lines)
            case None => None
            case Some(before) =>
              var text := SkipBlanks(line);
              if text == "" || text[0] == '#' then Some(before)
              else match ParseSample(text)
                   case None => None
                   case Some(sample) => Some(before + [sample])
  {
    assert (lines + [line])[..|lines|] == lines;
  }

  lemma CommentCarriesNothing(lines: seq<string>, text: string)
    ensures ParseLines(lines + ["#" + text]) == ParseLines(lines)
  {
    ParseOneMore(lines, "#" + text);
    assert ("#" + text)[0] == '#' && SkipBlanks("#" + text) == "#" + text;
  }

  lemma CommentsCarryNothing()
    ensures ParseLines([HELP, TYPE]) == Some([])
  {
    var help := " HELP " + (METRIC + (" AI provider calls by feature," + " model, and outcome"));
    var more := " TYPE " + (METRIC + " counter");
    CommentCarriesNothing([], help);
    CommentCarriesNothing(["#" + help], more);
    assert ["#" + help] + ["#" + more] == ["#" + help, "#" + more] && [] + ["#" + help] == ["#" + help];
  }

  lemma CommentsAreOneLine()
    ensures '\n' !in HELP && '\n' !in TYPE
  {
    assert '\n' !in METRIC by { NamesAreNames(); }
    assert '\n' !in " HELP " && '\n' !in " TYPE " && '\n' !in " counter";
    assert '\n' !in " AI provider calls by feature,";
    assert '\n' !in " model, and outcome";
  }

  lemma {:induction false} RenderedLinesRead(keys: seq<CallKey>, counts: map<CallKey, Int64>)
    requires forall k :: k in keys ==> k in counts
    ensures ParseLines(RenderedLines(keys, counts)) ==
            if Printable(keys, counts) then Some(Samples(keys, counts)) else None
    decreases |keys|
  {
    if keys == [] {
      CommentsCarryNothing();
      assert [HELP, TYPE] + [] == [HELP, TYPE];
    } else {
      var before, k := keys[..|keys| - 1], keys[|keys| - 1];
      RenderedLinesRead(before, counts);
      RenderedGrows(keys, counts);
      OneMoreSeries(RenderedLines(before, counts), k, counts[k]);
      PrintableGrows(keys, counts);
    }
  }

  ghost predicate Printable(keys: seq<CallKey>, counts: map<CallKey, Int64>)
    requires forall k :: k in keys ==> k in counts
  {
    forall k :: k in keys ==> counts[k] != MIN_INT64
  }

  lemma PrintableGrows(keys: seq<CallKey>, counts: map<CallKey, Int64>)
    requires keys != [] && forall k :: k in keys ==> k in counts
    ensures Printable(keys, counts) <==>
            Printable(keys[..|keys| - 1], counts) && counts[keys[|keys| - 1]] != MIN_INT64
  {
    assert keys == keys[..|keys| - 1] + [keys[|keys| - 1]];
  }

  lemma OneMoreSeries(lines: seq<string>, k: CallKey, v: Int64)
    ensures ParseLines(lines + [SeriesLine(k, v)]) ==
            if ParseLines(lines) == None || v == MIN_INT64 then None
            else Some(ParseLines(lines).value + [Sample(METRIC, Labels(k), v)])
  {
    SeriesReads(k, v);
    OneMoreSample(lines, SeriesLine(k, v));
  }

  lemma OneMoreSample(lines: seq<string>, line: string)
    requires line != "" && SkipBlanks(line) == line && line[0] != '#'
    ensures ParseLines(lines + [line]) ==
            if ParseLines(lines) == None || ParseSample(line) == None then None
            else Some(ParseLines(lines).value + [ParseSample(line).value])
  {
    ParseOneMore(lines, line);
  }

  lemma RenderedGrows(keys: seq<CallKey>, counts: map<CallKey, Int64>)
    requires keys != [] && forall k :: k in keys ==> k in counts
    ensures var before, k := keys[..|keys| - 1], keys[|keys| - 1];
            RenderedLines(keys, counts) == RenderedLines(before, counts) + [SeriesLine(k, counts[k])]
  {
    var before, k := keys[..|keys| - 1], keys[|keys| - 1];
    assert [HELP, TYPE] + (SeriesLines(before, counts) + [SeriesLine(k, counts[k])])
        == [HELP, TYPE] + SeriesLines(before, counts) + [SeriesLine(k, counts[k])];
  }

  lemma {:induction false} EscapedHasNoNewline(s: string)
    ensures '\n' !in EscapedLabel(s)
    decreases |s|
  {
    if s != "" { EscapedHasNoNewline(s[1..]); }
  }

  lemma {:induction false} LabelsAreOneLine(labels: seq<Label>)
    requires forall i :: 0 <= i < |labels| ==> IsName(labels[i].name)
    ensures '\n' !in LabelsText(labels)
    decreases |labels|
  {
    if labels != [] {
      EscapedHasNoNewline(labels[0].value);
      assert '\n' !in labels[0].name;
      assert '\n' !in LabelText(labels[0]);
      LabelsAreOneLine(labels[1..]);
    }
  }

  lemma SeriesIsOneLine(k: CallKey, v: Int64)
    ensures '\n' !in SeriesLine(k, v)
  {
    NamesAreNames();
    LabelsAreOneLine(Labels(k));
    NumberStarts(v);
    assert '\n' !in METRIC;
  }

  lemma {:induction false} EveryLineIsOneLine(keys: seq<CallKey>, counts: map<CallKey, Int64>)
    requires forall k :: k in keys ==> k in counts
    ensures |RenderedLines(keys, counts)| == 2 + |keys|
    ensures forall i :: 0 <= i < |RenderedLines(keys, counts)| ==> '\n' !in RenderedLines(keys, counts)[i]
    decreases |keys|
  {
    if keys == [] {
      CommentsAreOneLine();
    } else {
      EveryLineIsOneLine(keys[..|keys| - 1], counts);
      RenderedGrows(keys, counts);
      SeriesIsOneLine(keys[|keys| - 1], counts[keys[|keys| - 1]]);
    }
  }

  lemma LabelsGiveTheKey(k: CallKey, v: int)
    ensures KeyOf(Sample(METRIC, Labels(k), v)) == k
  {
    var l := Labels(k);
    assert l[1..][0] == l[1] && l[1..][1..][0] == l[2];
    assert LabelValue(l, "feature") == k.feature;
    assert LabelValue(l[1..], "model") == k.model && LabelValue(l, "model") == k.model;
    assert LabelValue(l[1..][1..], "outcome") == k.outcome;
    assert LabelValue(l[1..], "outcome") == k.outcome && LabelValue(l, "outcome") == k.outcome;
  }

  /** The entries of `counts` under `keys`. */
  function Restricted(keys: seq<CallKey>, counts: map<CallKey, Int64>): map<CallKey, int>
    requires forall k :: k in keys ==> k in counts
  {
    map k | k in keys :: counts[k]
  }

  lemma MapOneMore(samples: seq<Sample>, sample: Sample, before: map<CallKey, int>, k: CallKey)
    requires MapOf(samples) == Some(before) && KeyOf(sample) == k && k !in before
    ensures MapOf(samples + [sample]) == Some(before[k := sample.value])
  {
    assert (samples + [sample])[..|samples|] == samples;
  }

  lemma {:induction false} SamplesGiveTheMap(keys: seq<CallKey>, counts: map<CallKey, Int64>)
    requires Distinct(keys) && forall k :: k in keys ==> k in counts
    ensures MapOf(Samples(keys, counts)) == Some(Restricted(keys, counts))
    decreases |keys|
  {
    if keys != [] {
      var before, k := keys[..|keys| - 1], keys[|keys| - 1];
      assert keys == before + [k];
      SamplesGiveTheMap(before, counts);
      LabelsGiveTheKey(k, counts[k]);
      MapOneMore(Samples(before, counts), Sample(METRIC, Labels(k), counts[k]), Restricted(before, counts), k);
      RestrictedGrows(before, k, counts);
    }
  }

  lemma RestrictedGrows(before: seq<CallKey>, k: CallKey, counts: map<CallKey, Int64>)
    requires forall q :: q in before + [k] ==> q in counts
    ensures Restricted(before + [k], counts) == Restricted(before, counts)[k := counts[k]]
  {
  }

  /**
   * For arbitrary label strings: every series is one line, and the exposition
   * reads back as exactly the counter map, unless a counter stands at the one
   * value appendInt cannot print; then it does not read at all.
   */
  lemma RoundTrip(counts: map<CallKey, Int64>)
    ensures |Lines(Rendering(counts)).0| == 2 + |counts| && Lines(Rendering(counts)).1 == ""
    ensures ParseExposition(Rendering(counts)).Some? <==> forall k :: k in counts ==> counts[k] != MIN_INT64
    ensures ParseExposition(Rendering(counts)).Some? ==>
              MapOf(ParseExposition(Rendering(counts)).value) == Some(counts)
  {
    RenderingSplits(counts);
    OrderingSize(SortedKeys(counts), counts.Keys);
    KeysRoundTrip(counts, SortedKeys(counts));
  }

  lemma KeysRoundTrip(counts: map<CallKey, Int64>, keys: seq<CallKey>)
    requires Distinct(keys) && forall k :: k in keys <==> k in counts
    ensures ParseLines(RenderedLines(keys, counts)).Some? <==> forall k :: k in counts ==> counts[k] != MIN_INT64
    ensures ParseLines(RenderedLines(keys, counts)).Some? ==>
              MapOf(ParseLines(RenderedLines(keys, counts)).value) == Some(counts)
  {
    RenderedLinesRead(keys, counts);
    assert Printable(keys, counts) <==> forall k :: k in counts ==> counts[k] != MIN_INT64;
    SamplesGiveTheMap(keys, counts);
    assert Restricted(keys, counts) == counts;
  }

  lemma RenderingSplits(counts: map<CallKey, Int64>)
    ensures Lines(Rendering(counts)) == (RenderedLines(SortedKeys(counts), counts), "")
    ensures |RenderedLines(SortedKeys(counts), counts)| == 2 + |SortedKeys(counts)|
    ensures ParseExposition(Rendering(counts)) == ParseLines(RenderedLines(SortedKeys(counts), counts))
  {
    var lines := RenderedLines(SortedKeys(counts), counts);
    EveryLineIsOneLine(SortedKeys(counts), counts);
    StreamReads(lines, "");
    assert Stream(lines) + "" == Stream(lines);
  }

  /** By feature, then by model, then by outcome. */
  predicate ComesFirst(a: CallKey, b: CallKey) {
    || StringLess(a.feature, b.feature)
    || (a.feature == b.feature && StringLess(a.model, b.model))
    || (a.feature == b.feature && a.model == b.model && StringLess(a.outcome, b.outcome))
  }

  lemma {:induction false} SampleAt(keys: seq<CallKey>, counts: map<CallKey, Int64>, i: nat)
    requires i < |keys| && forall k :: k in keys ==> k in counts
    ensures |Samples(keys, counts)| == |keys| && KeyOf(Samples(keys, counts)[i]) == keys[i]
    decreases |keys|
  {
    var last := |keys| - 1;
    LabelsGiveTheKey(keys[last], counts[keys[last]]);
    if i < last { SampleAt(keys[..last], counts, i); }
    else if last > 0 { SampleAt(keys[..last], counts, 0); }
  }

  /** The series stand in the order of feature, then model, then outcome, each compared as a string. */
  lemma SeriesAreInOrder(counts: map<CallKey, Int64>, i: nat, j: nat)
    requires ParseExposition(Rendering(counts)).Some? && i < j < |counts|
    ensures var samples := ParseExposition(Rendering(counts)).value;
            |samples| == |counts| && ComesFirst(KeyOf(samples[i]), KeyOf(samples[j]))
  {
    var keys := SortedKeys(counts);
    RenderingSplits(counts);
    RenderedLinesRead(keys, counts);
    OrderingSize(keys, counts.Keys);
    SampleAt(keys, counts, i);
    SampleAt(keys, counts, j);
    assert KeyLeq(keys[i], keys[j]) && keys[i] != keys[j];
    StringLessIrreflexive(keys[i].outcome);
  }

  // ---------------------------------------------------------------- counting

  /** The counter after a sequence of calls, from a fresh one. */
  function CountsAfter(calls: seq<CallKey>): map<CallKey, Int64> {
    if calls == [] then map[] else Incremented(CountsAfter(calls[..|calls| - 1]), calls[|calls| - 1])
  }

  /** A series exists for exactly the keys called, and counts its calls, wrapping as the machine integer does. */
  lemma {:induction false} CounterCounts(calls: seq<CallKey>)
    ensures forall k :: k in CountsAfter(calls) <==> k in calls
    ensures forall k :: Count(CountsAfter(calls), k) == Wrap(multiset(calls)[k])
    decreases |calls|
  {
    if calls != [] {
      var before, last := calls[..|calls| - 1], calls[|calls| - 1];
      CounterCounts(before);
      assert calls == before + [last];
      forall k ensures Count(CountsAfter(calls), k) == Wrap(multiset(calls)[k]) {
        WrapAgain(multiset(before)[k]);
      }
    }
  }

  lemma WrapAgain(n: int)
    ensures Wrap(Wrap(n) + 1) == Wrap(n + 1)
  {
    var m := 0x1_0000_0000_0000_0000;
    var a := n - MIN_INT64;
    assert a % m == a - m * (a / m);
    ModAgain(a + 1, a / m, m);
  }

  lemma ModAgain(a: int, k: int, m: int)
    requires m > 0
    ensures (a - m * k) % m == a % m
  {
    var q, r := a / m, a % m;
    assert a - m * k == m * (q - k) + r;
    DivUnique(a - m * k, q - k, r, m);
  }

  lemma SmallMultiple(m: int, d: int)
    requires m > 0 && -m < m * d < m
    ensures d == 0
  {
  }

  lemma DivUnique(a: int, q: int, r: int, m: int)
    requires m > 0 && a == m * q + r && 0 <= r < m
    ensures a % m == r
  {
    var q', r' := a / m, a % m;
    assert a == m * q' + r';
    assert m * (q - q') == m * q - m * q';
    SmallMultiple(m, q - q');
  }

  lemma {:induction false} MultisetSize<T>(a: seq<T>, x: T)
    ensures multiset(a)[x] <= |a|
    decreases |a|
  {
    if a != [] {
      assert a == [a[0]] + a[1..];
      MultisetSize(a[1..], x);
    }
  }

  lemma CounterIsExact(calls: seq<CallKey>, k: CallKey)
    requires |calls| <= MAX_INT64
    ensures Count(CountsAfter(calls), k) == multiset(calls)[k]
  {
    CounterCounts(calls);
    MultisetSize(calls, k);
  }

  /** A counter driven by Inc is exact, and can be printed, as long as it has been called fewer than 2^63 times. */
  lemma CounterIsPrintable(calls: seq<CallKey>)
    requires |calls| <= MAX_INT64
    ensures ParseExposition(Rendering(CountsAfter(calls))).Some?
    ensures forall k :: Count(CountsAfter(calls), k) == multiset(calls)[k]
  {
    var counts := CountsAfter(calls);
    forall k ensures Count(counts, k) == multiset(calls)[k] {
      CounterIsExact(calls, k);
    }
    assert forall k :: k in counts ==> counts[k] == Count(counts, k);
    RoundTrip(counts);
  }
}
