/**
 * SigV4 header canonicalisation (internal/audit/s3.go:193-212): an in-place
 * insertion sort of the lower-cased names, then one `name:value` line for each.
 */
module SigV4 {
  import opened Options
  import opened Sorting
  import opened TextLines
  import CodeFence

  /** strings.ToLower, on the ASCII letters that header names are made of. */
  function LowerRune(c: char): char {
    if 'A' <= c <= 'Z' then c - 'A' + 'a' else c
  }

  function Lower(s: string): string {
    if s == "" then "" else [LowerRune(s[0])] + Lower(s[1..])
  }

  function LowerAll(names: seq<string>): seq<string> {
    if names == [] then [] else LowerAll(names[..|names| - 1]) + [Lower(names[|names| - 1])]
  }

  // ---------------------------------------------------------------- the insertion sort

  /** The inner loop's state: sorted on both sides of `j`, and everything before `j` at most everything after it. */
  ghost predicate SortedBut(s: seq<string>, j: nat, end: nat)
    requires j < end <= |s|
  {
    forall a, b :: 0 <= a < b < end && b != j ==> StringLeq(s[a], s[b])
  }

  lemma SwapKeepsAll(s: seq<string>, t: seq<string>, j: nat)
    requires 0 < j < |s| && |t| == |s| && t == s[j - 1 := s[j]][j := s[j - 1]]
    ensures multiset(t) == multiset(s)
  {
    assert s == s[..j - 1] + [s[j - 1], s[j]] + s[j + 1..];
    assert t == s[..j - 1] + [s[j], s[j - 1]] + s[j + 1..];
  }

  lemma SwapDown(s: seq<string>, t: seq<string>, j: nat, end: nat)
    requires 0 < j < end <= |s| && t == s[j - 1 := s[j]][j := s[j - 1]]
    requires SortedBut(s, j, end) && StringLess(s[j], s[j - 1])
    ensures SortedBut(t, j - 1, end)
  {
    forall a, b | 0 <= a < b < end && b != j - 1 ensures StringLeq(t[a], t[b]) {
      if a == j - 1 && b > j { assert StringLeq(s[j], s[b]); }
      if a == j { assert StringLeq(s[j - 1], s[b]); }
      if a < j - 1 && b == j { assert StringLeq(s[a], s[j - 1]); }
    }
  }

  lemma SortedWhenInPlace(s: seq<string>, j: nat, end: nat)
    requires j < end <= |s| && SortedBut(s, j, end) && (j == 0 || !StringLess(s[j], s[j - 1]))
    ensures SortedBy(StringLeq, s[..end])
  {
    StringOrder();
    if j > 0 {
      StringLessTotal(s[j - 1], s[j]);
      forall a | 0 <= a < j ensures StringLeq(s[a], s[j]) {
        if a < j - 1 { assert StringLeq(s[a], s[j - 1]); }
      }
    }
  }

  lemma OneMoreToPlace(s: seq<string>, i: nat)
    requires i < |s| && SortedBy(StringLeq, s[..i])
    ensures SortedBut(s, i, i + 1)
  {
    forall a, b | 0 <= a < b < i + 1 && b != i ensures StringLeq(s[a], s[b]) {
      assert s[..i][a] == s[a] && s[..i][b] == s[b];
    }
  }

  /** The inner loop at s3.go:200-202. */
  method MoveDown(keys: array<string>, i: nat)
    requires i < keys.Length && SortedBy(StringLeq, keys[..i])
    modifies keys
    ensures SortedBy(StringLeq, keys[..i + 1]) && multiset(keys[..]) == multiset(old(keys[..]))
  {
    var j := i;
    OneMoreToPlace(keys[..], i);
    assert keys[..][..i] == keys[..i];
    while j > 0 && StringLess(keys[j], keys[j - 1])
      invariant 0 <= j <= i && SortedBut(keys[..], j, i + 1)
      invariant multiset(keys[..]) == multiset(old(keys[..]))
    {
      ghost var before := keys[..];
      keys[j - 1], keys[j] := keys[j], keys[j - 1];
      assert keys[..] == before[j - 1 := before[j]][j := before[j - 1]];
      SwapKeepsAll(before, keys[..], j);
      SwapDown(before, keys[..], j, i + 1);
      j := j - 1;
    }
    SortedWhenInPlace(keys[..], j, i + 1);
    assert keys[..][..i + 1] == keys[..i + 1];
  }

  /** s3.go:198-203. */
  method InsertionSort(keys: array<string>)
    modifies keys
    ensures SortedBy(StringLeq, keys[..]) && multiset(keys[..]) == multiset(old(keys[..]))
  {
    var i := 1;
    while i < keys.Length
      invariant 1 <= i && (i == 1 || i <= keys.Length)
      invariant i <= keys.Length ==> SortedBy(StringLeq, keys[..i])
      invariant multiset(keys[..]) == multiset(old(keys[..]))
    {
      MoveDown(keys, i);
      i := i + 1;
    }
    assert i == keys.Length ==> keys[..i] == keys[..];
  }

  // ---------------------------------------------------------------- the two blocks

  /** A missing key reads as the empty string. */
  function Get(h: map<string, string>, k: string): string {
    if k in h then h[k] else ""
  }

  /** The header lines, without their newlines. */
  function HeaderLines(h: map<string, string>, keys: seq<string>): seq<string> {
    if keys == [] then []
    else HeaderLines(h, keys[..|keys| - 1]) + [keys[|keys| - 1] + (":" + CodeFence.TrimSpace(Get(h, keys[|keys| - 1])))]
  }

  /** strings.Join(keys, ";"). */
  function Join(keys: seq<string>): string {
    if keys == [] then "" else if |keys| == 1 then keys[0] else Join(keys[..|keys| - 1]) + (";" + keys[|keys| - 1])
  }

  ghost predicate Enumerates(names: seq<string>, h: map<string, string>) {
    Distinct(names) && forall k :: k in names <==> k in h
  }

  /** `keys` is what canonicalize sorts the map's names into. */
  ghost predicate CanonicalKeys(h: map<string, string>, keys: seq<string>) {
    SortedBy(StringLeq, keys) &&
    exists names :: Enumerates(names, h) && multiset(keys) == multiset(LowerAll(names))
  }

  /** s3.go:193-212; the map's keys come in any order. */
  method Canonicalize(h: map<string, string>) returns (signed: string, canonical: string)
    ensures exists keys :: CanonicalKeys(h, keys) && signed == Join(keys) && canonical == Stream(HeaderLines(h, keys))
  {
    var lowered, names := LowerNames(h);
    var sorted := new string[|lowered|](i requires 0 <= i < |lowered| => lowered[i]);
    assert sorted[..] == lowered;
    InsertionSort(sorted);
    ghost var keys := sorted[..];
    assert CanonicalKeys(h, keys);
    canonical := "";
    var i := 0;
    while i < sorted.Length
      invariant 0 <= i <= sorted.Length && sorted[..] == keys
      invariant canonical == Stream(HeaderLines(h, keys[..i]))
    {
      var line := sorted[i] + (":" + CodeFence.TrimSpace(Get(h, sorted[i])));
      HeaderLinesGrow(h, keys, i);
      canonical := canonical + (line + "\n");
      i := i + 1;
    }
    assert keys[..sorted.Length] == keys;
    signed := Join(sorted[..]);
  }

  lemma HeaderLinesGrow(h: map<string, string>, keys: seq<string>, i: nat)
    requires i < |keys|
    ensures Stream(HeaderLines(h, keys[..i + 1]))
         == Stream(HeaderLines(h, keys[..i])) + (keys[i] + (":" + CodeFence.TrimSpace(Get(h, keys[i]))) + "\n")
  {
    assert keys[..i + 1][..i] == keys[..i];
    StreamGrows(HeaderLines(h, keys[..i]), keys[i] + (":" + CodeFence.TrimSpace(Get(h, keys[i]))));
  }

  method LowerNames(h: map<string, string>) returns (lowered: seq<string>, ghost names: seq<string>)
    ensures Enumerates(names, h) && lowered == LowerAll(names)
  {
    lowered, names := [], [];
    var todo := h.Keys;
    while todo != {}
      invariant todo <= h.Keys && lowered == LowerAll(names)
      invariant Distinct(names)
      invariant forall k :: k in names <==> k in h.Keys - todo
      decreases |todo|
    {
      var k :| k in todo;
      assert k !in names;
      assert (names + [k])[..|names|] == names;
      lowered, names, todo := lowered + [Lower(k)], names + [k], todo - {k};
    }
  }

  // ---------------------------------------------------------------- independence of the map's order

  lemma Around<T>(head: seq<T>, x: T, tail: seq<T>)
    ensures multiset(head + ([x] + tail)) == multiset(head + tail) + multiset{x}
  {
  }

  lemma LowerAround(head: seq<string>, x: string, tail: seq<string>)
    ensures multiset(LowerAll(head + ([x] + tail))) == multiset(LowerAll(head + tail)) + multiset{Lower(x)}
  {
    LowerConcat(head, [x] + tail);
    LowerConcat([x], tail);
    LowerConcat(head, tail);
    assert [x][..0] == [] && LowerAll([x]) == [Lower(x)];
    Around(LowerAll(head), Lower(x), LowerAll(tail));
  }

  lemma {:induction false} LowerPermutes(a: seq<string>, b: seq<string>)
    requires multiset(a) == multiset(b)
    ensures multiset(LowerAll(a)) == multiset(LowerAll(b))
    decreases |a|
  {
    assert |multiset(a)| == |a| && |multiset(b)| == |b|;
    if a != [] {
      var before, x, head, tail := SameTaken(a, b);
      LowerPermutes(before, head + tail);
      LowerAround(head, x, tail);
      LowerAround(before, x, []);
      assert before + ([x] + []) == a && before + [] == before;
    }
  }

  /** The last element of `a`, taken out of a permutation `b` of it too. */
  lemma SameTaken<T>(a: seq<T>, b: seq<T>) returns (before: seq<T>, x: T, head: seq<T>, tail: seq<T>)
    requires multiset(a) == multiset(b) && a != []
    ensures a == before + [x] && b == head + ([x] + tail) && multiset(before) == multiset(head + tail)
  {
    before, x := a[..|a| - 1], a[|a| - 1];
    assert a == before + [x];
    assert x in multiset(b);
    var i :| 0 <= i < |b| && b[i] == x;
    head, tail := b[..i], b[i + 1..];
    assert b == head + ([x] + tail);
    Around(head, x, tail);
    assert multiset(before) == multiset(a) - multiset{x};
  }

  lemma {:induction false} LowerConcat(a: seq<string>, b: seq<string>)
    ensures LowerAll(a + b) == LowerAll(a) + LowerAll(b)
    decreases |b|
  {
    if b == [] {
      assert a + b == a;
    } else {
      assert (a + b)[..|a + b| - 1] == a + b[..|b| - 1];
      LowerConcat(a, b[..|b| - 1]);
    }
  }

  /** Whatever order the map is read in, the sorted names, and so both blocks, are the same. */
  lemma CanonicalKeysAreUnique(h: map<string, string>, a: seq<string>, b: seq<string>)
    requires CanonicalKeys(h, a) && CanonicalKeys(h, b)
    ensures a == b
  {
    var m :| Enumerates(m, h) && multiset(a) == multiset(LowerAll(m));
    var n :| Enumerates(n, h) && multiset(b) == multiset(LowerAll(n));
    SameElements(m, n);
    LowerPermutes(m, n);
    StringOrder();
    SortedIsUnique(StringLeq, a, b);
  }

  // ---------------------------------------------------------------- reading the canonical lines back

  /** The text before the first `:`, and the text after it. */
  function SplitColon(s: string): Option<(string, string)> {
    if s == "" then None
    else if s[0] == ':' then Some(("", s[1..]))
    else
      match SplitColon(s[1..])
      case None => None
      case Some((name, value)) => Some(([s[0]] + name, value))
  }

  /** The name-value pairs of a list of header lines; None if a line has no colon or a name comes twice. */
  function ReadHeaders(lines: seq<string>): Option<map<string, string>> {
    if lines == [] then Some(map[])
    else
      match (ReadHeaders(lines[..|lines| - 1]), SplitColon(lines[|lines| - 1]))
      case (Some(before), Some((name, value))) => if name in before then None else Some(before[name := value])
      case _ => None
  }

  function ReadBlock(block: string): Option<map<string, string>> {
    var (lines, tail) := Lines(block);
    if tail != "" then None else ReadHeaders(lines)
  }

  /** The names between semicolons. */
  function SplitNames(s: string): (r: seq<string>)
    ensures |r| > 0
  {
    if s == "" then [""]
    else if s[0] == ';' then [""] + SplitNames(s[1..])
    else
      var rest := SplitNames(s[1..]);
      [[s[0]] + rest[0]] + rest[1..]
  }

  function Trimmed(h: map<string, string>): map<string, string> {
    map k | k in h :: CodeFence.TrimSpace(h[k])
  }

  /** Names and values that header syntax allows. */
  ghost predicate Wellformed(h: map<string, string>) {
    forall k :: k in h ==> ':' !in k && '\n' !in k && '\n' !in h[k]
  }

  lemma {:induction false} ColonReads(name: string, value: string)
    requires ':' !in name
    ensures SplitColon(name + (":" + value)) == Some((name, value))
    decreases |name|
  {
    var s := name + (":" + value);
    if name == "" {
      assert s == ":" + value && s[1..] == value;
    } else {
      assert s[1..] == name[1..] + (":" + value);
      ColonReads(name[1..], value);
      assert [name[0]] + name[1..] == name;
    }
  }

  /** The names of `keys` with their trimmed values. */
  function Block(h: map<string, string>, keys: seq<string>): map<string, string> {
    map k | k in keys :: CodeFence.TrimSpace(Get(h, k))
  }

  lemma HeadersReadOneMore(lines: seq<string>, name: string, value: string)
    requires ':' !in name
    ensures ReadHeaders(lines + [name + (":" + value)]) ==
            match ReadHeaders(lines)
            case None => None
            case Some(before) => if name in before then None else Some(before[name := value])
  {
    ColonReads(name, value);
    assert (lines + [name + (":" + value)])[..|lines|] == lines;
  }

  lemma BlockGrows(h: map<string, string>, keys: seq<string>, k: string)
    ensures Block(h, keys + [k]) == Block(h, keys)[k := CodeFence.TrimSpace(Get(h, k))]
  {
  }

  lemma {:induction false} HeadersRead(h: map<string, string>, keys: seq<string>)
    requires Distinct(keys) && forall k :: k in keys ==> ':' !in k
    ensures ReadHeaders(HeaderLines(h, keys)) == Some(Block(h, keys))
    decreases |keys|
  {
    if keys != [] {
      var before, k := keys[..|keys| - 1], keys[|keys| - 1];
      assert keys == before + [k];
      assert k in keys && k !in before;
      HeadersRead(h, before);
      HeadersReadOneMore(HeaderLines(h, before), k, CodeFence.TrimSpace(Get(h, k)));
      BlockGrows(h, before, k);
    }
  }

  lemma TrimHasNoNewline(s: string)
    requires '\n' !in s
    ensures '\n' !in CodeFence.TrimSpace(s)
  {
    var a, b := CodeFence.TrimSpaceCuts(s);
    assert forall c :: c in CodeFence.TrimSpace(s) ==> c in s;
  }

  lemma {:induction false} HeaderLinesAreLines(h: map<string, string>, keys: seq<string>)
    requires forall k :: k in keys ==> '\n' !in k && '\n' !in Get(h, k)
    ensures forall i :: 0 <= i < |HeaderLines(h, keys)| ==> '\n' !in HeaderLines(h, keys)[i]
    decreases |keys|
  {
    if keys != [] {
      var k := keys[|keys| - 1];
      assert k in keys;
      HeaderLinesAreLines(h, keys[..|keys| - 1]);
      TrimHasNoNewline(Get(h, k));
    }
  }

  lemma BlockReads(h: map<string, string>, keys: seq<string>)
    requires Distinct(keys) && forall k :: k in keys ==> ':' !in k && '\n' !in k && '\n' !in Get(h, k)
    ensures ReadBlock(Stream(HeaderLines(h, keys))) == Some(Block(h, keys))
  {
    HeadersRead(h, keys);
    HeaderLinesAreLines(h, keys);
    StreamReads(HeaderLines(h, keys), "");
    assert Stream(HeaderLines(h, keys)) + "" == Stream(HeaderLines(h, keys));
  }

  lemma {:induction false} LastNameReads(s: string)
    requires ';' !in s
    ensures SplitNames(s) == [s]
    decreases |s|
  {
    if s != "" {
      LastNameReads(s[1..]);
      assert [s[0]] + s[1..] == s;
    }
  }

  lemma {:induction false} NamesAppend(s: string, name: string)
    requires ';' !in name
    ensures SplitNames(s + (";" + name)) == SplitNames(s) + [name]
    decreases |s|
  {
    if s == "" {
      assert s + (";" + name) == ";" + name && (";" + name)[1..] == name;
      LastNameReads(name);
    } else {
      assert (s + (";" + name))[1..] == s[1..] + (";" + name);
      NamesAppend(s[1..], name);
    }
  }

  /** The signed-header list names exactly the canonical lines' names, in the same order. */
  lemma {:induction false} SignedNamesRead(keys: seq<string>)
    requires keys != [] && forall k :: k in keys ==> ';' !in k
    ensures SplitNames(Join(keys)) == keys
    decreases |keys|
  {
    var last := |keys| - 1;
    assert keys[last] in keys;
    if last == 0 {
      LastNameReads(keys[0]);
    } else {
      SignedNamesRead(keys[..last]);
      NamesAppend(Join(keys[..last]), keys[last]);
      assert keys[..last] + [keys[last]] == keys;
    }
  }

  // ---------------------------------------------------------------- exactly when nothing is lost

  lemma {:induction false} LowerAllIsLower(names: seq<string>)
    ensures |LowerAll(names)| == |names| && forall i :: 0 <= i < |names| ==> LowerAll(names)[i] == Lower(names[i])
    decreases |names|
  {
    if names != [] { LowerAllIsLower(names[..|names| - 1]); }
  }

  lemma {:induction false} LowerTwice(s: string)
    ensures Lower(Lower(s)) == Lower(s)
    decreases |s|
  {
    if s != "" { LowerTwice(s[1..]); }
  }

  /** The canonical keys are the lower-cased names of the map. */
  lemma KeysAreLowerNames(h: map<string, string>, keys: seq<string>, key: string)
    requires CanonicalKeys(h, keys)
    ensures key in keys <==> exists k :: k in h && Lower(k) == key
  {
    var names :| Enumerates(names, h) && multiset(keys) == multiset(LowerAll(names));
    LowerAllIsLower(names);
    PermutationKeepsElements(keys, LowerAll(names));
    if key in keys {
      var i :| 0 <= i < |names| && LowerAll(names)[i] == key;
      assert names[i] in h;
    }
    if k :| k in h && Lower(k) == key {
      assert k in names;
      var i :| 0 <= i < |names| && names[i] == k;
      assert LowerAll(names)[i] == key;
    }
  }

  /** No two names of the map differ only in case. */
  ghost predicate NoCaseClash(h: map<string, string>) {
    forall a, b :: a in h && b in h && Lower(a) == Lower(b) ==> a == b
  }

  lemma LoweredAreDistinct(h: map<string, string>, names: seq<string>)
    requires Enumerates(names, h)
    ensures Distinct(LowerAll(names)) <==> NoCaseClash(h)
  {
    LowerAllIsLower(names);
    if Distinct(LowerAll(names)) {
      forall a, b | a in h && b in h && Lower(a) == Lower(b) ensures a == b {
        assert a in names && b in names;
        var i :| 0 <= i < |names| && names[i] == a;
        var j :| 0 <= j < |names| && names[j] == b;
        assert LowerAll(names)[i] == LowerAll(names)[j];
      }
    }
    if NoCaseClash(h) {
      forall i, j | 0 <= i < j < |names| ensures LowerAll(names)[i] != LowerAll(names)[j] {
        assert names[i] in h && names[j] in h && names[i] != names[j];
      }
    }
  }

  lemma KeysAreDistinctExactlyWhen(h: map<string, string>, keys: seq<string>)
    requires CanonicalKeys(h, keys)
    ensures Distinct(keys) <==> NoCaseClash(h)
  {
    var names :| Enumerates(names, h) && multiset(keys) == multiset(LowerAll(names));
    LoweredAreDistinct(h, names);
    PermutationKeepsElements(keys, LowerAll(names));
    PermutationKeepsElements(LowerAll(names), keys);
  }

  lemma {:induction false} LowerKeeps(s: string)
    requires ':' !in s && '\n' !in s
    ensures ':' !in Lower(s) && '\n' !in Lower(s)
    decreases |s|
  {
    if s != "" { LowerKeeps(s[1..]); }
  }

  lemma KeysAreWellformed(h: map<string, string>, keys: seq<string>)
    requires Wellformed(h) && CanonicalKeys(h, keys)
    ensures forall k :: k in keys ==> ':' !in k && '\n' !in k && '\n' !in Get(h, k)
  {
    var names :| Enumerates(names, h) && multiset(keys) == multiset(LowerAll(names));
    LowerAllIsLower(names);
    forall k | k in keys ensures ':' !in k && '\n' !in k && '\n' !in Get(h, k) {
      assert k in multiset(keys) && k in multiset(LowerAll(names)) && k in LowerAll(names);
      var i :| 0 <= i < |names| && LowerAll(names)[i] == k;
      LowerKeeps(names[i]);
    }
  }

  lemma DistinctGrows(before: seq<string>, k: string)
    ensures Distinct(before + [k]) <==> Distinct(before) && k !in before
  {
    var all := before + [k];
    if Distinct(all) {
      forall i, j | 0 <= i < j < |before| ensures before[i] != before[j] { assert all[i] != all[j]; }
      forall i | 0 <= i < |before| ensures before[i] != k { assert all[i] != all[|before|]; }
    }
  }

  /** A name that comes twice makes the lines unreadable. */
  lemma {:induction false} RepeatedNameFails(h: map<string, string>, keys: seq<string>)
    requires !Distinct(keys) && forall k :: k in keys ==> ':' !in k
    ensures ReadHeaders(HeaderLines(h, keys)) == None
    decreases |keys|
  {
    var before, k := keys[..|keys| - 1], keys[|keys| - 1];
    assert keys == before + [k];
    DistinctGrows(before, k);
    HeadersReadOneMore(HeaderLines(h, before), k, CodeFence.TrimSpace(Get(h, k)));
    if Distinct(before) {
      HeadersRead(h, before);
    } else {
      RepeatedNameFails(h, before);
    }
  }

  /** The block can be read at all exactly when no two names differ only in case. */
  lemma BlockReadsExactlyWhen(h: map<string, string>, keys: seq<string>)
    requires Wellformed(h) && CanonicalKeys(h, keys)
    ensures ReadBlock(Stream(HeaderLines(h, keys))) == if NoCaseClash(h) then Some(Block(h, keys)) else None
  {
    KeysAreWellformed(h, keys);
    KeysAreDistinctExactlyWhen(h, keys);
    if NoCaseClash(h) {
      BlockReads(h, keys);
    } else {
      RepeatedNameFails(h, keys);
      HeaderLinesAreLines(h, keys);
      StreamReads(HeaderLines(h, keys), "");
      assert Stream(HeaderLines(h, keys)) + "" == Stream(HeaderLines(h, keys));
    }
  }

  /** `block` gives the header `k` its trimmed value, under the lower-cased name that SigV4 signs. */
  predicate Carries(block: map<string, string>, h: map<string, string>, k: string)
    requires k in h
  {
    Lower(k) in block && block[Lower(k)] == CodeFence.TrimSpace(h[k])
  }

  /** Under its lower-cased name a header is found exactly when that is its name, or there is nothing to find. */
  lemma ValueIsCarriedExactlyWhen(h: map<string, string>, keys: seq<string>, k: string)
    requires CanonicalKeys(h, keys) && NoCaseClash(h) && k in h
    ensures Carries(Block(h, keys), h, k) <==> Lower(k) == k || CodeFence.TrimSpace(h[k]) == ""
  {
    LowerTwice(k);
    KeysAreLowerNames(h, keys, Lower(k));
    if Lower(k) != k {
      assert Lower(k) !in h;
      assert CodeFence.TrimSpace("") == "";
    }
  }

  /**
   * The canonical block gives every header its trimmed value exactly when no two
   * names differ only in case and every name is lower-case or has a blank value:
   * the value of any other name is looked up in lower case and lost.
   */
  lemma BlockCarriesTheHeadersExactlyWhen(h: map<string, string>, keys: seq<string>)
    requires Wellformed(h) && CanonicalKeys(h, keys)
    ensures var block := ReadBlock(Stream(HeaderLines(h, keys)));
            (block.Some? && forall k :: k in h ==> Carries(block.value, h, k))
            <==> NoCaseClash(h) && forall k :: k in h ==> Lower(k) == k || CodeFence.TrimSpace(h[k]) == ""
  {
    BlockReadsExactlyWhen(h, keys);
    if NoCaseClash(h) {
      forall k | k in h
        ensures Carries(Block(h, keys), h, k) <==> Lower(k) == k || CodeFence.TrimSpace(h[k]) == ""
      {
        ValueIsCarriedExactlyWhen(h, keys, k);
      }
    }
  }

  /** With lower-case names the block is the trimmed map, and nothing else. */
  lemma LowerCaseBlockIsTheTrimmedMap(h: map<string, string>, keys: seq<string>)
    requires Wellformed(h) && CanonicalKeys(h, keys) && forall k :: k in h ==> Lower(k) == k
    ensures ReadBlock(Stream(HeaderLines(h, keys))) == Some(Trimmed(h))
  {
    BlockReadsExactlyWhen(h, keys);
    forall key ensures key in keys <==> key in h { KeysAreLowerNames(h, keys, key); }
    assert Block(h, keys) == Trimmed(h);
  }

  /** Lower-case already, and without a colon or a newline. */
  predicate PlainName(s: string) {
    forall i :: 0 <= i < |s| ==> !('A' <= s[i] <= 'Z') && s[i] != ':' && s[i] != '\n'
  }

  lemma {:induction false} PlainNameIsLower(s: string)
    requires PlainName(s)
    ensures Lower(s) == s
    decreases |s|
  {
    if s != "" {
      PlainNameIsLower(s[1..]);
      assert [s[0]] + s[1..] == s;
    }
  }

  lemma PlainNamesAreCarried(h: map<string, string>, keys: seq<string>)
    requires CanonicalKeys(h, keys) && forall k :: k in h ==> PlainName(k) && '\n' !in h[k]
    ensures ReadBlock(Stream(HeaderLines(h, keys))) == Some(Trimmed(h))
  {
    forall k | k in h ensures Lower(k) == k && ':' !in k && '\n' !in k { PlainNameIsLower(k); }
    LowerCaseBlockIsTheTrimmedMap(h, keys);
  }

  const HOST := "host"
  const CONTENT_TYPE := "content-type"
  const CONTENT_SHA256 := "x-amz-content-sha256"
  const AMZ_DATE := "x-amz-date"

  lemma UploadNamesArePlain()
    ensures PlainName(HOST) && PlainName(CONTENT_TYPE) && PlainName(CONTENT_SHA256) && PlainName(AMZ_DATE)
  {
  }

  /** The header map of s3.go:117-122. */
  function UploadHeaders(host: string, contentType: string, hash: string, date: string): map<string, string> {
    map[HOST := host, CONTENT_TYPE := contentType, CONTENT_SHA256 := hash, AMZ_DATE := date]
  }

  /** The one caller passes lower-case names, so its four headers are signed as they are sent. */
  lemma UploadHeadersAreCarried(host: string, contentType: string, hash: string, date: string, keys: seq<string>)
    requires '\n' !in host && '\n' !in contentType && '\n' !in hash && '\n' !in date
    requires CanonicalKeys(UploadHeaders(host, contentType, hash, date), keys)
    ensures var h := UploadHeaders(host, contentType, hash, date);
            ReadBlock(Stream(HeaderLines(h, keys))) == Some(Trimmed(h))
  {
    var h := UploadHeaders(host, contentType, hash, date);
    UploadNamesArePlain();
    forall k | k in h ensures PlainName(k) && '\n' !in h[k] {
      assert k == HOST || k == CONTENT_TYPE || k == CONTENT_SHA256 || k == AMZ_DATE;
    }
    PlainNamesAreCarried(h, keys);
  }

  /** A single header whose name has a capital is signed with a blank value. */
  lemma OneCapitalHeader(name: string, value: string, keys: seq<string>)
    requires ':' !in name && '\n' !in name && '\n' !in value && Lower(name) != name
    requires CanonicalKeys(map[name := value], keys)
    ensures ReadBlock(Stream(HeaderLines(map[name := value], keys))) == Some(map[Lower(name) := ""])
  {
    var h := map[name := value];
    BlockReadsExactlyWhen(h, keys);
    forall key ensures key in keys <==> key == Lower(name) { KeysAreLowerNames(h, keys, key); }
    BlankBlock(h, keys, Lower(name));
  }

  lemma BlankBlock(h: map<string, string>, keys: seq<string>, name: string)
    requires name !in h && forall key :: key in keys <==> key == name
    ensures Block(h, keys) == map[name := ""]
  {
  }

  const CAPITAL_HOST := "Host"

  /** For example, the value of `Host` is lost. */
  lemma CapitalsLoseTheValue(value: string, keys: seq<string>)
    requires '\n' !in value && CanonicalKeys(map[CAPITAL_HOST := value], keys)
    ensures ReadBlock(Stream(HeaderLines(map[CAPITAL_HOST := value], keys))) == Some(map[HOST := ""])
  {
    var h := CAPITAL_HOST;
    assert Lower(h[1..][1..][1..][1..]) == "" && Lower(h[1..][1..][1..]) == "t";
    assert Lower(h[1..][1..]) == "st" && Lower(h[1..]) == "ost" && Lower(h) == HOST;
    assert CAPITAL_HOST[0] != HOST[0];
    OneCapitalHeader(CAPITAL_HOST, value, keys);
  }
}
