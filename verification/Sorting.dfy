/** Total orders, Go's string order, and sequences sorted by them. */
module Sorting {

  ghost predicate TotalOrder<T(!new)>(leq: (T, T) -> bool) {
    && (forall x :: leq(x, x))
    && (forall x, y :: leq(x, y) || leq(y, x))
    && (forall x, y :: leq(x, y) && leq(y, x) ==> x == y)
    && (forall x, y, z :: leq(x, y) && leq(y, z) ==> leq(x, z))
  }

  ghost predicate SortedBy<T>(leq: (T, T) -> bool, xs: seq<T>) {
    forall i, j :: 0 <= i < j < |xs| ==> leq(xs[i], xs[j])
  }

  /** Go's `<` on strings: lexicographic by code point, which for UTF-8 is its byte order. */
  predicate StringLess(a: string, b: string) {
    b != "" && (a == "" || a[0] < b[0] || (a[0] == b[0] && StringLess(a[1..], b[1..])))
  }

  predicate StringLeq(a: string, b: string) {
    a == b || StringLess(a, b)
  }

  lemma {:induction false} StringLessIrreflexive(a: string)
    ensures !StringLess(a, a)
    decreases |a|
  {
    if a != "" { StringLessIrreflexive(a[1..]); }
  }

  lemma {:induction false} StringLessTransitive(a: string, b: string, c: string)
    requires StringLess(a, b) && StringLess(b, c)
    ensures StringLess(a, c)
    decreases |a|
  {
    if a != "" && a[0] == b[0] == c[0] { StringLessTransitive(a[1..], b[1..], c[1..]); }
  }

  lemma {:induction false} StringLessTotal(a: string, b: string)
    ensures a == b || StringLess(a, b) || StringLess(b, a)
    decreases |a|
  {
    if a != "" && b != "" && a[0] == b[0] {
      StringLessTotal(a[1..], b[1..]);
      assert a == [a[0]] + a[1..] && b == [b[0]] + b[1..];
    }
  }

  lemma StringOrder()
    ensures TotalOrder(StringLeq)
  {
    forall x, y ensures StringLeq(x, y) || StringLeq(y, x) { StringLessTotal(x, y); }
    forall x, y | StringLeq(x, y) && StringLeq(y, x) ensures x == y {
      if x != y {
        StringLessTransitive(x, y, x);
        StringLessIrreflexive(x);
      }
    }
    forall x, y, z | StringLeq(x, y) && StringLeq(y, z) ensures StringLeq(x, z) {
      if x != y && y != z { StringLessTransitive(x, y, z); }
    }
  }

  /** Both start with the least element. */
  lemma SameFirst<T(!new)>(leq: (T, T) -> bool, a: seq<T>, b: seq<T>)
    requires TotalOrder(leq) && SortedBy(leq, a) && SortedBy(leq, b) && multiset(a) == multiset(b) && a != []
    ensures b != [] && a[0] == b[0]
  {
    assert a[0] in multiset(a) && a[0] in multiset(b);
    assert b[0] in multiset(b) && b[0] in multiset(a);
    assert a[0] in b && b[0] in a;
    assert leq(a[0], b[0]) && leq(b[0], a[0]);
  }

  lemma WithoutFirst<T>(a: seq<T>)
    requires a != []
    ensures multiset(a[1..]) == multiset(a) - multiset{a[0]}
  {
    assert a == [a[0]] + a[1..];
  }

  /** There is only one sorted arrangement of a multiset, so any correct sort gives it. */
  lemma {:induction false} SortedIsUnique<T(!new)>(leq: (T, T) -> bool, a: seq<T>, b: seq<T>)
    requires TotalOrder(leq) && SortedBy(leq, a) && SortedBy(leq, b) && multiset(a) == multiset(b)
    ensures a == b
    decreases |a|
  {
    if a == [] {
      assert |multiset(b)| == |b|;
    } else {
      SameFirst(leq, a, b);
      WithoutFirst(a);
      WithoutFirst(b);
      SortedIsUnique(leq, a[1..], b[1..]);
      assert a == [a[0]] + a[1..] && b == [b[0]] + b[1..];
    }
  }

  /** `x` put in front of the first larger element. */
  function Inserted<T>(leq: (T, T) -> bool, x: T, xs: seq<T>): seq<T> {
    if xs == [] then [x] else if leq(x, xs[0]) then [x] + xs else [xs[0]] + Inserted(leq, x, xs[1..])
  }

  /** The sorted arrangement, standing for the library's `sort.Slice` and `sort.Strings`. */
  function Sort<T>(leq: (T, T) -> bool, xs: seq<T>): seq<T> {
    if xs == [] then [] else Inserted(leq, xs[0], Sort(leq, xs[1..]))
  }

  lemma {:induction false} InsertedIsSorted<T(!new)>(leq: (T, T) -> bool, x: T, xs: seq<T>)
    requires TotalOrder(leq) && SortedBy(leq, xs)
    ensures SortedBy(leq, Inserted(leq, x, xs)) && multiset(Inserted(leq, x, xs)) == multiset(xs) + multiset{x}
    decreases |xs|
  {
    if xs != [] {
      assert xs == [xs[0]] + xs[1..];
      if !leq(x, xs[0]) {
        InsertedIsSorted(leq, x, xs[1..]);
        var rest := Inserted(leq, x, xs[1..]);
        forall i | 0 <= i < |rest| ensures leq(xs[0], rest[i]) {
          assert rest[i] in multiset(rest);
          assert rest[i] == x || rest[i] in xs[1..];
        }
      }
    }
  }

  lemma {:induction false} SortIsSorted<T(!new)>(leq: (T, T) -> bool, xs: seq<T>)
    requires TotalOrder(leq)
    ensures SortedBy(leq, Sort(leq, xs)) && multiset(Sort(leq, xs)) == multiset(xs)
    decreases |xs|
  {
    if xs != [] {
      SortIsSorted(leq, xs[1..]);
      InsertedIsSorted(leq, xs[0], Sort(leq, xs[1..]));
      assert xs == [xs[0]] + xs[1..];
    }
  }

  /** Two lists without repetition and with the same elements are permutations of each other. */
  lemma {:induction false} SameElements<T>(a: seq<T>, b: seq<T>)
    requires Distinct(a) && Distinct(b)
    requires forall x :: x in a <==> x in b
    ensures multiset(a) == multiset(b)
  {
    forall x ensures multiset(a)[x] == multiset(b)[x] {
      AtMostOnce(a, x);
      AtMostOnce(b, x);
      assert x in a <==> x in multiset(a);
      assert x in b <==> x in multiset(b);
    }
  }

  lemma {:induction false} AtMostOnce<T>(a: seq<T>, x: T)
    requires Distinct(a)
    ensures multiset(a)[x] <= 1
    decreases |a|
  {
    if a != [] {
      assert a == [a[0]] + a[1..];
      AtMostOnce(a[1..], x);
      if x == a[0] { assert x !in a[1..]; }
    }
  }

  ghost predicate Distinct<T>(a: seq<T>) {
    forall i, j :: 0 <= i < j < |a| ==> a[i] != a[j]
  }

  lemma TwiceThere<T>(b: seq<T>, i: nat, j: nat)
    requires i < j < |b| && b[i] == b[j]
    ensures multiset(b)[b[i]] >= 2
  {
    assert b == b[..j] + b[j..];
    assert b[i] in b[..j] && b[j] in b[j..];
    assert b[i] in multiset(b[..j]) && b[j] in multiset(b[j..]);
  }

  /** A permutation has the same elements, and repeats none if the original repeats none. */
  lemma PermutationKeepsElements<T>(a: seq<T>, b: seq<T>)
    requires multiset(a) == multiset(b)
    ensures forall x :: x in a <==> x in b
    ensures Distinct(a) ==> Distinct(b)
  {
    forall x ensures x in a <==> x in b {
      assert x in b <==> x in multiset(b);
      assert x in a <==> x in multiset(a);
    }
    if Distinct(a) {
      forall i, j | 0 <= i < j < |b| ensures b[i] != b[j] {
        if b[i] == b[j] {
          TwiceThere(b, i, j);
          AtMostOnce(a, b[i]);
        }
      }
    }
  }

  /** `xs` lists the elements of `of` in order, each once. */
  ghost predicate IsOrdering<T(!new)>(leq: (T, T) -> bool, xs: seq<T>, of: set<T>) {
    SortedBy(leq, xs) && Distinct(xs) && forall x :: x in xs <==> x in of
  }

  lemma OrderingIsUnique<T(!new)>(leq: (T, T) -> bool, a: seq<T>, b: seq<T>, of: set<T>)
    requires TotalOrder(leq) && IsOrdering(leq, a, of) && IsOrdering(leq, b, of)
    ensures a == b
  {
    SameElements(a, b);
    SortedIsUnique(leq, a, b);
  }

  /** The elements of a set in order. */
  ghost function Ordered<T(!new)>(leq: (T, T) -> bool, of: set<T>): (xs: seq<T>)
    requires TotalOrder(leq)
    ensures IsOrdering(leq, xs, of)
  {
    if of == {} then []
    else
      var x :| x in of;
      var rest := Ordered(leq, of - {x});
      InsertedIsSorted(leq, x, rest);
      PermutationKeepsElements(rest + [x], Inserted(leq, x, rest));
      Inserted(leq, x, rest)
  }

  /** Sorting any list of the set's elements gives the set in order. */
  lemma SortGivesTheOrdering<T(!new)>(leq: (T, T) -> bool, xs: seq<T>, of: set<T>)
    requires TotalOrder(leq) && Distinct(xs) && forall x :: x in xs <==> x in of
    ensures Sort(leq, xs) == Ordered(leq, of)
  {
    SortIsSorted(leq, xs);
    PermutationKeepsElements(xs, Sort(leq, xs));
    OrderingIsUnique(leq, Sort(leq, xs), Ordered(leq, of), of);
  }

  lemma {:induction false} OrderingSize<T(!new)>(xs: seq<T>, of: set<T>)
    requires Distinct(xs) && forall x :: x in xs <==> x in of
    ensures |xs| == |of|
    decreases |xs|
  {
    if xs == [] {
      assert of == {};
    } else {
      var before, x := xs[..|xs| - 1], xs[|xs| - 1];
      assert xs == before + [x];
      OrderingSize(before, of - {x});
    }
  }

  /** Comparing strings whose first parts have the same length. */
  lemma {:induction false} CompareParts(a: string, x: string, b: string, y: string)
    requires |a| == |b|
    ensures StringLess(a + x, b + y) <==> StringLess(a, b) || (a == b && StringLess(x, y))
    decreases |a|
  {
    if a == "" {
      assert a + x == x && b + y == y;
    } else {
      assert (a + x)[1..] == a[1..] + x && (b + y)[1..] == b[1..] + y;
      assert a == [a[0]] + a[1..] && b == [b[0]] + b[1..];
      CompareParts(a[1..], x, b[1..], y);
    }
  }
}
