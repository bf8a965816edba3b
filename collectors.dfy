/**
 The list utilities of StreamsTest: the procedural filter loop that must agree
 with the stream filter, and the hand-written `toList` and `toSortedList`
 collectors built from an `ArrayList` supplier, `add` as accumulator, `addAll`
 as combiner and, for the sorted one, `Collections.sort` as finisher.
 */
module Collectors {

  /** `String.contains`: `sub` occurs in `s` starting at some position. */
  predicate Contains(s: string, sub: string)
    decreases |s|
  {
    |sub| <= |s| && (s[..|sub|] == sub || (|s| > 0 && Contains(s[1..], sub)))
  }

  /** `sub` occurs in `s` at position `i`. */
  predicate OccursAt(s: string, sub: string, i: int)
  {
    0 <= i <= |s| - |sub| && s[i..i + |sub|] == sub
  }

  /** `Contains` holds exactly when `sub` occurs in `s` at some position. */
  lemma {:induction false} ContainsAt(s: string, sub: string)
    ensures Contains(s, sub) <==> exists i :: OccursAt(s, sub, i)
    decreases |s|
  {
    if |sub| <= |s| && s[..|sub|] == sub {
      assert OccursAt(s, sub, 0);
    } else if |sub| <= |s| && |s| > 0 {
      ContainsAt(s[1..], sub);
      if Contains(s[1..], sub) {
        var i :| OccursAt(s[1..], sub, i);
        assert OccursAt(s, sub, i + 1);
      }
      if exists i :: OccursAt(s, sub, i) {
        var i :| OccursAt(s, sub, i);
        assert i != 0;
        assert OccursAt(s[1..], sub, i - 1);
      }
    }
  }

  /** The predicate of the test: the title contains "on". */
  predicate ContainsOn(book: string)
  {
    Contains(book, "on")
  }

  /** `stream().filter(p).collect(Collectors.toList())`: the elements of `xs`
      that satisfy `p`, in their original order. */
  function Filter<T>(xs: seq<T>, p: T -> bool): seq<T>
  {
    if xs == [] then []
    else Filter(xs[..|xs| - 1], p) + (if p(xs[|xs| - 1]) then [xs[|xs| - 1]] else [])
  }

  /** `a` is `b` with some elements left out, the rest in the same order. */
  predicate Subsequence<T(==)>(a: seq<T>, b: seq<T>)
  {
    if a == [] then true
    else if b == [] then false
    else
      || (a[|a| - 1] == b[|b| - 1] && Subsequence(a[..|a| - 1], b[..|b| - 1]))
      || Subsequence(a, b[..|b| - 1])
  }

  /** The filter keeps exactly the elements that satisfy the predicate, each as
      often as it occurs, and keeps them in their original order. */
  lemma {:induction false} FilterKeepsExactly<T>(xs: seq<T>, p: T -> bool)
    ensures forall x :: multiset(Filter(xs, p))[x] == if p(x) then multiset(xs)[x] else 0
    ensures forall y :: y in Filter(xs, p) ==> p(y)
    ensures Subsequence(Filter(xs, p), xs)
  {
    if xs != [] {
      var init, last := xs[..|xs| - 1], xs[|xs| - 1];
      FilterKeepsExactly(init, p);
      assert xs == init + [last];
      var r := Filter(xs, p);
      if p(last) {
        assert r[..|r| - 1] == Filter(init, p);
      } else {
        assert r == Filter(init, p);
        SubsequenceOfLonger(r, init, last);
      }
    }
  }

  lemma {:induction false} SubsequenceOfLonger<T>(a: seq<T>, b: seq<T>, x: T)
    requires Subsequence(a, b)
    ensures Subsequence(a, b + [x])
  {
    assert (b + [x])[..|b|] == b;
  }

  /** The procedural version: a `for` loop that appends every element passing
      the test to an initially empty list.  It computes the stream filter. */
  method FilterProcedural<T>(books: seq<T>, test: T -> bool) returns (filtered: seq<T>)
    ensures filtered == Filter(books, test)
  {
    filtered := [];
    for i := 0 to |books|
      invariant filtered == Filter(books[..i], test)
    {
      assert books[..i + 1][..i] == books[..i];
      if test(books[i]) {
        filtered := filtered + [books[i]];
      }
    }
    assert books[..|books|] == books;
  }

  /** The first title of the test contains "on" ("gone"). */
  lemma GoneContainsOn()
    ensures ContainsOn("gone with the wind")
  {
    var t := "gone with the wind";
    assert t[1..][..2] == "on";
    assert ContainsOn(t[1..]);
  }

  /** A string that does not start with "on" and whose tail lacks "on" lacks "on". */
  lemma NoOnAtFront(s: string)
    requires |s| >= 2 && (s[0] != 'o' || s[1] != 'n')
    requires !ContainsOn(s[1..])
    ensures !ContainsOn(s)
  {
    assert s[..2][0] == s[0] && s[..2][1] == s[1];
  }

  /** The second title of the test does not contain "on". */
  lemma LittleWomenLacksOn()
    ensures !ContainsOn("little women")
  {
    var t := "little women";
    assert !ContainsOn(t[11..]);
    NoOnAtFront(t[10..]);
    NoOnAtFront(t[9..]);
    NoOnAtFront(t[8..]);
    NoOnAtFront(t[7..]);
    NoOnAtFront(t[6..]);
    NoOnAtFront(t[5..]);
    NoOnAtFront(t[4..]);
    NoOnAtFront(t[3..]);
    NoOnAtFront(t[2..]);
    NoOnAtFront(t[1..]);
    NoOnAtFront(t);
  }

  /** The test's example: of the two titles only the first contains "on". */
  lemma FilterExample()
    ensures Filter(["gone with the wind", "little women"], ContainsOn) == ["gone with the wind"]
  {
    var books := ["gone with the wind", "little women"];
    GoneContainsOn();
    LittleWomenLacksOn();
    assert books[..1] == ["gone with the wind"];
    assert books[..1][..0] == [];
    assert Filter(books[..1][..0], ContainsOn) == [];
    assert Filter(books[..1], ContainsOn) == ["gone with the wind"];
  }

  /** Ascending order. */
  predicate IsSorted(s: seq<int>)
  {
    forall i, j :: 0 <= i < j < |s| ==> s[i] <= s[j]
  }

  /** Puts `x` into `s` before the first element not smaller than it. */
  function Insert(x: int, s: seq<int>): (r: seq<int>)
    ensures multiset(r) == multiset(s) + multiset{x}
    ensures |r| == |s| + 1
    ensures r[0] == if s == [] || x <= s[0] then x else s[0]
  {
    if s == [] || x <= s[0] then [x] + s
    else
      assert s == [s[0]] + s[1..];
      [s[0]] + Insert(x, s[1..])
  }

  /** Inserting into an ascending sequence keeps it ascending. */
  lemma {:induction false} InsertSorted(x: int, s: seq<int>)
    requires IsSorted(s)
    ensures IsSorted(Insert(x, s))
  {
    if s != [] && x > s[0] {
      var t := Insert(x, s[1..]);
      assert IsSorted(s[1..]);
      InsertSorted(x, s[1..]);
      assert s[0] <= t[0];
      var r := [s[0]] + t;
      forall i, j | 0 <= i < j < |r|
        ensures r[i] <= r[j]
      {
        if i == 0 {
          assert r[j] == t[j - 1] && t[0] <= t[j - 1];
        } else {
          assert r[i] == t[i - 1] && r[j] == t[j - 1];
        }
      }
    }
  }

  /** What `Collections.sort` leaves in a list of integers: its elements in
      ascending order. */
  function SortedSeq(s: seq<int>): (r: seq<int>)
    ensures IsSorted(r)
    ensures multiset(r) == multiset(s)
  {
    if s == [] then []
    else
      assert s == [s[0]] + s[1..];
      InsertSorted(s[0], SortedSeq(s[1..]));
      Insert(s[0], SortedSeq(s[1..]))
  }

  /** Two ascending sequences with the same elements start with the same element. */
  lemma SortedHeadsEqual(a: seq<int>, b: seq<int>)
    requires IsSorted(a) && IsSorted(b)
    requires multiset(a) == multiset(b) && a != [] && b != []
    ensures a[0] == b[0]
  {
    assert a[0] in multiset(b) && b[0] in multiset(a);
    var i :| 0 <= i < |b| && b[i] == a[0];
    var j :| 0 <= j < |a| && a[j] == b[0];
    assert b[0] <= b[i] && a[0] <= a[j];
  }

  /** Two ascending sequences with the same elements are equal. */
  lemma {:induction false} SortedUnique(a: seq<int>, b: seq<int>)
    requires IsSorted(a) && IsSorted(b)
    requires multiset(a) == multiset(b)
    ensures a == b
  {
    if a != [] {
      assert b != [] by { assert |b| == |multiset(b)| == |multiset(a)| == |a|; }
      SortedHeadsEqual(a, b);
      assert a == [a[0]] + a[1..] && b == [b[0]] + b[1..];
      assert multiset(a[1..]) == multiset(a) - multiset{a[0]};
      assert multiset(b[1..]) == multiset(b) - multiset{b[0]};
      assert IsSorted(a[1..]) && IsSorted(b[1..]);
      SortedUnique(a[1..], b[1..]);
    }
  }

  /** The finisher's result is characterised by its two properties: a list is
      the sorted form of `s` exactly when it is ascending and has the elements
      of `s`. */
  lemma SortedSeqIsTheSortedPermutation(s: seq<int>, r: seq<int>)
    ensures r == SortedSeq(s) <==> IsSorted(r) && multiset(r) == multiset(s)
  {
    if IsSorted(r) && multiset(r) == multiset(s) {
      SortedUnique(r, SortedSeq(s));
    }
  }

  /** The sorted result does not depend on the order in which the elements are
      met (the collector is declared UNORDERED), so in particular not on how a
      parallel stream splits the input before the combiner joins the parts. */
  lemma SortedIgnoresOrder(xs: seq<int>, ys: seq<int>)
    requires multiset(xs) == multiset(ys)
    ensures SortedSeq(xs) == SortedSeq(ys)
  {
    SortedUnique(SortedSeq(xs), SortedSeq(ys));
  }

  /** The `ArrayList<Integer>` container the collectors accumulate into. */
  class IntList {
    var elems: seq<int>

    /** The supplier `ArrayList::new`. */
    constructor ()
      ensures elems == []
    {
      elems := [];
    }

    /** The accumulator `list1.add(a)`. */
    method Add(a: int)
      modifies this
      ensures elems == old(elems) + [a]
    {
      elems := elems + [a];
    }

    /** `list1.addAll(list2)`, the body of the combiner. */
    method AddAll(other: IntList)
      modifies this
      ensures elems == old(elems) + old(other.elems)
    {
      elems := elems + other.elems;
    }

    /** `Collections.sort(list1)`, the body of the sorted finisher. */
    method Sort()
      modifies this
      ensures elems == SortedSeq(old(elems))
    {
      elems := SortedSeq(elems);
    }
  }

  /** The combiner of both collectors: appends the second container to the
      first and returns the first. */
  method Combine(list1: IntList, list2: IntList) returns (r: IntList)
    modifies list1
    ensures r == list1
    ensures list1.elems == old(list1.elems) + old(list2.elems)
  {
    list1.AddAll(list2);
    r := list1;
  }

  /** Accumulates every element of `xs` into a fresh container, in encounter
      order, as a sequential `collect` does. */
  method Accumulate(xs: seq<int>) returns (container: IntList)
    ensures fresh(container)
    ensures container.elems == xs
  {
    container := new IntList();
    for i := 0 to |xs|
      invariant container.elems == xs[..i]
    {
      container.Add(xs[i]);
      assert xs[..i + 1] == xs[..i] + [xs[i]];
    }
    assert xs[..|xs|] == xs;
  }

  /** `list.stream().collect(toList)`: the identity finisher leaves the
      accumulated list, which is the input in its original order. */
  method CollectToList(xs: seq<int>) returns (r: seq<int>)
    ensures r == xs
  {
    var container := Accumulate(xs);
    r := container.elems;
  }

  /** `list.stream().collect(toSortedList)`: the input's elements in ascending order. */
  method CollectToSortedList(xs: seq<int>) returns (r: seq<int>)
    ensures r == SortedSeq(xs)
    ensures IsSorted(r)
    ensures multiset(r) == multiset(xs)
  {
    var container := Accumulate(xs);
    container.Sort();
    r := container.elems;
  }

  /** On a split input, combining the two partial containers and then
      finishing gives what the sequential collection gives. */
  method CollectSortedInParts(xs: seq<int>, ys: seq<int>) returns (r: seq<int>)
    ensures r == SortedSeq(xs + ys)
    ensures r == SortedSeq(ys + xs)
  {
    var left := Accumulate(xs);
    var right := Accumulate(ys);
    var joined := Combine(left, right);
    joined.Sort();
    r := joined.elems;
    SortedIgnoresOrder(xs + ys, ys + xs);
  }

  /** The test's examples: [4, 2, 3] collects to [4, 2, 3] with `toList` and
      to [2, 3, 4] with `toSortedList`. */
  lemma CollectExamples()
    ensures SortedSeq([4, 2, 3]) == [2, 3, 4]
  {
    SortedSeqIsTheSortedPermutation([4, 2, 3], [2, 3, 4]);
    assert multiset([4, 2, 3]) == multiset([2, 3, 4]);
  }
}
