/** Stable sorting by a comparison that is a total preorder. */
module Sorting {
  import opened Lists

  ghost predicate TotalPreorder<T(!new)>(leq: (T, T) -> bool) {
    && (forall a, b :: leq(a, b) || leq(b, a))
    && (forall a, b, c :: leq(a, b) && leq(b, c) ==> leq(a, c))
  }

  ghost predicate Antisymmetric<T(!new)>(leq: (T, T) -> bool) {
    forall a, b :: leq(a, b) && leq(b, a) ==> a == b
  }

  ghost predicate Sorted<T>(s: seq<T>, leq: (T, T) -> bool) {
    forall i, j :: 0 <= i < j < |s| ==> leq(s[i], s[j])
  }

  function Insert<T>(x: T, s: seq<T>, leq: (T, T) -> bool): seq<T> {
    if s == [] then [x]
    else if leq(x, s[0]) then [x] + s
    else [s[0]] + Insert(x, s[1..], leq)
  }

  function Sort<T>(s: seq<T>, leq: (T, T) -> bool): seq<T> {
    if s == [] then [] else Insert(s[0], Sort(s[1..], leq), leq)
  }

  lemma {:induction false} InsertPermutes<T>(x: T, s: seq<T>, leq: (T, T) -> bool)
    ensures multiset(Insert(x, s, leq)) == multiset{x} + multiset(s)
  {
    if s != [] {
      assert s == [s[0]] + s[1..];
      InsertPermutes(x, s[1..], leq);
    }
  }

  /** Sorting loses nothing and adds nothing. */
  lemma {:induction false} SortPermutes<T>(s: seq<T>, leq: (T, T) -> bool)
    ensures multiset(Sort(s, leq)) == multiset(s) && |Sort(s, leq)| == |s|
  {
    if s != [] {
      SortPermutes(s[1..], leq);
      InsertPermutes(s[0], Sort(s[1..], leq), leq);
      assert s == [s[0]] + s[1..];
      assert |multiset(Sort(s, leq))| == |Sort(s, leq)| && |multiset(s)| == |s|;
    }
  }

  lemma SortMember<T>(s: seq<T>, leq: (T, T) -> bool, x: T)
    ensures x in Sort(s, leq) <==> x in s
  {
    SortPermutes(s, leq);
    assert x in Sort(s, leq) <==> x in multiset(Sort(s, leq));
    assert x in s <==> x in multiset(s);
  }

  lemma {:induction false} InsertSorted<T(!new)>(x: T, s: seq<T>, leq: (T, T) -> bool)
    requires TotalPreorder(leq) && Sorted(s, leq)
    ensures Sorted(Insert(x, s, leq), leq)
  {
    if s != [] && !leq(x, s[0]) {
      InsertSorted(x, s[1..], leq);
      var t := Insert(x, s[1..], leq);
      InsertPermutes(x, s[1..], leq);
      forall y | y in t ensures leq(s[0], y) {
        assert y in multiset(t);
        if y != x {
          assert y in s[1..];
          var k :| 0 <= k < |s[1..]| && s[1..][k] == y;
          assert leq(s[0], s[k + 1]);
        }
      }
    }
  }

  /** The result is in order. */
  lemma {:induction false} SortSorted<T(!new)>(s: seq<T>, leq: (T, T) -> bool)
    requires TotalPreorder(leq)
    ensures Sorted(Sort(s, leq), leq)
  {
    if s != [] {
      SortSorted(s[1..], leq);
      InsertSorted(s[0], Sort(s[1..], leq), leq);
    }
  }

  /** Taking the same element out of two arrangements leaves two arrangements. */
  lemma DropSame<T>(a: seq<T>, b: seq<T>, i: nat)
    requires a != [] && i < |b| && b[i] == a[0] && multiset(a) == multiset(b)
    ensures multiset(a[1..]) == multiset(b[..i] + b[i + 1..])
  {
    assert a == [a[0]] + a[1..];
    assert b == b[..i] + [b[i]] + b[i + 1..];
    assert multiset(a) == multiset{a[0]} + multiset(a[1..]);
    assert multiset(b) == multiset{b[i]} + multiset(b[..i] + b[i + 1..]);
    assert multiset(a[1..]) == multiset(a) - multiset{a[0]};
  }

  /** With an antisymmetric comparison there is only one sorted arrangement. */
  lemma {:induction false} SortedUnique<T(!new)>(a: seq<T>, b: seq<T>, leq: (T, T) -> bool)
    requires TotalPreorder(leq) && Antisymmetric(leq) && Sorted(a, leq) && Sorted(b, leq) && multiset(a) == multiset(b)
    ensures a == b
  {
    assert |multiset(a)| == |a| && |multiset(b)| == |b|;
    if a != [] {
      SameFirst(a, b, leq);
      DropSame(a, b, 0);
      assert b[..0] + b[1..] == b[1..];
      SortedTail(a, leq);
      SortedTail(b, leq);
      SortedUnique(a[1..], b[1..], leq);
      assert a == [a[0]] + a[1..] && b == [b[0]] + b[1..];
    }
  }

  lemma SortedTail<T>(s: seq<T>, leq: (T, T) -> bool)
    requires Sorted(s, leq) && s != []
    ensures Sorted(s[1..], leq)
  {
  }

  lemma SameFirst<T(!new)>(a: seq<T>, b: seq<T>, leq: (T, T) -> bool)
    requires TotalPreorder(leq) && Antisymmetric(leq) && Sorted(a, leq) && Sorted(b, leq)
    requires multiset(a) == multiset(b) && a != [] && b != []
    ensures a[0] == b[0]
  {
    assert a[0] in multiset(b) && b[0] in multiset(a);
    var i :| 0 <= i < |b| && b[i] == a[0];
    var j :| 0 <= j < |a| && a[j] == b[0];
    assert leq(a[0], a[0]) && leq(b[0], b[0]);
    assert leq(b[0], b[i]) && leq(a[0], a[j]);
  }

  /** Sorting forgets the order it started from. */
  lemma SortForgetsOrder<T(!new)>(a: seq<T>, b: seq<T>, leq: (T, T) -> bool)
    requires TotalPreorder(leq) && Antisymmetric(leq) && multiset(a) == multiset(b)
    ensures Sort(a, leq) == Sort(b, leq)
  {
    SortPermutes(a, leq);
    SortPermutes(b, leq);
    SortSorted(a, leq);
    SortSorted(b, leq);
    SortedUnique(Sort(a, leq), Sort(b, leq), leq);
  }

  /** What adds up over concatenation does not depend on the arrangement. */
  lemma {:induction false} SumForgetsOrder<T(!new), U>(f: seq<T> -> multiset<U>, a: seq<T>, b: seq<T>)
    requires forall x: seq<T>, y: seq<T> :: f(x + y) == f(x) + f(y)
    requires multiset(a) == multiset(b)
    ensures f(a) == f(b)
  {
    assert |multiset(a)| == |a| && |multiset(b)| == |b|;
    if a != [] {
      assert a[0] in multiset(b);
      var i :| 0 <= i < |b| && b[i] == a[0];
      DropSame(a, b, i);
      SumForgetsOrder(f, a[1..], b[..i] + b[i + 1..]);
      assert a == [a[0]] + a[1..] && f([a[0]] + a[1..]) == f([a[0]]) + f(a[1..]);
      assert b == b[..i] + [b[i]] + b[i + 1..];
      assert f(b[..i] + [b[i]] + b[i + 1..]) == f(b[..i] + [b[i]]) + f(b[i + 1..]);
      assert f(b[..i] + [b[i]]) == f(b[..i]) + f([b[i]]);
      assert f(b[..i] + b[i + 1..]) == f(b[..i]) + f(b[i + 1..]);
    } else {
      assert b == [];
    }
  }

  /** Neither comes before the other. */
  function Ties<T>(leq: (T, T) -> bool, x: T): T -> bool { (y: T) => leq(x, y) && leq(y, x) }

  lemma {:induction false} InsertStable<T(!new)>(x: T, s: seq<T>, leq: (T, T) -> bool, z: T)
    requires TotalPreorder(leq)
    ensures Filter(Insert(x, s, leq), Ties(leq, z)) == Filter([x] + s, Ties(leq, z))
  {
    if s != [] && !leq(x, s[0]) {
      var keep, rest := Ties(leq, z), Insert(x, s[1..], leq);
      assert !keep(x) || !keep(s[0]);
      calc {
        Filter(Insert(x, s, leq), keep);
        { assert Insert(x, s, leq) == [s[0]] + rest; }
        Filter([s[0]] + rest, keep);
        { FilterConcat([s[0]], rest, keep); }
        Filter([s[0]], keep) + Filter(rest, keep);
        { InsertStable(x, s[1..], leq, z); }
        Filter([s[0]], keep) + Filter([x] + s[1..], keep);
        { FilterConcat([x], s[1..], keep); }
        Filter([s[0]], keep) + (Filter([x], keep) + Filter(s[1..], keep));
        { FilterOne(x, keep); FilterOne(s[0], keep); }
        Filter([x], keep) + (Filter([s[0]], keep) + Filter(s[1..], keep));
        { FilterConcat([s[0]], s[1..], keep); assert s == [s[0]] + s[1..]; }
        Filter([x], keep) + Filter(s, keep);
        { FilterConcat([x], s, keep); }
        Filter([x] + s, keep);
      }
    }
  }

  /** Elements that tie keep their order. */
  lemma {:induction false} SortStable<T(!new)>(s: seq<T>, leq: (T, T) -> bool, z: T)
    requires TotalPreorder(leq)
    ensures Filter(Sort(s, leq), Ties(leq, z)) == Filter(s, Ties(leq, z))
  {
    if s != [] {
      var keep, rest := Ties(leq, z), Sort(s[1..], leq);
      InsertStable(s[0], rest, leq, z);
      SortStable(s[1..], leq, z);
      FilterConcat([s[0]], rest, keep);
      FilterConcat([s[0]], s[1..], keep);
      assert s == [s[0]] + s[1..];
    }
  }
}
