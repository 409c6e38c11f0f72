/**
 Filtering lists, shared by the models of list code.
 */
module Lists {
  function Filter<T>(s: seq<T>, keep: T -> bool): seq<T> {
    if s == [] then [] else (if keep(s[0]) then [s[0]] else []) + Filter(s[1..], keep)
  }

  lemma {:induction false} FilterMember<T>(s: seq<T>, keep: T -> bool, x: T)
    ensures x in Filter(s, keep) <==> x in s && keep(x)
  {
    if s != [] { FilterMember(s[1..], keep, x); }
  }

  lemma {:induction false} FilterConcat<T>(a: seq<T>, b: seq<T>, keep: T -> bool)
    ensures Filter(a + b, keep) == Filter(a, keep) + Filter(b, keep)
  {
    if a == [] {
      assert a + b == b;
    } else {
      var head := if keep(a[0]) then [a[0]] else [];
      calc {
        Filter(a + b, keep);
        { assert (a + b)[0] == a[0] && (a + b)[1..] == a[1..] + b; }
        head + Filter(a[1..] + b, keep);
        { FilterConcat(a[1..], b, keep); }
        head + (Filter(a[1..], keep) + Filter(b, keep));
        Filter(a, keep) + Filter(b, keep);
      }
    }
  }

  lemma {:induction false} FilterCount<T>(s: seq<T>, keep: T -> bool, x: T)
    ensures multiset(Filter(s, keep))[x] == if keep(x) then multiset(s)[x] else 0
  {
    if s != [] {
      assert s == [s[0]] + s[1..];
      FilterCount(s[1..], keep, x);
    }
  }

  /** Filtering a reordered list gives the same elements, reordered. */
  lemma FilterPermuted<T(!new)>(a: seq<T>, b: seq<T>, keep: T -> bool)
    requires multiset(a) == multiset(b)
    ensures multiset(Filter(a, keep)) == multiset(Filter(b, keep)) && |Filter(a, keep)| == |Filter(b, keep)|
  {
    var fa, fb := Filter(a, keep), Filter(b, keep);
    forall x ensures multiset(fa)[x] == multiset(fb)[x] {
      FilterCount(a, keep, x);
      FilterCount(b, keep, x);
    }
    assert multiset(fa) == multiset(fb);
    assert |multiset(fa)| == |fa| && |multiset(fb)| == |fb|;
  }

  lemma FilterOne<T>(x: T, keep: T -> bool)
    ensures Filter([x], keep) == if keep(x) then [x] else []
  {
    assert [x][1..] == [];
  }

  lemma TwoMembers<T>(s: seq<T>, a: T, b: T)
    requires a in s && b in s && a != b
    ensures |s| >= 2
  {
  }

  lemma {:induction false} FilterNone<T>(s: seq<T>, keep: T -> bool)
    ensures Filter(s, keep) == [] <==> forall i :: 0 <= i < |s| ==> !keep(s[i])
  {
    if s != [] {
      FilterNone(s[1..], keep);
      assert forall i :: 0 <= i < |s| - 1 ==> s[1..][i] == s[i + 1];
      if forall i :: 0 <= i < |s| - 1 ==> !keep(s[1..][i]) {
        forall i | 0 < i < |s| ensures !keep(s[i]) { assert s[1..][i - 1] == s[i]; }
      }
    }
  }

  /** The element at `i` is the only one to keep. */
  ghost predicate Sole<T>(s: seq<T>, keep: T -> bool, i: nat) {
    i < |s| && keep(s[i]) && forall j: nat :: j < |s| && keep(s[j]) ==> j == i
  }

  lemma FilterSole<T>(s: seq<T>, keep: T -> bool, i: nat)
    requires Sole(s, keep, i)
    ensures Filter(s, keep) == [s[i]]
  {
    var pre, post := s[..i], s[i + 1..];
    FilterNone(pre, keep);
    forall j: nat | j < |post| ensures !keep(post[j]) { assert post[j] == s[i + 1 + j]; }
    FilterNone(post, keep);
    assert s == pre + [s[i]] + post;
    FilterConcat(pre + [s[i]], post, keep);
    FilterConcat(pre, [s[i]], keep);
    FilterOne(s[i], keep);
  }

  lemma {:induction false} SoleFiltered<T>(s: seq<T>, keep: T -> bool) returns (i: nat)
    requires |Filter(s, keep)| == 1
    ensures Sole(s, keep, i)
  {
    if keep(s[0]) {
      i := 0;
      FilterNone(s[1..], keep);
      forall j: nat | 0 < j < |s| ensures !keep(s[j]) { assert s[1..][j - 1] == s[j]; }
    } else {
      var k := SoleFiltered(s[1..], keep);
      i := k + 1;
      forall j: nat | j < |s| && keep(s[j]) ensures j == i { assert s[1..][j - 1] == s[j]; }
    }
  }

  lemma {:induction false} FilterLength<T>(s: seq<T>, keep: T -> bool)
    ensures |Filter(s, keep)| <= |s|
    ensures (forall i :: 0 <= i < |s| ==> keep(s[i])) ==> |Filter(s, keep)| == |s|
  {
    if s != [] {
      FilterLength(s[1..], keep);
      if forall i :: 0 <= i < |s| ==> keep(s[i]) {
        forall i | 0 <= i < |s| - 1 ensures keep(s[1..][i]) { assert keep(s[i + 1]); }
      }
    }
  }
}
