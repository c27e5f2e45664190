/** Sums of a value function over sequences and over groups of sequences. Two lists with the same
    elements have the same sum, which is what lets one distribution of the same items be compared
    with another. */
module Totals {

  function Sum<T>(f: T -> nat, s: seq<T>): nat {
    if s == [] then 0 else Sum(f, s[..|s| - 1]) + f(s[|s| - 1])
  }

  /** The sum over every group. */
  function GroupSum<T>(f: T -> nat, groups: seq<seq<T>>): nat {
    if groups == [] then 0 else GroupSum(f, groups[..|groups| - 1]) + Sum(f, groups[|groups| - 1])
  }

  /** `k` times `x` as repeated addition, so that the sums below stay linear. */
  function Times(k: nat, x: nat): nat {
    if k == 0 then 0 else Times(k - 1, x) + x
  }

  lemma {:induction false} TimesIsProduct(k: nat, x: nat)
    ensures Times(k, x) == k * x
  {
    if k > 0 {
      TimesIsProduct(k - 1, x);
      assert (k - 1) * x + x == k * x;
    }
  }

  function Flatten<T>(groups: seq<seq<T>>): seq<T> {
    if groups == [] then [] else Flatten(groups[..|groups| - 1]) + groups[|groups| - 1]
  }

  lemma ConcatAssociates<T>(a: seq<T>, b: seq<T>, c: seq<T>)
    ensures (a + b) + c == a + (b + c)
  {
  }

  lemma MultisetSnoc<T>(s: seq<T>)
    requires s != []
    ensures multiset(s) == multiset(s[..|s| - 1]) + multiset{s[|s| - 1]}
  {
    assert s == s[..|s| - 1] + [s[|s| - 1]];
  }

  lemma SumSnoc<T>(f: T -> nat, s: seq<T>, x: T)
    ensures Sum(f, s + [x]) == Sum(f, s) + f(x)
  {
    assert (s + [x])[..|s|] == s;
  }

  lemma {:induction false} SumConcat<T>(f: T -> nat, a: seq<T>, b: seq<T>)
    ensures Sum(f, a + b) == Sum(f, a) + Sum(f, b)
  {
    if b == [] {
      assert a + b == a;
    } else {
      var n := |b| - 1;
      assert a + b == (a + b[..n]) + [b[n]];
      SumSnoc(f, a + b[..n], b[n]);
      SumConcat(f, a, b[..n]);
    }
  }

  lemma {:induction false} SumPermutation<T>(f: T -> nat, a: seq<T>, b: seq<T>)
    requires multiset(a) == multiset(b)
    ensures Sum(f, a) == Sum(f, b)
  {
    if a == [] {
      assert |multiset(b)| == |b|;
    } else {
      var n := |a| - 1;
      var x := a[n];
      assert x in multiset(b);
      var i :| 0 <= i < |b| && b[i] == x;
      assert a == a[..n] + [x];
      assert b == b[..i] + [x] + b[i + 1..];
      assert multiset(a[..n]) == multiset(a) - multiset{x};
      assert multiset(b[..i] + b[i + 1..]) == multiset(b) - multiset{x};
      SumPermutation(f, a[..n], b[..i] + b[i + 1..]);
      SumWithout(f, b, i);
    }
  }

  lemma SplitAround<T>(s: seq<T>, i: nat)
    requires i < |s|
    ensures s == (s[..i] + [s[i]]) + s[i + 1..]
  {
  }

  lemma SumWithout<T>(f: T -> nat, s: seq<T>, i: nat)
    requires i < |s|
    ensures Sum(f, s) == Sum(f, s[..i] + s[i + 1..]) + f(s[i])
  {
    SplitAround(s, i);
    SumConcat(f, s[..i] + [s[i]], s[i + 1..]);
    SumSnoc(f, s[..i], s[i]);
    SumConcat(f, s[..i], s[i + 1..]);
  }

  lemma {:induction false} GroupSumIsSumOfFlatten<T>(f: T -> nat, groups: seq<seq<T>>)
    ensures GroupSum(f, groups) == Sum(f, Flatten(groups))
  {
    if groups != [] {
      var n := |groups| - 1;
      GroupSumIsSumOfFlatten(f, groups[..n]);
      SumConcat(f, Flatten(groups[..n]), groups[n]);
    }
  }

  lemma {:induction false} GroupSumAtMost<T>(f: T -> nat, groups: seq<seq<T>>, cap: nat)
    requires forall b :: 0 <= b < |groups| ==> Sum(f, groups[b]) <= cap
    ensures GroupSum(f, groups) <= Times(|groups|, cap)
  {
    if groups != [] {
      var n := |groups| - 1;
      forall b | 0 <= b < n ensures Sum(f, groups[..n][b]) <= cap { assert groups[..n][b] == groups[b]; }
      GroupSumAtMost(f, groups[..n], cap);
    }
  }

  lemma {:induction false} GroupSumAtLeast<T>(f: T -> nat, groups: seq<seq<T>>, floor: nat)
    requires forall b :: 0 <= b < |groups| ==> floor <= Sum(f, groups[b])
    ensures Times(|groups|, floor) <= GroupSum(f, groups)
  {
    if groups != [] {
      var n := |groups| - 1;
      forall b | 0 <= b < n ensures floor <= Sum(f, groups[..n][b]) { assert groups[..n][b] == groups[b]; }
      GroupSumAtLeast(f, groups[..n], floor);
    }
  }

  lemma {:induction false} SumOfMember<T>(f: T -> nat, s: seq<T>, x: T)
    requires x in s
    ensures f(x) <= Sum(f, s)
  {
    var n := |s| - 1;
    if s[n] != x { SumOfMember(f, s[..n], x); }
  }

  /** Appending to one group adds that element's value and its occurrence, and nothing else. */
  lemma {:induction false} FlattenAppend<T>(groups: seq<seq<T>>, k: nat, x: T)
    requires k < |groups|
    ensures multiset(Flatten(groups[k := groups[k] + [x]])) == multiset(Flatten(groups)) + multiset{x}
  {
    var n := |groups| - 1;
    var grown := groups[k := groups[k] + [x]];
    if k == n {
      assert grown[..n] == groups[..n];
    } else {
      assert grown[..n] == groups[..n][k := groups[..n][k] + [x]];
      FlattenAppend(groups[..n], k, x);
    }
  }

  lemma {:induction false} FlattenOfEmpties<T>(groups: seq<seq<T>>)
    requires forall b :: 0 <= b < |groups| ==> groups[b] == []
    ensures Flatten(groups) == []
  {
    if groups != [] { FlattenOfEmpties(groups[..|groups| - 1]); }
  }

  /** Members of the flattened list are the members of the groups. */
  lemma {:induction false} FlattenMembers<T>(groups: seq<seq<T>>, x: T)
    ensures x in Flatten(groups) <==> exists b :: 0 <= b < |groups| && x in groups[b]
  {
    if groups != [] {
      var n := |groups| - 1;
      FlattenMembers(groups[..n], x);
      if x in Flatten(groups[..n]) {
        var b :| 0 <= b < n && x in groups[..n][b];
        assert x in groups[b];
      }
      if b :| 0 <= b < |groups| && x in groups[b] {
        if b < n { assert x in groups[..n][b]; }
      }
    }
  }

  /** Reordering inside each group does not change the flattened multiset. */
  lemma {:induction false} FlattenPointwise<T>(a: seq<seq<T>>, b: seq<seq<T>>)
    requires |a| == |b|
    requires forall i :: 0 <= i < |a| ==> multiset(a[i]) == multiset(b[i])
    ensures multiset(Flatten(a)) == multiset(Flatten(b))
  {
    if a != [] {
      var n := |a| - 1;
      assert forall i :: 0 <= i < n ==> a[..n][i] == a[i] && b[..n][i] == b[i];
      FlattenPointwise(a[..n], b[..n]);
    }
  }

  lemma {:induction false} FlattenCons<T>(first: seq<T>, rest: seq<seq<T>>)
    ensures Flatten([first] + rest) == first + Flatten(rest)
  {
    var groups := [first] + rest;
    var n := |groups| - 1;
    if rest == [] {
      assert groups[..n] == [];
    } else {
      assert groups[..n] == [first] + rest[..n - 1];
      FlattenCons(first, rest[..n - 1]);
    }
  }

  lemma {:induction false} FlattenConcat<T>(a: seq<seq<T>>, b: seq<seq<T>>)
    ensures Flatten(a + b) == Flatten(a) + Flatten(b)
  {
    if b == [] {
      assert a + b == a;
    } else {
      var n := |b| - 1;
      assert (a + b)[..|a| + n] == a + b[..n];
      FlattenConcat(a, b[..n]);
    }
  }

  /** The elements that `keep` accepts, in order. */
  function Filter<T>(keep: T -> bool, s: seq<T>): seq<T> {
    if s == [] then [] else (if keep(s[0]) then [s[0]] else []) + Filter(keep, s[1..])
  }

  lemma {:induction false} FilterMembers<T>(keep: T -> bool, s: seq<T>, x: T)
    ensures x in Filter(keep, s) <==> x in s && keep(x)
  {
    if s != [] { FilterMembers(keep, s[1..], x); }
  }

  /** `f` applied to every element, the results joined. */
  function FlatMap<T, U>(f: T -> seq<U>, s: seq<T>): seq<U> {
    if s == [] then [] else FlatMap(f, s[..|s| - 1]) + f(s[|s| - 1])
  }

  lemma {:induction false} FlatMapConcat<T, U>(f: T -> seq<U>, a: seq<T>, b: seq<T>)
    ensures FlatMap(f, a + b) == FlatMap(f, a) + FlatMap(f, b)
  {
    if b == [] {
      assert a + b == a;
    } else {
      var n := |b| - 1;
      assert (a + b)[..|a| + n] == a + b[..n];
      FlatMapConcat(f, a, b[..n]);
      ConcatAssociates(FlatMap(f, a), FlatMap(f, b[..n]), f(b[n]));
    }
  }

  lemma FlatMapOne<T, U>(f: T -> seq<U>, x: T)
    ensures FlatMap(f, [x]) == f(x)
  {
    assert [x][..0] == [];
    assert [] + f(x) == f(x);
  }

  lemma FlatMapWithout<T, U>(f: T -> seq<U>, s: seq<T>, i: nat)
    requires i < |s|
    ensures multiset(FlatMap(f, s)) == multiset(FlatMap(f, s[..i] + s[i + 1..])) + multiset(f(s[i]))
  {
    SplitAround(s, i);
    FlatMapConcat(f, s[..i] + [s[i]], s[i + 1..]);
    FlatMapConcat(f, s[..i], [s[i]]);
    FlatMapOne(f, s[i]);
    FlatMapConcat(f, s[..i], s[i + 1..]);
  }

  lemma {:induction false} FlatMapPermutation<T, U>(f: T -> seq<U>, a: seq<T>, b: seq<T>)
    requires multiset(a) == multiset(b)
    ensures multiset(FlatMap(f, a)) == multiset(FlatMap(f, b))
  {
    if a == [] {
      assert |multiset(b)| == |b|;
    } else {
      var n := |a| - 1;
      var x := a[n];
      assert x in multiset(b);
      var i :| 0 <= i < |b| && b[i] == x;
      assert a == a[..n] + [x];
      SplitAround(b, i);
      assert multiset(a[..n]) == multiset(a) - multiset{x};
      assert multiset(b[..i] + b[i + 1..]) == multiset(b) - multiset{x};
      FlatMapPermutation(f, a[..n], b[..i] + b[i + 1..]);
      FlatMapWithout(f, b, i);
    }
  }

  /** If `f` gives as many elements as `size` says, the joined length is the summed size. */
  lemma {:induction false} FlatMapLength<T, U>(f: T -> seq<U>, size: T -> nat, s: seq<T>)
    requires forall x :: x in s ==> |f(x)| == size(x)
    ensures |FlatMap(f, s)| == Sum(size, s)
  {
    if s != [] { FlatMapLength(f, size, s[..|s| - 1]); }
  }
}
