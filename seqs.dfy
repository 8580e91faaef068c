/** The array combinators the client applies to query results
    (Array.prototype.map and Array.prototype.filter, and the
    "drop the nulls" filter), with the facts the views rely on. */
module Seqs {
  import opened Wrappers

  /** `xs.map(f)` */
  function Map<T, U>(xs: seq<T>, f: T -> U): (ys: seq<U>)
    ensures |ys| == |xs|
    ensures forall i :: 0 <= i < |xs| ==> ys[i] == f(xs[i])
  {
    seq(|xs|, i requires 0 <= i < |xs| => f(xs[i]))
  }

  /** `ys` is `xs` with some elements left out and the rest in their order. */
  ghost predicate IsSubsequence<T>(ys: seq<T>, xs: seq<T>)
    decreases |xs|
  {
    ys == [] ||
    (xs != [] &&
     ((ys[0] == xs[0] && IsSubsequence(ys[1..], xs[1..])) || IsSubsequence(ys, xs[1..])))
  }

  /** `xs.filter(p)` */
  function Filter<T>(xs: seq<T>, p: T -> bool): (ys: seq<T>)
    ensures |ys| <= |xs|
    ensures forall i :: 0 <= i < |ys| ==> p(ys[i])
    ensures IsSubsequence(ys, xs)
  {
    if xs == [] then []
    else if p(xs[0]) then
      var rest := Filter(xs[1..], p);
      assert ([xs[0]] + rest)[1..] == rest;
      [xs[0]] + rest
    else Filter(xs[1..], p)
  }

  /** `xs.filter(x => x !== null)`, keeping the non-null values. */
  function Somes<T>(xs: seq<Option<T>>): (ys: seq<T>)
    ensures |ys| <= |xs|
  {
    if xs == [] then []
    else match xs[0]
      case Some(v) => [v] + Somes(xs[1..])
      case None => Somes(xs[1..])
  }

  /** The elements of `xs` are in non-decreasing order of `key`. */
  ghost predicate SortedBy<T>(xs: seq<T>, key: T -> int) {
    forall i, j :: 0 <= i < j < |xs| ==> key(xs[i]) <= key(xs[j])
  }

  lemma {:induction false} SubsequenceMembers<T>(ys: seq<T>, xs: seq<T>)
    requires IsSubsequence(ys, xs)
    ensures forall y :: y in ys ==> y in xs
    decreases |xs|
  {
    if ys != [] {
      if ys[0] == xs[0] && IsSubsequence(ys[1..], xs[1..]) {
        SubsequenceMembers(ys[1..], xs[1..]);
        forall y | y in ys ensures y in xs {
          if y != ys[0] { assert y in ys[1..]; assert y in xs[1..]; }
        }
      } else {
        SubsequenceMembers(ys, xs[1..]);
      }
    }
  }

  /** Leaving elements out of a sorted sequence keeps it sorted. */
  lemma {:induction false} SubsequenceKeepsSorted<T>(ys: seq<T>, xs: seq<T>, key: T -> int)
    requires IsSubsequence(ys, xs)
    requires SortedBy(xs, key)
    ensures SortedBy(ys, key)
    decreases |xs|
  {
    if ys != [] {
      assert SortedBy(xs[1..], key) by {
        forall i, j | 0 <= i < j < |xs| - 1 ensures key(xs[1..][i]) <= key(xs[1..][j]) {
          assert xs[1..][i] == xs[i + 1] && xs[1..][j] == xs[j + 1];
        }
      }
      if ys[0] == xs[0] && IsSubsequence(ys[1..], xs[1..]) {
        SubsequenceKeepsSorted(ys[1..], xs[1..], key);
        SubsequenceMembers(ys[1..], xs[1..]);
        forall j | 0 < j < |ys| ensures key(ys[0]) <= key(ys[j]) {
          assert ys[j] == ys[1..][j - 1];
          assert ys[j] in ys[1..];
          assert ys[j] in xs[1..];
          var k :| 0 <= k < |xs[1..]| && xs[1..][k] == ys[j];
          assert xs[k + 1] == ys[j];
        }
        forall i, j | 0 <= i < j < |ys| ensures key(ys[i]) <= key(ys[j]) {
          if i > 0 { assert ys[i] == ys[1..][i - 1] && ys[j] == ys[1..][j - 1]; }
        }
      } else {
        SubsequenceKeepsSorted(ys, xs[1..], key);
      }
    }
  }

  /** An element survives `filter` exactly when it was there and passes the test. */
  lemma {:induction false} FilterMembership<T>(xs: seq<T>, p: T -> bool, x: T)
    ensures x in Filter(xs, p) <==> x in xs && p(x)
  {
    if xs != [] {
      FilterMembership(xs[1..], p, x);
      assert xs == [xs[0]] + xs[1..];
    }
  }

  /** Two complementary filters split a sequence: every element lands in
      exactly one of them, so their lengths add up and, together, they hold
      every element as often as the input does. */
  lemma {:induction false} FilterPartition<T>(xs: seq<T>, p: T -> bool, q: T -> bool)
    requires forall x :: q(x) == !p(x)
    ensures |Filter(xs, p)| + |Filter(xs, q)| == |xs|
    ensures multiset(Filter(xs, p)) + multiset(Filter(xs, q)) == multiset(xs)
  {
    if xs != [] {
      FilterPartition(xs[1..], p, q);
      assert xs == [xs[0]] + xs[1..];
    }
  }

  /** Mapping first and filtering on the mapped value is filtering on the
      original value and mapping afterwards. */
  lemma {:induction false} FilterAfterMap<T, U>(xs: seq<T>, f: T -> U, p: U -> bool, q: T -> bool)
    requires forall x :: p(f(x)) == q(x)
    ensures Filter(Map(xs, f), p) == Map(Filter(xs, q), f)
  {
    if xs != [] {
      FilterAfterMap(xs[1..], f, p, q);
      assert Map(xs, f)[1..] == Map(xs[1..], f);
      if q(xs[0]) {
        assert Filter(xs, q) == [xs[0]] + Filter(xs[1..], q);
        assert Map(Filter(xs, q), f) == [f(xs[0])] + Map(Filter(xs[1..], q), f);
      }
    }
  }

  /** Mapping to optional values and dropping the nulls keeps, in order, one
      value for each element on which `f` is defined. */
  lemma {:induction false} SomesAfterMap<T, U>(xs: seq<T>, f: T -> Option<U>, p: T -> bool)
    requires forall x :: p(x) == f(x).Some?
    ensures |Somes(Map(xs, f))| == |Filter(xs, p)|
    ensures forall i :: 0 <= i < |Filter(xs, p)| ==> f(Filter(xs, p)[i]) == Some(Somes(Map(xs, f))[i])
  {
    if xs != [] {
      SomesAfterMap(xs[1..], f, p);
      assert Map(xs, f)[1..] == Map(xs[1..], f);
      var kept, vals := Filter(xs[1..], p), Somes(Map(xs[1..], f));
      if p(xs[0]) {
        assert Filter(xs, p) == [xs[0]] + kept;
        assert Somes(Map(xs, f)) == [f(xs[0]).value] + vals;
        forall i | 0 < i < |Filter(xs, p)|
          ensures f(Filter(xs, p)[i]) == Some(Somes(Map(xs, f))[i])
        {
          assert Filter(xs, p)[i] == kept[i - 1];
          assert Somes(Map(xs, f))[i] == vals[i - 1];
        }
      }
    }
  }
}
