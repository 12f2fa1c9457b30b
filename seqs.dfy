/** Generic sequence operations in the shape of the JavaScript array methods the
    store uses: `filter`, `reduce` with `+`, and `find`. */
module Seqs {

  datatype Option<T> = None | Some(value: T) {
    /** The value, or `default` when there is none (JavaScript's `x || default`
        for a missing field). */
    function GetOr(default: T): T {
      match this
      case Some(v) => v
      case None => default
    }
  }

  /** The elements of `s` for which `keep` holds, in their original order
      (Array.prototype.filter). */
  function Filter<T(!new)>(s: seq<T>, keep: T -> bool): (r: seq<T>)
    ensures |r| <= |s|
    ensures forall x :: x in r <==> x in s && keep(x)
  {
    if s == [] then []
    else (if keep(s[0]) then [s[0]] else []) + Filter(s[1..], keep)
  }

  /** `r` can be obtained from `s` by deleting elements: the order of what is
      kept is the order in `s`. */
  ghost predicate Subsequence<T(!new)>(r: seq<T>, s: seq<T>)
    decreases |s|
  {
    if r == [] then true
    else if s == [] then false
    else (r[0] == s[0] && Subsequence(r[1..], s[1..])) || Subsequence(r, s[1..])
  }

  /** Filtering never reorders: what survives keeps its relative order. */
  lemma {:induction false} FilterIsSubsequence<T(!new)>(s: seq<T>, keep: T -> bool)
    ensures Subsequence(Filter(s, keep), s)
    decreases |s|
  {
    if s != [] {
      FilterIsSubsequence(s[1..], keep);
      var r := Filter(s, keep);
      if keep(s[0]) {
        assert r[0] == s[0] && r[1..] == Filter(s[1..], keep);
      } else {
        assert r == Filter(s[1..], keep);
      }
    }
  }

  lemma {:induction false} FilterAppend<T(!new)>(s: seq<T>, t: seq<T>, keep: T -> bool)
    ensures Filter(s + t, keep) == Filter(s, keep) + Filter(t, keep)
    decreases |s|
  {
    if s == [] {
      assert s + t == t;
    } else {
      assert (s + t)[1..] == s[1..] + t;
      FilterAppend(s[1..], t, keep);
    }
  }

  /** Filtering with a predicate no element satisfies gives the empty sequence. */
  lemma {:induction false} FilterDropsAll<T(!new)>(s: seq<T>, keep: T -> bool)
    requires forall x :: x in s ==> !keep(x)
    ensures Filter(s, keep) == []
  {
    if Filter(s, keep) != [] {
      assert Filter(s, keep)[0] in Filter(s, keep);
    }
  }

  /** Filtering twice, where the second test implies the first, is filtering
      once with the second. */
  lemma {:induction false} FilterNarrow<T(!new)>(s: seq<T>, wide: T -> bool, narrow: T -> bool)
    requires forall x :: x in s && narrow(x) ==> wide(x)
    ensures Filter(Filter(s, wide), narrow) == Filter(s, narrow)
    decreases |s|
  {
    if s != [] {
      assert s[0] in s;
      assert forall x :: x in s[1..] ==> x in s;
      FilterNarrow(s[1..], wide, narrow);
      FilterAppend(if wide(s[0]) then [s[0]] else [], Filter(s[1..], wide), narrow);
    }
  }

  /** No two elements of `s` share a key. */
  ghost predicate DistinctBy<T(!new), K>(s: seq<T>, key: T -> K) {
    forall i, j :: 0 <= i < j < |s| ==> key(s[i]) != key(s[j])
  }

  lemma {:induction false} FilterKeepsDistinct<T(!new), K>(s: seq<T>, keep: T -> bool, key: T -> K)
    requires DistinctBy(s, key)
    ensures DistinctBy(Filter(s, keep), key)
    decreases |s|
  {
    if s != [] {
      var rest := Filter(s[1..], keep);
      assert DistinctBy(s[1..], key) by {
        forall i, j | 0 <= i < j < |s[1..]| ensures key(s[1..][i]) != key(s[1..][j]) {
          assert s[1..][i] == s[i + 1] && s[1..][j] == s[j + 1];
        }
      }
      FilterKeepsDistinct(s[1..], keep, key);
      if keep(s[0]) {
        forall y | y in rest ensures key(s[0]) != key(y) {
          var k :| 0 <= k < |s[1..]| && s[1..][k] == y;
          assert s[k + 1] == y;
        }
        var r := [s[0]] + rest;
        forall i, j | 0 <= i < j < |r| ensures key(r[i]) != key(r[j]) {
          if i == 0 {
            assert r[j] == rest[j - 1] && rest[j - 1] in rest;
          } else {
            assert r[i] == rest[i - 1] && r[j] == rest[j - 1];
          }
        }
      }
    }
  }

  /** Appending an element whose key no element of `s` has keeps keys distinct. */
  lemma AppendKeepsDistinct<T(!new), K>(s: seq<T>, x: T, key: T -> K)
    requires DistinctBy(s, key)
    requires forall y :: y in s ==> key(y) != key(x)
    ensures DistinctBy(s + [x], key)
  {
    var r := s + [x];
    forall i, j | 0 <= i < j < |r| ensures key(r[i]) != key(r[j]) {
      assert r[i] == s[i] && s[i] in s;
      if j < |s| {
        assert r[j] == s[j];
      }
    }
  }

  /** Every member of `s` with one element replaced is that element or a
      member of `s`. */
  lemma UpdateMembers<T(!new)>(s: seq<T>, i: nat, v: T)
    requires i < |s|
    ensures forall x :: x in s[i := v] ==> x == v || x in s
  {
    forall x | x in s[i := v] ensures x == v || x in s {
      var k :| 0 <= k < |s| && s[i := v][k] == x;
      if k != i {
        assert s[k] == x;
      }
    }
  }

  /** Replacing an element by one that passes the same test and has the same
      `f` leaves the sum of `f` over what passes the test unchanged. */
  lemma {:induction false} SumFilterUpdate<T(!new)>(s: seq<T>, i: nat, v: T, keep: T -> bool, f: T -> real)
    requires i < |s|
    requires keep(v) == keep(s[i]) && f(v) == f(s[i])
    ensures Sum(Filter(s[i := v], keep), f) == Sum(Filter(s, keep), f)
    decreases |s|
  {
    var t := s[i := v];
    assert t[1..] == if i == 0 then s[1..] else s[1..][i - 1 := v];
    if i > 0 {
      SumFilterUpdate(s[1..], i - 1, v, keep, f);
    }
    SumAppend(if keep(t[0]) then [t[0]] else [], Filter(t[1..], keep), f);
    SumAppend(if keep(s[0]) then [s[0]] else [], Filter(s[1..], keep), f);
  }

  /** The sum of `f` over `s` (`s.reduce((sum, x) => sum + f(x), 0)`); the
      quantities are exact reals, so the order of the additions is immaterial. */
  function Sum<T(!new)>(s: seq<T>, f: T -> real): real
  {
    if s == [] then 0.0 else f(s[0]) + Sum(s[1..], f)
  }

  lemma {:induction false} SumAppend<T(!new)>(s: seq<T>, t: seq<T>, f: T -> real)
    ensures Sum(s + t, f) == Sum(s, f) + Sum(t, f)
    decreases |s|
  {
    if s == [] {
      assert s + t == t;
    } else {
      assert (s + t)[1..] == s[1..] + t;
      SumAppend(s[1..], t, f);
    }
  }

  lemma SumSingleton<T(!new)>(x: T, f: T -> real)
    ensures Sum([x], f) == f(x)
  {
    assert [x][1..] == [];
  }

  lemma {:induction false} SumNonNegative<T(!new)>(s: seq<T>, f: T -> real)
    requires forall x :: x in s ==> f(x) >= 0.0
    ensures Sum(s, f) >= 0.0
    decreases |s|
  {
    if s != [] {
      assert s[0] in s;
      assert forall x :: x in s[1..] ==> x in s;
      SumNonNegative(s[1..], f);
    }
  }

  /** A sum splits into the part a test selects and the part it rejects. */
  lemma {:induction false} SumPartition<T(!new)>(s: seq<T>, f: T -> real, keep: T -> bool, drop: T -> bool)
    requires forall x :: x in s ==> drop(x) == !keep(x)
    ensures Sum(s, f) == Sum(Filter(s, keep), f) + Sum(Filter(s, drop), f)
    decreases |s|
  {
    if s != [] {
      assert s[0] in s;
      assert forall x :: x in s[1..] ==> x in s;
      SumPartition(s[1..], f, keep, drop);
      var k := if keep(s[0]) then [s[0]] else [];
      var d := if drop(s[0]) then [s[0]] else [];
      SumAppend(k, Filter(s[1..], keep), f);
      SumAppend(d, Filter(s[1..], drop), f);
    }
  }

  /** The index of the first element for which `hit` holds
      (Array.prototype.find returns the element at this index). */
  function FirstIndex<T(!new)>(s: seq<T>, hit: T -> bool): (r: Option<nat>)
    ensures r.Some? ==> r.value < |s| && hit(s[r.value])
    ensures r.Some? ==> forall j :: 0 <= j < r.value ==> !hit(s[j])
    ensures r.None? <==> forall x :: x in s ==> !hit(x)
  {
    if s == [] then None
    else if hit(s[0]) then Some(0)
    else match FirstIndex(s[1..], hit)
      case None => None
      case Some(k) => Some(k + 1)
  }

  /** Replacing an element by one the test treats alike does not move the
      first hit. */
  lemma {:induction false} FirstIndexUpdate<T(!new)>(s: seq<T>, i: nat, v: T, hit: T -> bool)
    requires i < |s|
    requires hit(v) == hit(s[i])
    ensures FirstIndex(s[i := v], hit) == FirstIndex(s, hit)
    decreases |s|
  {
    if i > 0 {
      assert s[i := v][1..] == s[1..][i - 1 := v];
      FirstIndexUpdate(s[1..], i - 1, v, hit);
    } else {
      assert s[i := v][1..] == s[1..];
    }
  }

  /** The sum over a filtered sequence of non-negative terms is at most the
      sum over the whole. */
  lemma {:induction false} FilteredSumAtMost<T(!new)>(s: seq<T>, keep: T -> bool, f: T -> real)
    requires forall x :: x in s ==> f(x) >= 0.0
    ensures Sum(Filter(s, keep), f) <= Sum(s, f)
    decreases |s|
  {
    if s != [] {
      assert s[0] in s;
      assert forall x :: x in s[1..] ==> x in s;
      FilteredSumAtMost(s[1..], keep, f);
      SumAppend(if keep(s[0]) then [s[0]] else [], Filter(s[1..], keep), f);
    }
  }

  /** Filters on two independent tests can be applied in either order. */
  lemma {:induction false} FilterCommute<T(!new)>(s: seq<T>, p: T -> bool, q: T -> bool)
    ensures Filter(Filter(s, p), q) == Filter(Filter(s, q), p)
    decreases |s|
  {
    if s != [] {
      FilterCommute(s[1..], p, q);
      FilterAppend(if p(s[0]) then [s[0]] else [], Filter(s[1..], p), q);
      FilterAppend(if q(s[0]) then [s[0]] else [], Filter(s[1..], q), p);
    }
  }

  /** A sum of terms that are each a fixed price times another field is
      that price times the sum of the other field. */
  lemma {:induction false} SumScaled<T(!new)>(s: seq<T>, f: T -> real, g: T -> real, price: real)
    requires forall x :: x in s ==> g(x) == price * f(x)
    ensures Sum(s, g) == price * Sum(s, f)
    decreases |s|
  {
    if s != [] {
      assert s[0] in s;
      assert forall x :: x in s[1..] ==> x in s;
      SumScaled(s[1..], f, g, price);
    }
  }
}
