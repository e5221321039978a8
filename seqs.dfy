/** Order-preserving filter, map and search over sequences: the shapes every
    query of the local database reduces to. */
module Seqs {

  datatype Option<T> = None | Some(value: T)

  /** The elements of `s` that satisfy `p`, in their original order. */
  function Filter<T(!new)>(s: seq<T>, p: T -> bool): (r: seq<T>)
    ensures |r| <= |s|
    ensures forall x :: x in r <==> x in s && p(x)
    ensures forall i :: 0 <= i < |r| ==> p(r[i])
  {
    if s == [] then [] else (if p(s[0]) then [s[0]] else []) + Filter(s[1..], p)
  }

  /** A filter keeps every occurrence of a satisfying element and nothing
      else: it neither repeats nor drops rows. */
  lemma {:induction false} FilterMultiset<T(!new)>(s: seq<T>, p: T -> bool)
    ensures forall x :: multiset(Filter(s, p))[x] == if p(x) then multiset(s)[x] else 0
  {
    if s != [] {
      FilterMultiset(s[1..], p);
      assert s == [s[0]] + s[1..];
    }
  }

  /** `f` applied to every element of `s`, in order. */
  function Map<A, B>(s: seq<A>, f: A -> B): (r: seq<B>)
    ensures |r| == |s|
    ensures forall i :: 0 <= i < |s| ==> r[i] == f(s[i])
  {
    if s == [] then [] else [f(s[0])] + Map(s[1..], f)
  }

  /** Filtering distributes over concatenation: rows keep the order in which
      they were appended. */
  lemma {:induction false} FilterAppend<T(!new)>(a: seq<T>, b: seq<T>, p: T -> bool)
    ensures Filter(a + b, p) == Filter(a, p) + Filter(b, p)
  {
    if a == [] {
      assert a + b == b;
    } else {
      assert (a + b)[1..] == a[1..] + b;
      FilterAppend(a[1..], b, p);
    }
  }

  /** Filtering twice is filtering once by the conjunction. */
  lemma {:induction false} FilterFilter<T(!new)>(s: seq<T>, p: T -> bool, q: T -> bool, pq: T -> bool)
    requires forall x :: pq(x) == (p(x) && q(x))
    ensures Filter(Filter(s, p), q) == Filter(s, pq)
  {
    if s != [] {
      FilterFilter(s[1..], p, q, pq);
      if p(s[0]) {
        assert Filter(s, p)[1..] == Filter(s[1..], p);
      } else {
        assert Filter(s, p) == Filter(s[1..], p);
      }
    }
  }

  /** Mapping the survivors of a filter with `g` is the same as filtering the
      image under `f` by `q`, provided `q` recognises exactly the images of
      survivors and `g` agrees with `f` on survivors. */
  lemma {:induction false} MapFilter<A(!new), B(!new)>(s: seq<A>, p: A -> bool, f: A -> B, g: A -> B, q: B -> bool)
    requires forall i :: 0 <= i < |s| ==> q(f(s[i])) == p(s[i])
    requires forall i :: 0 <= i < |s| && p(s[i]) ==> g(s[i]) == f(s[i])
    ensures Map(Filter(s, p), g) == Filter(Map(s, f), q)
  {
    if s != [] {
      MapFilter(s[1..], p, f, g, q);
      assert Map(s, f)[1..] == Map(s[1..], f);
      if p(s[0]) {
        assert Filter(s, p) == [s[0]] + Filter(s[1..], p);
      } else {
        assert Filter(s, p) == Filter(s[1..], p);
      }
    }
  }

  /** Maps with functions that agree on the elements of `s` agree. */
  lemma {:induction false} MapCongruent<A, B>(s: seq<A>, f: A -> B, g: A -> B)
    requires forall i :: 0 <= i < |s| ==> f(s[i]) == g(s[i])
    ensures Map(s, f) == Map(s, g)
  {
    if s != [] {
      MapCongruent(s[1..], f, g);
    }
  }

  /** A predicate that implies another keeps no more elements. */
  lemma {:induction false} FilterWeaker<T(!new)>(s: seq<T>, p: T -> bool, q: T -> bool)
    requires forall x :: p(x) ==> q(x)
    ensures |Filter(s, p)| <= |Filter(s, q)|
  {
    FilterFilter(s, q, p, p);
  }

  /** When `p` holds of exactly the elements that satisfy one of two exclusive
      predicates, the counts add up. */
  lemma {:induction false} FilterSplitCount<T(!new)>(s: seq<T>, p: T -> bool, q: T -> bool, r: T -> bool)
    requires forall x :: p(x) == (q(x) || r(x))
    requires forall x :: !(q(x) && r(x))
    ensures |Filter(s, p)| == |Filter(s, q)| + |Filter(s, r)|
  {
    if s != [] {
      FilterSplitCount(s[1..], p, q, r);
    }
  }

  /** No two elements of `s` share a key. */
  predicate Distinct<T, K(==)>(s: seq<T>, key: T -> K) {
    forall i, j :: 0 <= i < j < |s| ==> key(s[i]) != key(s[j])
  }

  /** Keys stay distinct in a filtered sequence. */
  lemma {:induction false} FilterDistinct<T(!new), K>(s: seq<T>, key: T -> K, p: T -> bool)
    requires Distinct(s, key)
    ensures Distinct(Filter(s, p), key)
  {
    if s != [] {
      DistinctTail(s, key);
      FilterDistinct(s[1..], key, p);
      var rest := Filter(s[1..], p);
      if p(s[0]) {
        var r := [s[0]] + rest;
        forall i, j | 0 <= i < j < |r| ensures key(r[i]) != key(r[j]) {
          assert r[j] == rest[j - 1] && rest[j - 1] in rest;
          if i > 0 {
            assert r[i] == rest[i - 1];
          }
        }
      }
    }
  }

  /** The tail of a sequence with distinct keys has distinct keys, none
      equal to the head's. */
  lemma DistinctTail<T, K>(s: seq<T>, key: T -> K)
    requires Distinct(s, key) && s != []
    ensures Distinct(s[1..], key)
    ensures forall x :: x in s[1..] ==> key(x) != key(s[0])
  {
    forall x | x in s[1..] ensures key(x) != key(s[0]) {
      var k :| 0 <= k < |s[1..]| && s[1..][k] == x;
      assert s[k + 1] == x;
    }
    forall i, j | 0 <= i < j < |s[1..]| ensures key(s[1..][i]) != key(s[1..][j]) {
      assert s[1..][i] == s[i + 1] && s[1..][j] == s[j + 1];
    }
  }

  /** With distinct keys, a filter keeps as many elements as the set `all`
      of the elements that satisfy the predicate has. */
  lemma {:induction false} FilterCardinality<T(!new), K>(s: seq<T>, key: T -> K, p: T -> bool, all: set<T>)
    requires Distinct(s, key)
    requires forall x :: x in all <==> x in s && p(x)
    ensures |Filter(s, p)| == |all|
  {
    if s == [] {
      assert all == {};
    } else {
      DistinctTail(s, key);
      assert s == [s[0]] + s[1..];
      var rest := all - {s[0]};
      forall x ensures x in rest <==> x in s[1..] && p(x) {
        assert x in s <==> x == s[0] || x in s[1..];
      }
      FilterCardinality(s[1..], key, p, rest);
      if p(s[0]) {
        assert |rest| == |all| - 1;
      } else {
        assert rest == all;
      }
    }
  }

  /** Appending rows whose keys are new and distinct keeps keys distinct. */
  lemma DistinctAppend<T, K>(a: seq<T>, b: seq<T>, key: T -> K)
    requires Distinct(a, key) && Distinct(b, key)
    requires forall i, j :: 0 <= i < |a| && 0 <= j < |b| ==> key(a[i]) != key(b[j])
    ensures Distinct(a + b, key)
  {
    var ab := a + b;
    forall i, j | 0 <= i < j < |ab| ensures key(ab[i]) != key(ab[j]) {
      if j < |a| {
        assert ab[i] == a[i] && ab[j] == a[j];
      } else if i < |a| {
        assert ab[i] == a[i] && ab[j] == b[j - |a|];
      } else {
        assert ab[i] == b[i - |a|] && ab[j] == b[j - |a|];
      }
    }
  }

  /** In a sequence with distinct keys, equal keys mean the same element. */
  lemma DistinctKeyDetermines<T, K>(s: seq<T>, key: T -> K, x: T, y: T)
    requires Distinct(s, key) && x in s && y in s && key(x) == key(y)
    ensures x == y
  {
    var i :| 0 <= i < |s| && s[i] == x;
    var j :| 0 <= j < |s| && s[j] == y;
    if i < j {
      assert false;
    } else if j < i {
      assert false;
    }
  }

  /** The first element of `s` that satisfies `p`. */
  function Find<T(!new)>(s: seq<T>, p: T -> bool): (r: Option<T>)
    ensures r.Some? ==> r.value in s && p(r.value)
    ensures r.None? ==> forall x :: x in s ==> !p(x)
  {
    if s == [] then None
    else if p(s[0]) then Some(s[0])
    else Find(s[1..], p)
  }
}
