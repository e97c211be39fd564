/**
 * The array idioms the pages use over fetched rows: `filter`, `findIndex`,
 * the `filter((x, i, self) => i === self.findIndex(...))` de-duplication, and the
 * store's `order(...)`, modelled as a sort.
 */
module Seqs {
  import opened Wrappers

  /** `a` is `b` with some elements left out and the rest in their original order. */
  predicate Subseq<T(==)>(a: seq<T>, b: seq<T>)
    decreases |b|
  {
    a == [] || (b != [] && ((a[0] == b[0] && Subseq(a[1..], b[1..])) || Subseq(a, b[1..])))
  }

  /** Every sequence is an order-preserving subset of itself. */
  lemma {:induction false} SubseqRefl<T>(a: seq<T>)
    ensures Subseq(a, a)
    decreases |a|
  {
    if a != [] {
      SubseqRefl(a[1..]);
    }
  }

  /** Every element of an order-preserving subset of `b` is an element of `b`. */
  lemma {:induction false} SubseqMembers<T>(a: seq<T>, b: seq<T>)
    requires Subseq(a, b)
    ensures forall x :: x in a ==> x in b
    decreases |b|
  {
    if a != [] {
      assert forall x :: x in a ==> x == a[0] || x in a[1..];
      assert forall x :: x in b[1..] ==> x in b;
      if a[0] == b[0] && Subseq(a[1..], b[1..]) {
        SubseqMembers(a[1..], b[1..]);
      } else {
        SubseqMembers(a, b[1..]);
      }
    }
  }

  /** `s.filter(p)`: the elements satisfying `p`, in their original order. */
  function Filter<T(==)>(s: seq<T>, p: T -> bool): (r: seq<T>)
    ensures |r| <= |s|
    ensures forall x :: x in r ==> x in s && p(x)
  {
    if s == [] then []
    else
      var rest := Filter(s[1..], p);
      assert forall x :: x in s[1..] ==> x in s;
      if p(s[0]) then [s[0]] + rest else rest
  }

  /** An element is kept by a filter exactly when it is in the input and satisfies the predicate. */
  lemma {:induction false} FilterMembers<T>(s: seq<T>, p: T -> bool)
    ensures forall x :: x in Filter(s, p) <==> x in s && p(x)
  {
    if s != [] {
      FilterMembers(s[1..], p);
      assert forall x :: x in s ==> x == s[0] || x in s[1..];
    }
  }

  /** A filter keeps every element satisfying the predicate as often as it occurs. */
  lemma {:induction false} FilterMultiset<T>(s: seq<T>, p: T -> bool)
    ensures forall x :: x in s && p(x) ==> multiset(Filter(s, p))[x] == multiset(s)[x]
  {
    if s != [] {
      FilterMultiset(s[1..], p);
      assert s == [s[0]] + s[1..];
      forall x | x in s && p(x) ensures multiset(Filter(s, p))[x] == multiset(s)[x] {
        if x !in s[1..] {
          FilterMembers(s[1..], p);
        }
      }
    }
  }

  /** A filter keeps every element satisfying the predicate as often as it occurs, and no other element. */
  lemma FilterCount<T>(s: seq<T>, p: T -> bool)
    ensures forall x :: multiset(Filter(s, p))[x] == if p(x) then multiset(s)[x] else 0
  {
    FilterMultiset(s, p);
    FilterMembers(s, p);
  }

  /** Filtering on equality with `v` keeps as many elements as `v` occurs. */
  lemma {:induction false} FilterEqualCount<T>(s: seq<T>, p: T -> bool, v: T)
    requires forall x :: p(x) <==> x == v
    ensures |Filter(s, p)| == multiset(s)[v]
  {
    if s != [] {
      FilterEqualCount(s[1..], p, v);
      assert s == [s[0]] + s[1..];
    }
  }

  /** Filtering a single element keeps it exactly when it satisfies the predicate. */
  lemma FilterSingleton<T>(x: T, p: T -> bool)
    ensures Filter([x], p) == if p(x) then [x] else []
  {
    assert [x][1..] == [];
  }

  /** A filter keeps the order of what it keeps. */
  lemma {:induction false} FilterSubseq<T>(s: seq<T>, p: T -> bool)
    ensures Subseq(Filter(s, p), s)
  {
    if s != [] {
      FilterSubseq(s[1..], p);
      var rest := Filter(s[1..], p);
      if p(s[0]) {
        assert ([s[0]] + rest)[1..] == rest;
      }
    }
  }

  /** No value occurs twice in `s`. */
  predicate Distinct<T(==)>(s: seq<T>) {
    forall i, j :: 0 <= i < j < |s| ==> s[i] != s[j]
  }

  /** Filtering keeps keys unique. */
  lemma {:induction false} FilterUniqueKeys<T, K>(s: seq<T>, key: T -> K, p: T -> bool)
    requires UniqueKeys(s, key)
    ensures UniqueKeys(Filter(s, p), key)
  {
    if s != [] {
      var tail := s[1..];
      assert UniqueKeys(tail, key) by {
        forall i, j | 0 <= i < j < |tail| ensures key(tail[i]) != key(tail[j]) {
          assert tail[i] == s[i + 1] && tail[j] == s[j + 1];
        }
      }
      FilterUniqueKeys(tail, key, p);
      var rest := Filter(tail, p);
      if p(s[0]) {
        var r := [s[0]] + rest;
        forall i, j | 0 <= i < j < |r| ensures key(r[i]) != key(r[j]) {
          assert r[j] == rest[j - 1] && rest[j - 1] in rest;
          if i > 0 {
            assert r[i] == rest[i - 1];
          } else {
            var k :| 0 <= k < |tail| && tail[k] == r[j];
            assert tail[k] == s[k + 1];
          }
        }
        assert Filter(s, p) == r;
      }
    }
  }

  /** A predicate that holds of every element keeps the whole sequence. */
  lemma {:induction false} FilterAll<T>(s: seq<T>, p: T -> bool)
    requires forall x :: x in s ==> p(x)
    ensures Filter(s, p) == s
  {
    if s != [] {
      FilterAll(s[1..], p);
    }
  }

  /** A predicate that holds of no element keeps nothing. */
  lemma {:induction false} FilterNone<T>(s: seq<T>, p: T -> bool)
    requires forall x :: x in s ==> !p(x)
    ensures Filter(s, p) == []
  {
    if s != [] {
      FilterNone(s[1..], p);
    }
  }

  /** Filtering distributes over concatenation. */
  lemma {:induction false} FilterAppend<T>(a: seq<T>, b: seq<T>, p: T -> bool)
    ensures Filter(a + b, p) == Filter(a, p) + Filter(b, p)
  {
    if a != [] {
      assert (a + b)[1..] == a[1..] + b;
      assert (a + b)[0] == a[0];
      FilterAppend(a[1..], b, p);
      if p(a[0]) {
        assert Filter(a + b, p) == [a[0]] + Filter(a[1..] + b, p);
        assert Filter(a, p) == [a[0]] + Filter(a[1..], p);
      } else {
        assert Filter(a + b, p) == Filter(a[1..] + b, p);
        assert Filter(a, p) == Filter(a[1..], p);
      }
    } else {
      assert a + b == b;
    }
  }

  /** When `p` implies `q`, fewer elements pass `p` than pass `q`. */
  lemma {:induction false} FilterMonotone<T>(s: seq<T>, p: T -> bool, q: T -> bool)
    requires forall x :: p(x) ==> q(x)
    ensures |Filter(s, p)| <= |Filter(s, q)|
  {
    if s != [] {
      FilterMonotone(s[1..], p, q);
    }
  }

  /** An element the predicate rejects can be dropped from anywhere without changing the filter. */
  lemma FilterSkip<T>(a: seq<T>, x: T, b: seq<T>, p: T -> bool)
    requires !p(x)
    ensures Filter(a + [x] + b, p) == Filter(a + b, p)
  {
    assert Filter([x], p) == [] by {
      assert [x][1..] == [];
    }
    calc {
      Filter(a + [x] + b, p);
      { FilterAppend(a + [x], b, p); }
      Filter(a + [x], p) + Filter(b, p);
      { FilterAppend(a, [x], p); }
      Filter(a, p) + Filter(b, p);
      { FilterAppend(a, b, p); }
      Filter(a + b, p);
    }
  }

  /** A non-empty sequence is its front followed by its last element. */
  lemma SplitLast<T>(s: seq<T>)
    requires s != []
    ensures s == s[..|s| - 1] + [s[|s| - 1]]
  {
  }

  /** Filtering a sequence extended by one element extends the filter by that element when it is kept. */
  lemma FilterSnoc<T>(s: seq<T>, x: T, p: T -> bool)
    ensures Filter(s + [x], p) == Filter(s, p) + (if p(x) then [x] else [])
  {
    assert Filter([x], p) == (if p(x) then [x] else []) by {
      assert [x][1..] == [];
    }
    FilterAppend(s, [x], p);
  }

  /** `s.reduce((sum, x) => sum + f(x), 0)`. */
  function SumBy<T>(s: seq<T>, f: T -> real): real {
    if s == [] then 0.0 else f(s[0]) + SumBy(s[1..], f)
  }

  /** A sum over two pieces is the sum of the two sums. */
  lemma {:induction false} SumByAppend<T>(a: seq<T>, b: seq<T>, f: T -> real)
    ensures SumBy(a + b, f) == SumBy(a, f) + SumBy(b, f)
  {
    if a != [] {
      assert (a + b)[1..] == a[1..] + b;
      SumByAppend(a[1..], b, f);
    } else {
      assert a + b == b;
    }
  }

  /** A sum over a sequence extended by one element grows by that element's term. */
  lemma SumBySnoc<T>(s: seq<T>, x: T, f: T -> real)
    ensures SumBy(s + [x], f) == SumBy(s, f) + f(x)
  {
    SumByAppend(s, [x], f);
    assert SumBy([x], f) == f(x) by {
      assert [x][1..] == [];
    }
  }

  /** A sum over what a filter keeps grows by the new element's term exactly when the filter keeps it. */
  lemma FilterSumSnoc<T>(s: seq<T>, x: T, p: T -> bool, f: T -> real)
    ensures SumBy(Filter(s + [x], p), f) == SumBy(Filter(s, p), f) + (if p(x) then f(x) else 0.0)
  {
    FilterSnoc(s, x, p);
    var kept := Filter(s, p);
    if p(x) {
      SumBySnoc(kept, x, f);
    } else {
      assert Filter(s + [x], p) == kept + [];
      assert kept + [] == kept;
    }
  }

  /** A sum of non-negative terms is non-negative. */
  lemma {:induction false} SumByNonNegative<T>(s: seq<T>, f: T -> real)
    requires forall x :: x in s ==> f(x) >= 0.0
    ensures SumBy(s, f) >= 0.0
  {
    if s != [] {
      assert forall x :: x in s[1..] ==> x in s;
      SumByNonNegative(s[1..], f);
    }
  }

  /** With non-negative terms, a sum over the elements a filter keeps is at most the whole sum. */
  lemma {:induction false} SumByFilterAtMost<T>(s: seq<T>, p: T -> bool, f: T -> real)
    requires forall x :: x in s ==> f(x) >= 0.0
    ensures SumBy(Filter(s, p), f) <= SumBy(s, f)
  {
    if s != [] {
      assert forall x :: x in s[1..] ==> x in s;
      SumByFilterAtMost(s[1..], p, f);
      if p(s[0]) {
        assert ([s[0]] + Filter(s[1..], p))[1..] == Filter(s[1..], p);
      }
    }
  }

  /** Two predicates that never hold together keep at most the whole sequence between them. */
  lemma {:induction false} FilterDisjoint<T>(s: seq<T>, p: T -> bool, q: T -> bool)
    requires forall x :: !(p(x) && q(x))
    ensures |Filter(s, p)| + |Filter(s, q)| <= |s|
  {
    if s != [] {
      FilterDisjoint(s[1..], p, q);
    }
  }

  /**
   * `s.filter((_, i) => i !== index)`: the element at `index` is dropped and the
   * others keep their order; an index outside the sequence drops nothing.
   */
  function RemoveIndex<T>(s: seq<T>, index: int): (r: seq<T>)
    ensures 0 <= index < |s| ==> r == s[..index] + s[index + 1..]
    ensures !(0 <= index < |s|) ==> r == s
  {
    if s == [] || index < 0 then s
    else if index == 0 then s[1..]
    else
      var rest := RemoveIndex(s[1..], index - 1);
      assert s == [s[0]] + s[1..];
      [s[0]] + rest
  }

  /** `s.find(p)`: the first element satisfying `p`, or none. */
  function Find<T(==)>(s: seq<T>, p: T -> bool): (r: Option<T>)
    ensures r.None? <==> forall x :: x in s ==> !p(x)
    ensures r.Some? ==> exists i :: 0 <= i < |s| && s[i] == r.value && p(s[i]) && forall j :: 0 <= j < i ==> !p(s[j])
  {
    if s == [] then None
    else if p(s[0]) then Some(s[0])
    else
      var r := Find(s[1..], p);
      assert forall x :: x in s ==> x == s[0] || x in s[1..];
      if r.Some? then
        var i :| 0 <= i < |s[1..]| && s[1..][i] == r.value && p(s[1..][i]) && forall j :: 0 <= j < i ==> !p(s[1..][j]);
        assert s[i + 1] == r.value;
        assert forall j :: 0 <= j < i + 1 ==> !p(s[j]) by {
          forall j | 0 <= j < i + 1 ensures !p(s[j]) {
            if j > 0 {
              assert s[j] == s[1..][j - 1];
            }
          }
        }
        r
      else r
  }

  /** Searching a filtered sequence for elements the filter always keeps finds what searching the whole finds. */
  lemma {:induction false} FindFiltered<T>(s: seq<T>, p: T -> bool, q: T -> bool)
    requires forall x :: q(x) ==> p(x)
    ensures Find(Filter(s, p), q) == Find(s, q)
  {
    if s != [] {
      FindFiltered(s[1..], p, q);
      if p(s[0]) {
        assert Filter(s, p) == [s[0]] + Filter(s[1..], p);
        assert ([s[0]] + Filter(s[1..], p))[1..] == Filter(s[1..], p);
      }
    }
  }

  /** Filtering by a stronger predicate after a weaker one is filtering by the stronger one. */
  lemma {:induction false} FilterFiltered<T>(s: seq<T>, p: T -> bool, q: T -> bool)
    requires forall x :: q(x) ==> p(x)
    ensures Filter(Filter(s, p), q) == Filter(s, q)
  {
    if s != [] {
      FilterFiltered(s[1..], p, q);
      if p(s[0]) {
        assert Filter(s, p) == [s[0]] + Filter(s[1..], p);
        assert ([s[0]] + Filter(s[1..], p))[1..] == Filter(s[1..], p);
      }
    }
  }

  /** `s.findIndex(x => key(x) === k)`: the first position whose key is `k`, or -1. */
  function FindIndex<T, K(==)>(s: seq<T>, key: T -> K, k: K): (r: int)
    ensures -1 <= r < |s|
    ensures r >= 0 ==> key(s[r]) == k && forall j :: 0 <= j < r ==> key(s[j]) != k
    ensures r == -1 <==> forall j :: 0 <= j < |s| ==> key(s[j]) != k
  {
    FindIndexFrom(s, key, k, 0)
  }

  function FindIndexFrom<T, K(==)>(s: seq<T>, key: T -> K, k: K, i: nat): (r: int)
    requires i <= |s|
    requires forall j :: 0 <= j < i ==> key(s[j]) != k
    ensures -1 <= r < |s|
    ensures r >= 0 ==> key(s[r]) == k && forall j :: 0 <= j < r ==> key(s[j]) != k
    ensures r == -1 <==> forall j :: 0 <= j < |s| ==> key(s[j]) != k
    decreases |s| - i
  {
    if i == |s| then -1
    else if key(s[i]) == k then i
    else FindIndexFrom(s, key, k, i + 1)
  }

  /** No two elements of `s` have the same key. */
  predicate UniqueKeys<T, K(==)>(s: seq<T>, key: T -> K) {
    forall a, b :: 0 <= a < b < |s| ==> key(s[a]) != key(s[b])
  }

  /**
   * The elements `s[j]`, `j >= i`, that are the first of their key in the whole of `s`.
   * Dedup below is this from position 0.
   */
  function DedupFrom<T(==), K(==)>(s: seq<T>, key: T -> K, i: nat): seq<T>
    requires i <= |s|
    decreases |s| - i
  {
    if i == |s| then []
    else (if FindIndex(s, key, key(s[i])) == i then [s[i]] else []) + DedupFrom(s, key, i + 1)
  }

  /** Each survivor from position `i` on is the first occurrence of its key, at or after `i`. */
  lemma {:induction false} DedupFromFirst<T, K>(s: seq<T>, key: T -> K, i: nat)
    requires i <= |s|
    ensures forall y :: y in DedupFrom(s, key, i) ==>
              i <= FindIndex(s, key, key(y)) && y == s[FindIndex(s, key, key(y))]
    decreases |s| - i
  {
    if i < |s| {
      DedupFromFirst(s, key, i + 1);
    }
  }

  /** The survivors from position `i` on have pairwise different keys. */
  lemma {:induction false} DedupFromUniqueKeys<T, K>(s: seq<T>, key: T -> K, i: nat)
    requires i <= |s|
    ensures UniqueKeys(DedupFrom(s, key, i), key)
    decreases |s| - i
  {
    if i < |s| {
      var rest := DedupFrom(s, key, i + 1);
      DedupFromUniqueKeys(s, key, i + 1);
      DedupFromFirst(s, key, i + 1);
      if FindIndex(s, key, key(s[i])) == i {
        var r := [s[i]] + rest;
        assert DedupFrom(s, key, i) == r;
        forall a, b | 0 <= a < b < |r|
          ensures key(r[a]) != key(r[b])
        {
          var y := rest[b - 1];
          assert r[b] == y && y in rest;
          if a == 0 {
            assert i + 1 <= FindIndex(s, key, key(y));
          } else {
            assert r[a] == rest[a - 1];
          }
        }
      } else {
        assert DedupFrom(s, key, i) == rest;
      }
    }
  }

  /** A key whose first occurrence is at or after `i` has that occurrence among the survivors. */
  lemma {:induction false} DedupFromCovers<T, K>(s: seq<T>, key: T -> K, i: nat)
    requires i <= |s|
    ensures forall j :: i <= j < |s| && FindIndex(s, key, key(s[j])) >= i ==>
              s[FindIndex(s, key, key(s[j]))] in DedupFrom(s, key, i)
    decreases |s| - i
  {
    if i < |s| {
      DedupFromCovers(s, key, i + 1);
      forall j | i <= j < |s| && FindIndex(s, key, key(s[j])) >= i
        ensures s[FindIndex(s, key, key(s[j]))] in DedupFrom(s, key, i)
      {
        var f := FindIndex(s, key, key(s[j]));
        if f == i {
          assert key(s[i]) == key(s[j]);
        } else {
          assert s[f] in DedupFrom(s, key, i + 1);
        }
      }
    }
  }

  /** The survivors from position `i` on keep their order in `s[i..]`. */
  lemma {:induction false} DedupFromSubseq<T, K>(s: seq<T>, key: T -> K, i: nat)
    requires i <= |s|
    ensures Subseq(DedupFrom(s, key, i), s[i..])
    decreases |s| - i
  {
    if i < |s| {
      DedupFromSubseq(s, key, i + 1);
      assert s[i..][1..] == s[i + 1..];
      var rest := DedupFrom(s, key, i + 1);
      assert s[i..][0] == s[i];
      if FindIndex(s, key, key(s[i])) == i {
        assert DedupFrom(s, key, i) == [s[i]] + rest;
        assert ([s[i]] + rest)[1..] == rest;
      } else {
        assert DedupFrom(s, key, i) == rest;
      }
    }
  }

  /** The elements of `r` come in the order in which their keys first occur in `s`. */
  predicate InFirstSeenOrder<T, K(==)>(r: seq<T>, s: seq<T>, key: T -> K) {
    forall a, b :: 0 <= a < b < |r| ==> FindIndex(s, key, key(r[a])) < FindIndex(s, key, key(r[b]))
  }

  /** The survivors from position `i` on come in the order of their keys' first occurrences. */
  lemma {:induction false} DedupFromOrdered<T, K>(s: seq<T>, key: T -> K, i: nat)
    requires i <= |s|
    ensures InFirstSeenOrder(DedupFrom(s, key, i), s, key)
    decreases |s| - i
  {
    if i < |s| {
      var rest := DedupFrom(s, key, i + 1);
      DedupFromOrdered(s, key, i + 1);
      DedupFromFirst(s, key, i + 1);
      if FindIndex(s, key, key(s[i])) == i {
        var r := [s[i]] + rest;
        assert DedupFrom(s, key, i) == r;
        forall a, b | 0 <= a < b < |r|
          ensures FindIndex(s, key, key(r[a])) < FindIndex(s, key, key(r[b]))
        {
          var y := rest[b - 1];
          assert r[b] == y && y in rest;
          if a == 0 {
            assert r[0] == s[i];
            assert i + 1 <= FindIndex(s, key, key(y));
          } else {
            assert r[a] == rest[a - 1];
            assert FindIndex(s, key, key(rest[a - 1])) < FindIndex(s, key, key(rest[b - 1]));
          }
        }
      } else {
        assert DedupFrom(s, key, i) == rest;
      }
    }
  }

  /**
   * `s.filter((x, i, self) => i === self.findIndex(y => key(y) === key(x)))`:
   * keys become unique, every key of the input survives, the survivor of each key
   * is its first occurrence, and the survivors keep their relative order.
   */
  function Dedup<T(==), K(==)>(s: seq<T>, key: T -> K): (r: seq<T>)
    ensures UniqueKeys(r, key)
    ensures forall x :: x in s ==> exists y :: y in r && key(y) == key(x)
    ensures forall y :: y in r ==> 0 <= FindIndex(s, key, key(y)) && y == s[FindIndex(s, key, key(y))]
    ensures forall a, b :: 0 <= a < b < |r| ==> FindIndex(s, key, key(r[a])) < FindIndex(s, key, key(r[b]))
    ensures Subseq(r, s)
  {
    DedupFromFacts(s, key);
    DedupFrom(s, key, 0)
  }

  /** The facts `Dedup` states, about the survivors from position 0. */
  lemma DedupFromFacts<T, K>(s: seq<T>, key: T -> K)
    ensures var r := DedupFrom(s, key, 0);
            UniqueKeys(r, key) &&
            (forall x :: x in s ==> exists y :: y in r && key(y) == key(x)) &&
            (forall y :: y in r ==> 0 <= FindIndex(s, key, key(y)) && y == s[FindIndex(s, key, key(y))]) &&
            InFirstSeenOrder(r, s, key) &&
            Subseq(r, s)
  {
    var r := DedupFrom(s, key, 0);
    DedupFromFirst(s, key, 0);
    DedupFromUniqueKeys(s, key, 0);
    DedupFromCovers(s, key, 0);
    DedupFromSubseq(s, key, 0);
    DedupFromOrdered(s, key, 0);
    assert s[0..] == s;
    assert forall x :: x in s ==> exists y :: y in r && key(y) == key(x) by {
      forall x | x in s
        ensures exists y :: y in r && key(y) == key(x)
      {
        var j :| 0 <= j < |s| && s[j] == x;
        var f := FindIndex(s, key, key(s[j]));
        assert s[f] in r && key(s[f]) == key(x);
      }
    }
  }

  /**
   * De-duplicating `a + b` keeps, for every key that `a` has, the first element
   * of `a` with that key: `a`'s copy wins over `b`'s.
   */
  lemma DedupPrefersFirst<T, K>(a: seq<T>, b: seq<T>, key: T -> K, i: nat)
    requires i < |a|
    requires forall j :: 0 <= j < i ==> key(a[j]) != key(a[i])
    ensures a[i] in Dedup(a + b, key)
  {
    var s := a + b;
    assert s[i] == a[i];
    var f := FindIndex(s, key, key(s[i]));
    assert forall j :: 0 <= j < i ==> s[j] == a[j];
    assert a[i] in s;
    var r := Dedup(s, key);
    var y :| y in r && key(y) == key(a[i]);
    assert y == s[FindIndex(s, key, key(y))];
    assert key(y) == key(s[i]);
  }

  /** On input whose keys are already unique, de-duplication changes nothing. */
  lemma DedupUnique<T, K>(s: seq<T>, key: T -> K)
    requires UniqueKeys(s, key)
    ensures Dedup(s, key) == s
  {
    forall j | 0 <= j < |s|
      ensures FindIndex(s, key, key(s[j])) == j
    {
      var f := FindIndex(s, key, key(s[j]));
      assert 0 <= f <= j;
    }
    DedupFromUnique(s, key, 0);
    assert s[0..] == s;
  }

  lemma {:induction false} DedupFromUnique<T, K>(s: seq<T>, key: T -> K, i: nat)
    requires i <= |s|
    requires forall j :: 0 <= j < |s| ==> FindIndex(s, key, key(s[j])) == j
    ensures DedupFrom(s, key, i) == s[i..]
    decreases |s| - i
  {
    if i < |s| {
      DedupFromUnique(s, key, i + 1);
      assert s[i..] == [s[i]] + s[i + 1..];
    }
  }

  /** `s` is in non-decreasing order of `key`. */
  predicate SortedBy<T>(s: seq<T>, key: T -> int) {
    forall a, b :: 0 <= a < b < |s| ==> key(s[a]) <= key(s[b])
  }

  /** Puts `x` into `s` after every leading element whose key is not larger. */
  function Insert<T>(x: T, s: seq<T>, key: T -> int): (r: seq<T>)
    ensures multiset(r) == multiset(s) + multiset{x}
    ensures |r| == |s| + 1
  {
    if s == [] then [x]
    else if key(x) < key(s[0]) then [x] + s
    else
      assert s == [s[0]] + s[1..];
      [s[0]] + Insert(x, s[1..], key)
  }

  /** Inserting adds `x` and nothing else. */
  lemma {:induction false} InsertMembers<T>(x: T, s: seq<T>, key: T -> int)
    ensures forall y :: y in Insert(x, s, key) ==> y == x || y in s
  {
    if s != [] && key(x) >= key(s[0]) {
      InsertMembers(x, s[1..], key);
      assert forall y :: y in s[1..] ==> y in s;
    }
  }

  /** A sorted sequence stays sorted behind an element whose key is not larger than any of its keys. */
  lemma SortedCons<T>(y: T, t: seq<T>, key: T -> int)
    requires SortedBy(t, key)
    requires forall z :: z in t ==> key(y) <= key(z)
    ensures SortedBy([y] + t, key)
  {
    var r := [y] + t;
    forall a, b | 0 <= a < b < |r|
      ensures key(r[a]) <= key(r[b])
    {
      assert r[b] == t[b - 1] && t[b - 1] in t;
      if a > 0 {
        assert r[a] == t[a - 1];
      }
    }
  }

  /** Inserting into a sorted sequence keeps it sorted. */
  lemma {:induction false} InsertSorted<T>(x: T, s: seq<T>, key: T -> int)
    requires SortedBy(s, key)
    ensures SortedBy(Insert(x, s, key), key)
  {
    if s == [] {
    } else if key(x) < key(s[0]) {
      forall z | z in s ensures key(x) <= key(z) {
        var j :| 0 <= j < |s| && s[j] == z;
        assert key(s[0]) <= key(s[j]);
      }
      SortedCons(x, s, key);
      assert Insert(x, s, key) == [x] + s;
    } else {
      var tail := s[1..];
      var rest := Insert(x, tail, key);
      assert SortedBy(tail, key) by {
        forall a, b | 0 <= a < b < |tail| ensures key(tail[a]) <= key(tail[b]) {
          assert tail[a] == s[a + 1] && tail[b] == s[b + 1];
        }
      }
      InsertSorted(x, tail, key);
      InsertMembers(x, tail, key);
      forall z | z in rest ensures key(s[0]) <= key(z) {
        if z != x {
          var j :| 0 <= j < |tail| && tail[j] == z;
          assert tail[j] == s[j + 1];
        }
      }
      SortedCons(s[0], rest, key);
      assert Insert(x, s, key) == [s[0]] + rest;
    }
  }

  /** An ORDER BY of `s` on `key`: sorted, and a permutation of `s`. */
  function SortBy<T>(s: seq<T>, key: T -> int): (r: seq<T>)
    ensures SortedBy(r, key)
    ensures multiset(r) == multiset(s)
    ensures |r| == |s|
  {
    if s == [] then []
    else
      assert s == [s[0]] + s[1..];
      var sorted := SortBy(s[1..], key);
      InsertSorted(s[0], sorted, key);
      Insert(s[0], sorted, key)
  }
}
