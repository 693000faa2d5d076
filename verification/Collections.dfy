/** Facts about finite sets, maps and filtered sequences that the component models share. */
module Collections {

  datatype Option<+T> = None | Some(value: T)

  datatype Result<+T, +E> = Ok(value: T) | Err(error: E)

  /** Times and durations count nanoseconds. */
  const SECOND: int := 1_000_000_000

  function Min(a: int, b: int): (r: int) {
    if a <= b then a else b
  }

  function Max(a: int, b: int): (r: int) {
    if a >= b then a else b
  }

  // ----- sets -----

  lemma SubsetSize<T>(a: set<T>, b: set<T>)
    requires a <= b
    ensures |a| <= |b|
    ensures |a| == |b| ==> a == b
  {
    assert b == a + (b - a);
  }

  lemma DifferenceSize<T>(a: set<T>, b: set<T>)
    ensures |a| - |b| <= |a - b| <= |a|
  {
    SubsetSize(a * b, b);
  }

  /** A map whose values are pairwise different has as many values as keys. */
  lemma InjectiveMapSize<K, V>(m: map<K, V>)
    requires forall a, b :: a in m && b in m && m[a] == m[b] ==> a == b
    ensures |m.Values| == |m|
    decreases |m|
  {
    if m != map[] {
      var k :| k in m;
      var rest := m - {k};
      InjectiveMapSize(rest);
      assert m.Keys == rest.Keys + {k};
      forall v ensures v in m.Values <==> v in rest.Values + {m[k]} {
        if v in m.Values {
          var a :| a in m && m[a] == v;
          assert a == k || rest[a] == v;
        }
      }
      assert m.Values == rest.Values + {m[k]};
    }
  }

  // ----- filtered sequences -----

  /** The elements of `s` that satisfy `p`, in their original order. */
  function Filter<T>(s: seq<T>, p: T -> bool): (r: seq<T>) {
    if s == [] then []
    else Filter(s[..|s| - 1], p) + (if p(s[|s| - 1]) then [s[|s| - 1]] else [])
  }

  function Count<T>(s: seq<T>, p: T -> bool): (r: nat) {
    |Filter(s, p)|
  }

  lemma FilterNothing<T>(p: T -> bool)
    ensures Filter([], p) == []
  {
  }

  lemma FilterSnoc<T>(s: seq<T>, x: T, p: T -> bool)
    ensures Filter(s + [x], p) == Filter(s, p) + (if p(x) then [x] else [])
  {
    assert (s + [x])[..|s|] == s;
  }

  lemma {:induction false} FilterMember<T>(s: seq<T>, p: T -> bool, x: T)
    ensures x in Filter(s, p) <==> x in s && p(x)
  {
    if s != [] {
      FilterMember(s[..|s| - 1], p, x);
      assert s == s[..|s| - 1] + [s[|s| - 1]];
    }
  }

  lemma {:induction false} FilterConcat<T>(a: seq<T>, b: seq<T>, p: T -> bool)
    ensures Filter(a + b, p) == Filter(a, p) + Filter(b, p)
  {
    if b == [] {
      assert a + b == a;
    } else {
      var b' := b[..|b| - 1];
      assert (a + b)[..|a + b| - 1] == a + b';
      FilterConcat(a, b', p);
    }
  }

  lemma {:induction false} FilterKeepsAll<T>(s: seq<T>, p: T -> bool)
    requires forall x :: x in s ==> p(x)
    ensures Filter(s, p) == s
  {
    if s != [] {
      assert s == s[..|s| - 1] + [s[|s| - 1]];
      FilterKeepsAll(s[..|s| - 1], p);
    }
  }

  lemma {:induction false} FilterShrinks<T>(s: seq<T>, p: T -> bool)
    ensures |Filter(s, p)| <= |s|
  {
    if s != [] {
      FilterShrinks(s[..|s| - 1], p);
    }
  }

  lemma CountAround<T>(l: seq<T>, x: T, r: seq<T>, p: T -> bool)
    ensures Count(l + [x] + r, p) == Count(l + r, p) + (if p(x) then 1 else 0)
  {
    FilterConcat(l, r, p);
    FilterConcat(l + [x], r, p);
    FilterSnoc(l, x, p);
  }

  lemma SplitAt<T>(s: seq<T>, x: T) returns (l: seq<T>, r: seq<T>)
    requires x in multiset(s)
    ensures s == l + [x] + r && multiset(s) == multiset(l + r) + multiset{x}
  {
    var i :| 0 <= i < |s| && s[i] == x;
    l, r := s[..i], s[i + 1..];
    assert s == l + [x] + r;
  }

  /** How many elements satisfy a predicate does not depend on their order. */
  lemma {:induction false} CountPermutation<T>(a: seq<T>, b: seq<T>, p: T -> bool)
    requires multiset(a) == multiset(b)
    ensures Count(a, p) == Count(b, p)
    decreases |a|
  {
    if a == [] {
      assert |multiset(b)| == 0;
    } else {
      var la, ra := SplitAt(a, a[0]);
      var lb, rb := SplitAt(b, a[0]);
      CountAround(la, a[0], ra, p);
      CountAround(lb, a[0], rb, p);
      SameRest(multiset(la + ra), multiset(lb + rb), a[0]);
      CountPermutation(la + ra, lb + rb, p);
    }
  }

  lemma SameRest<T>(a: multiset<T>, b: multiset<T>, x: T)
    requires a + multiset{x} == b + multiset{x}
    ensures a == b
  {
    assert a == (a + multiset{x}) - multiset{x};
    assert b == (b + multiset{x}) - multiset{x};
  }

  lemma FilterTwiceSnoc<T>(s: seq<T>, x: T, p: T -> bool, q: T -> bool)
    ensures Filter(Filter(s + [x], p), q) == Filter(Filter(s, p), q) + (if p(x) && q(x) then [x] else [])
    ensures Filter(s + [x], q) == Filter(s, q) + (if q(x) then [x] else [])
  {
    FilterSnoc(s, x, p);
    FilterSnoc(s, x, q);
    if p(x) {
      FilterSnoc(Filter(s, p), x, q);
    } else {
      assert Filter(s, p) + [] == Filter(s, p);
    }
  }

  /** Dropping at least one element that satisfies `q` lowers the count of `q`. */
  lemma {:induction false} CountAfterFilter<T>(s: seq<T>, p: T -> bool, q: T -> bool, gone: T)
    requires gone in s && !p(gone) && q(gone)
    ensures Count(Filter(s, p), q) + 1 <= Count(s, q)
  {
    var s', x := s[..|s| - 1], s[|s| - 1];
    assert s == s' + [x];
    FilterTwiceSnoc(s', x, p, q);
    if gone in s' {
      CountAfterFilter(s', p, q, gone);
    } else {
      FilterOnlyLowers(s', p, q);
    }
  }

  lemma {:induction false} FilterOnlyLowers<T>(s: seq<T>, p: T -> bool, q: T -> bool)
    ensures Count(Filter(s, p), q) <= Count(s, q)
  {
    if s != [] {
      var s', x := s[..|s| - 1], s[|s| - 1];
      assert s == s' + [x];
      FilterTwiceSnoc(s', x, p, q);
      FilterOnlyLowers(s', p, q);
    }
  }
}
