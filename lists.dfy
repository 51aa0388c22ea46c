/** Sequence operations that the admin tabs use through JavaScript's array
    methods: `filter`, `splice(k, 1)` and the destructuring swap. */
module Lists {

  /** A value that may be missing: JavaScript's `undefined`/`null` for an
      optional field or a possibly-null query result. */
  datatype Option<T> = None | Some(value: T)

  /** `Array.prototype.filter`: the elements of `s` that satisfy `p`, in order. */
  function Filter<T(!new)>(s: seq<T>, p: T -> bool): (r: seq<T>)
    ensures |r| <= |s|
    ensures forall i :: 0 <= i < |r| ==> p(r[i])
    ensures forall x :: multiset(r)[x] == if p(x) then multiset(s)[x] else 0
  {
    if s == [] then []
    else
      var rest := Filter(s[1..], p);
      assert s == [s[0]] + s[1..];
      if p(s[0]) then [s[0]] + rest else rest
  }

  /** Filtering keeps the relative order: it distributes over concatenation. */
  lemma {:induction false} FilterConcat<T(!new)>(a: seq<T>, b: seq<T>, p: T -> bool)
    ensures Filter(a + b, p) == Filter(a, p) + Filter(b, p)
  {
    if a == [] {
      assert a + b == b;
    } else {
      assert (a + b)[1..] == a[1..] + b;
      FilterConcat(a[1..], b, p);
    }
  }

  /** A filter that every element passes is the identity. */
  lemma {:induction false} FilterKeepsAll<T(!new)>(s: seq<T>, p: T -> bool)
    requires forall i :: 0 <= i < |s| ==> p(s[i])
    ensures Filter(s, p) == s
  {
    if s != [] {
      FilterKeepsAll(s[1..], p);
    }
  }

  /** Filtering depends only on the values of the predicate. */
  lemma {:induction false} FilterExtensional<T(!new)>(s: seq<T>, p: T -> bool, q: T -> bool)
    requires forall x :: p(x) == q(x)
    ensures Filter(s, p) == Filter(s, q)
  {
    if s != [] {
      FilterExtensional(s[1..], p, q);
    }
  }

  /** Two filters with disjoint predicates together keep what their union keeps. */
  lemma {:induction false} FilterDisjointUnion<T(!new)>(s: seq<T>, p: T -> bool, q: T -> bool, pq: T -> bool)
    requires forall x :: pq(x) == (p(x) || q(x))
    requires forall x :: !(p(x) && q(x))
    ensures |Filter(s, pq)| == |Filter(s, p)| + |Filter(s, q)|
  {
    if s != [] {
      FilterDisjointUnion(s[1..], p, q, pq);
    }
  }

  /** Membership in a filtered sequence. */
  lemma FilterMember<T(!new)>(s: seq<T>, p: T -> bool, x: T)
    ensures x in Filter(s, p) <==> x in s && p(x)
  {
    var r := Filter(s, p);
    assert x in r <==> multiset(r)[x] > 0;
    assert x in s <==> multiset(s)[x] > 0;
  }

  /** The elements of a mapped sequence are the images of the elements. */
  lemma MapMember<T, U>(s: seq<T>, f: T -> U, y: U)
    ensures y in Map(s, f) <==> exists i :: 0 <= i < |s| && f(s[i]) == y
  {
    if y in Map(s, f) {
      var k :| 0 <= k < |s| && Map(s, f)[k] == y;
    }
  }

  /** Two sequences that agree at every index are equal. */
  lemma PointwiseEqual<T>(a: seq<T>, b: seq<T>)
    requires |a| == |b| && forall i :: 0 <= i < |a| ==> a[i] == b[i]
    ensures a == b
  {
  }

  /** `Array.prototype.map`. */
  function Map<T, U>(s: seq<T>, f: T -> U): (r: seq<U>)
    ensures |r| == |s| && forall i :: 0 <= i < |s| ==> r[i] == f(s[i])
  {
    seq(|s|, i requires 0 <= i < |s| => f(s[i]))
  }

  /** Mapping works element by element, so it distributes over concatenation. */
  lemma MapConcat<T, U>(a: seq<T>, b: seq<T>, f: T -> U)
    ensures Map(a + b, f) == Map(a, f) + Map(b, f)
  {
    PointwiseEqual(Map(a + b, f), Map(a, f) + Map(b, f));
  }

  /** What a filter drops is what the complementary filter keeps. */
  lemma {:induction false} FilterLength<T(!new)>(s: seq<T>, p: T -> bool, q: T -> bool)
    requires forall x :: q(x) == !p(x)
    ensures |Filter(s, p)| + |Filter(s, q)| == |s|
  {
    if s != [] {
      FilterLength(s[1..], p, q);
    }
  }

  /** The number of occurrences of `x` in `s`. */
  ghost function Count<T>(s: seq<T>, x: T): nat
  {
    multiset(s)[x]
  }

  /** `s.filter(y => y !== x)`: every copy of `x` goes, the other elements
      stay, and the list shrinks by the number of copies. */
  function RemoveAll<T(==,!new)>(s: seq<T>, x: T): (r: seq<T>)
    ensures x !in r
    ensures forall y :: y != x ==> multiset(r)[y] == multiset(s)[y]
    ensures |r| == |s| - Count(s, x)
  {
    if s == [] then [] else
      var rest := RemoveAll(s[1..], x);
      assert s == [s[0]] + s[1..];
      (if s[0] == x then [] else [s[0]]) + rest
  }

  /** Removal works piece by piece, so the survivors keep their relative order. */
  lemma RemoveAllConcat<T(!new)>(a: seq<T>, b: seq<T>, x: T)
    ensures RemoveAll(a + b, x) == RemoveAll(a, x) + RemoveAll(b, x)
  {
    RemoveAllIsFilter(a + b, x);
    RemoveAllIsFilter(a, x);
    RemoveAllIsFilter(b, x);
    FilterConcat(a, b, y => y != x);
  }

  /** Removal is the filter that keeps every other value. */
  lemma {:induction false} RemoveAllIsFilter<T(!new)>(s: seq<T>, x: T)
    ensures RemoveAll(s, x) == Filter(s, y => y != x)
  {
    if s != [] {
      RemoveAllIsFilter(s[1..], x);
    }
  }

  /** Removing a value that is not there changes nothing. */
  lemma {:induction false} RemoveAllAbsent<T(!new)>(s: seq<T>, x: T)
    requires x !in s
    ensures RemoveAll(s, x) == s
  {
    if s != [] {
      RemoveAllAbsent(s[1..], x);
    }
  }

  /** `splice(k, 1)` on a copy: the element at `k` is dropped; an index past
      the end removes nothing. */
  function RemoveAt<T>(s: seq<T>, k: nat): (r: seq<T>)
    ensures k < |s| ==> |r| == |s| - 1
    ensures k < |s| ==> forall i :: 0 <= i < |r| ==> r[i] == if i < k then s[i] else s[i + 1]
    ensures k >= |s| ==> r == s
  {
    if k < |s| then s[..k] + s[k + 1..] else s
  }

  /** Removing an in-range element takes exactly one copy of it away. */
  lemma RemoveAtMultiset<T>(s: seq<T>, k: nat)
    requires k < |s|
    ensures multiset(RemoveAt(s, k)) + multiset{s[k]} == multiset(s)
  {
    assert s == s[..k] + [s[k]] + s[k + 1..];
  }

  /** `[a[i], a[j]] = [a[j], a[i]]` on a copy. */
  function Swap<T>(s: seq<T>, i: nat, j: nat): (r: seq<T>)
    requires i < |s| && j < |s|
    ensures |r| == |s|
    ensures r[i] == s[j] && r[j] == s[i]
    ensures forall k :: 0 <= k < |s| && k != i && k != j ==> r[k] == s[k]
  {
    s[i := s[j]][j := s[i]]
  }

  /** A swap is a permutation. */
  lemma SwapPermutes<T>(s: seq<T>, i: nat, j: nat)
    requires i < |s| && j < |s|
    ensures multiset(Swap(s, i, j)) == multiset(s)
  {
    if i != j {
      var t := s[i := s[j]];
      assert multiset(t) == multiset(s) - multiset{s[i]} + multiset{s[j]};
      assert multiset(t[j := s[i]]) == multiset(t) - multiset{t[j]} + multiset{s[i]};
    }
  }

  /** No element occurs twice. */
  predicate NoDuplicates<T(==)>(s: seq<T>)
  {
    forall i, j :: 0 <= i < j < |s| ==> s[i] != s[j]
  }
}
