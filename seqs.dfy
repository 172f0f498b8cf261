/** The stream operations the services use (`filter(...).findFirst()`,
    `sorted(comparing...)`, `limit(n)`), written over sequences. */
module Seqs {

  datatype Found<+T> = NotFound | Found(value: T)

  /** `stream.filter(p).findFirst()`. */
  function FindFirst<T>(xs: seq<T>, p: T -> bool): (r: Found<T>)
    ensures r.Found? ==> p(r.value)
    ensures r.Found? ==> exists i :: 0 <= i < |xs| && xs[i] == r.value && forall j :: 0 <= j < i ==> !p(xs[j])
    ensures r.NotFound? <==> forall i :: 0 <= i < |xs| ==> !p(xs[i])
  {
    if xs == [] then NotFound
    else if p(xs[0]) then Found(xs[0])
    else
      var r := FindFirst(xs[1..], p);
      assert forall i :: 1 <= i < |xs| ==> xs[i] == xs[1..][i - 1];
      if r.Found? then FirstMatchShift(xs, p, r.value); r
      else r
  }

  /** A first match in the tail is a first match in the whole sequence when
      the head does not match. */
  lemma FirstMatchShift<T>(xs: seq<T>, p: T -> bool, v: T)
    requires |xs| > 0 && !p(xs[0])
    requires exists i :: 0 <= i < |xs[1..]| && xs[1..][i] == v && forall j :: 0 <= j < i ==> !p(xs[1..][j])
    ensures exists i :: 0 <= i < |xs| && xs[i] == v && forall j :: 0 <= j < i ==> !p(xs[j])
  {
    var i :| 0 <= i < |xs[1..]| && xs[1..][i] == v && forall j :: 0 <= j < i ==> !p(xs[1..][j]);
    assert xs[i + 1] == v;
    assert forall j :: 1 <= j < i + 1 ==> xs[j] == xs[1..][j - 1];
  }

  /** Ascending by `key`. */
  predicate SortedBy<T>(s: seq<T>, key: T -> real) {
    forall i, j :: 0 <= i < j < |s| ==> key(s[i]) <= key(s[j])
  }

  /** Inserts `x` before the first element whose key is larger, keeping earlier
      elements with an equal key in front of it. */
  function Insert<T>(x: T, s: seq<T>, key: T -> real): (r: seq<T>)
    requires SortedBy(s, key)
    ensures SortedBy(r, key)
    ensures multiset(r) == multiset(s) + multiset{x}
  {
    if s == [] then [x]
    else if key(x) <= key(s[0]) then [x] + s
    else
      var t := Insert(x, s[1..], key);
      assert s == [s[0]] + s[1..];
      forall i | 0 <= i < |t| ensures key(s[0]) <= key(t[i]) {
        assert t[i] in multiset(t);
        if t[i] != x {
          assert t[i] in multiset(s[1..]);
          var k :| 0 <= k < |s[1..]| && s[1..][k] == t[i];
          assert s[1..][k] == s[k + 1];
        }
      }
      ConsSorted(s[0], t, key);
      [s[0]] + t
  }

  /** A sorted sequence stays sorted behind an element no larger than any of it. */
  lemma ConsSorted<T>(y: T, t: seq<T>, key: T -> real)
    requires SortedBy(t, key)
    requires forall i :: 0 <= i < |t| ==> key(y) <= key(t[i])
    ensures SortedBy([y] + t, key)
  {
    var r := [y] + t;
    forall i, j | 0 <= i < j < |r| ensures key(r[i]) <= key(r[j]) {
      assert r[j] == t[j - 1];
      if i > 0 {
        assert r[i] == t[i - 1];
      }
    }
  }

  /** `stream.sorted(Comparator.comparing(key))`: a stable sort. */
  function SortBy<T>(s: seq<T>, key: T -> real): (r: seq<T>)
    ensures SortedBy(r, key)
    ensures multiset(r) == multiset(s) && |r| == |s|
  {
    if s == [] then []
    else
      assert s == [s[0]] + s[1..];
      Insert(s[0], SortBy(s[1..], key), key)
  }

  function Min(a: int, b: int): int { if a <= b then a else b }

  /** `stream.limit(n)`. */
  function Limit<T>(s: seq<T>, n: nat): (r: seq<T>)
    ensures |r| == Min(|s|, n) && r == s[..|r|]
  {
    if |s| <= n then s else s[..n]
  }

  /** After a sort, whatever `limit` cuts off is no smaller than anything it keeps. */
  lemma LimitKeepsSmallest<T>(s: seq<T>, key: T -> real, n: nat, x: T)
    requires SortedBy(s, key)
    requires x in s && x !in Limit(s, n)
    ensures forall i :: 0 <= i < |Limit(s, n)| ==> key(Limit(s, n)[i]) <= key(x)
  {
  }

  /** `stream.filter(p).toList()`, order preserved. */
  function Filter<T>(s: seq<T>, p: T -> bool): (r: seq<T>)
    ensures |r| <= |s|
    ensures forall i :: 0 <= i < |r| ==> p(r[i]) && r[i] in s
    ensures forall x :: x in s && p(x) ==> x in r
  {
    if s == [] then []
    else
      var rest := Filter(s[1..], p);
      assert forall x :: x in s[1..] ==> x in s;
      if p(s[0]) then [s[0]] + rest else rest
  }
  /** No element occurs twice. */
  predicate Distinct<T(==)>(s: seq<T>) {
    forall i, j :: 0 <= i < j < |s| ==> s[i] != s[j]
  }

  lemma {:induction false} DistinctOnce<T>(s: seq<T>, x: T)
    requires Distinct(s)
    ensures multiset(s)[x] <= 1
  {
    if s != [] {
      assert s == [s[0]] + s[1..];
      assert Distinct(s[1..]) by {
        forall i, j | 0 <= i < j < |s[1..]| ensures s[1..][i] != s[1..][j] {
          assert s[1..][i] == s[i + 1] && s[1..][j] == s[j + 1];
        }
      }
      DistinctOnce(s[1..], x);
      if x == s[0] {
        assert x !in s[1..];
      }
    }
  }

  lemma RepeatedTwice<T>(s: seq<T>, i: nat, j: nat)
    requires i < j < |s| && s[i] == s[j]
    ensures multiset(s)[s[i]] >= 2
  {
    assert s == s[..j] + s[j..];
    assert s[i] == s[..j][i];
    assert s[j] == s[j..][0];
  }

  /** Reordering keeps a sequence free of repeats. */
  lemma PermutationDistinct<T>(a: seq<T>, b: seq<T>)
    requires multiset(a) == multiset(b) && Distinct(a)
    ensures Distinct(b)
  {
    forall i, j | 0 <= i < j < |b| ensures b[i] != b[j] {
      DistinctOnce(a, b[i]);
      if b[i] == b[j] {
        RepeatedTwice(b, i, j);
      }
    }
  }
}
