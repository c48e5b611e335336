/** JavaScript array operations that the client code relies on, as functions on sequences. */
module Lists {

  /** `Array.prototype.findIndex`: the first index whose element satisfies `p`, or -1. */
  function FindIndex<T>(s: seq<T>, p: T -> bool): (r: int)
    ensures -1 <= r < |s|
    ensures r == -1 <==> forall i :: 0 <= i < |s| ==> !p(s[i])
    ensures r >= 0 ==> p(s[r]) && forall i :: 0 <= i < r ==> !p(s[i])
  {
    if s == [] then -1
    else if p(s[0]) then 0
    else
      var k := FindIndex(s[1..], p);
      if k == -1 then -1 else k + 1
  }

  /** `Array.prototype.filter`: the elements satisfying `p`, in their original order. */
  function Filter<T>(s: seq<T>, p: T -> bool): (r: seq<T>)
    ensures |r| <= |s|
    ensures forall i :: 0 <= i < |r| ==> r[i] in s && p(r[i])
    ensures forall i :: 0 <= i < |s| && p(s[i]) ==> s[i] in r
  {
    if s == [] then []
    else (if p(s[0]) then [s[0]] else []) + Filter(s[1..], p)
  }

  lemma {:induction false} FilterAppend<T>(a: seq<T>, b: seq<T>, p: T -> bool)
    ensures Filter(a + b, p) == Filter(a, p) + Filter(b, p)
  {
    if a == [] {
      assert a + b == b;
    } else {
      assert (a + b)[1..] == a[1..] + b;
      FilterAppend(a[1..], b, p);
    }
  }

  /** Every element of `s` satisfies `p`: filtering keeps all of it. */
  lemma {:induction false} FilterAll<T>(s: seq<T>, p: T -> bool)
    requires forall i :: 0 <= i < |s| ==> p(s[i])
    ensures Filter(s, p) == s
  {
    if s != [] {
      FilterAll(s[1..], p);
    }
  }

  /** `array.filter(it => it != x)`: every occurrence of `x` removed, the rest in order. */
  function RemoveAll<T(==)>(s: seq<T>, x: T): (r: seq<T>)
    ensures x !in r
    ensures forall i :: 0 <= i < |r| ==> r[i] in s
    ensures forall i :: 0 <= i < |s| && s[i] != x ==> s[i] in r
  {
    if s == [] then []
    else (if s[0] == x then [] else [s[0]]) + RemoveAll(s[1..], x)
  }

  /** Exactly the occurrences of `x` are removed. */
  lemma {:induction false} RemoveAllLength<T>(s: seq<T>, x: T)
    ensures |RemoveAll(s, x)| == |s| - multiset(s)[x]
  {
    if s != [] {
      RemoveAllLength(s[1..], x);
      assert s == [s[0]] + s[1..];
    }
  }

  /** Removing an element that was appended to a sequence without it gives the sequence back. */
  lemma {:induction false} RemoveAllAppendFresh<T>(s: seq<T>, x: T)
    requires x !in s
    ensures RemoveAll(s + [x], x) == s
  {
    if s == [] {
      RemoveAllCons(x, [], x);
      assert [x] + [] == s + [x];
    } else {
      RemoveAllAppendFresh(s[1..], x);
      RemoveAllCons(s[0], s[1..] + [x], x);
      assert [s[0]] + (s[1..] + [x]) == s + [x];
      assert [s[0]] + s[1..] == s;
    }
  }

  lemma RemoveAllCons<T>(h: T, t: seq<T>, x: T)
    ensures RemoveAll([h] + t, x) == (if h == x then [] else [h]) + RemoveAll(t, x)
  {
    var u := [h] + t;
    assert u[0] == h && u[1..] == t;
  }

  /** The sequence without the element at index `i`. */
  function RemoveAt<T>(s: seq<T>, i: nat): seq<T>
    requires i < |s|
  {
    s[..i] + s[i + 1..]
  }

  /** The sequence with `x` inserted so that it ends up at index `i`. */
  function InsertAt<T>(s: seq<T>, i: nat, x: T): seq<T>
    requires i <= |s|
  {
    s[..i] + [x] + s[i..]
  }

  /**
   * dnd-kit's `arrayMove(items, from, to)`: the item at `from` is taken out and
   * put back so that it sits at `to`; every other item keeps its relative order.
   */
  function ArrayMove<T>(s: seq<T>, from: nat, to: nat): (r: seq<T>)
    requires from < |s| && to < |s|
    ensures |r| == |s| && r[to] == s[from]
    ensures RemoveAt(r, to) == RemoveAt(s, from)
    ensures multiset(r) == multiset(s)
  {
    var rest := RemoveAt(s, from);
    var r := InsertAt(rest, to, s[from]);
    assert r[..to] == rest[..to] && r[to + 1..] == rest[to..];
    assert RemoveAt(r, to) == rest[..to] + rest[to..];
    assert rest[..to] + rest[to..] == rest;
    assert s == s[..from] + [s[from]] + s[from + 1..];
    assert multiset(rest) + multiset{s[from]} == multiset(s);
    assert rest == rest[..to] + rest[to..];
    assert multiset(r) == multiset(rest[..to]) + multiset{s[from]} + multiset(rest[to..]);
    r
  }

  /** The index a (possibly negative) `slice` argument denotes in a sequence of length `len`. */
  function SliceIndex(x: int, len: nat): (r: nat)
    ensures r <= len
    ensures 0 <= x <= len ==> r == x
    ensures x > len ==> r == len
    ensures x < 0 ==> r == if len + x < 0 then 0 else len + x
  {
    if x < 0 then (if len + x < 0 then 0 else len + x)
    else if x > len then len
    else x
  }

  /** `Array.prototype.slice(start, end)`, negative and out-of-range arguments included. */
  function Slice<T>(s: seq<T>, start: int, end: int): (r: seq<T>)
    ensures |r| <= |s|
    ensures SliceIndex(start, |s|) <= SliceIndex(end, |s|) ==>
              |r| == SliceIndex(end, |s|) - SliceIndex(start, |s|)
    ensures forall i :: 0 <= i < |r| ==> SliceIndex(start, |s|) + i < |s| && r[i] == s[SliceIndex(start, |s|) + i]
  {
    var b, e := SliceIndex(start, |s|), SliceIndex(end, |s|);
    if b <= e then s[b..e] else []
  }

  /** Non-decreasing by `key`. */
  ghost predicate SortedBy<T>(s: seq<T>, key: T -> int) {
    forall i, j :: 0 <= i < j < |s| ==> key(s[i]) <= key(s[j])
  }

  /** `x` placed before the first element whose key is not smaller. */
  function Insert<T>(x: T, s: seq<T>, key: T -> int): seq<T> {
    if s == [] || key(x) <= key(s[0]) then [x] + s
    else [s[0]] + Insert(x, s[1..], key)
  }

  /**
   * A stable ascending sort by an integer key, the order `Array.prototype.sort`
   * gives with the comparator `(a, b) => key(a) - key(b)`.
   */
  function SortBy<T>(s: seq<T>, key: T -> int): seq<T> {
    if s == [] then [] else Insert(s[0], SortBy(s[1..], key), key)
  }

  /** The key of a descending sort, comparator `(a, b) => key(b) - key(a)`. */
  function Negated<T>(key: T -> int): T -> int {
    x => -key(x)
  }

  lemma {:induction false} InsertSorted<T>(x: T, s: seq<T>, key: T -> int)
    requires SortedBy(s, key)
    ensures SortedBy(Insert(x, s, key), key)
    ensures multiset(Insert(x, s, key)) == multiset(s) + multiset{x}
    ensures |Insert(x, s, key)| == |s| + 1
  {
    if s == [] || key(x) <= key(s[0]) {
      SortedCons(x, s, key);
    } else {
      var t := s[1..];
      InsertSorted(x, t, key);
      InsertBound(x, t, key, key(s[0]));
      SortedCons(s[0], Insert(x, t, key), key);
      assert s == [s[0]] + t;
    }
  }

  /** A sorted sequence stays sorted with an element in front whose key bounds all of it. */
  lemma SortedCons<T>(a: T, r: seq<T>, key: T -> int)
    requires SortedBy(r, key)
    requires r != [] ==> key(a) <= key(r[0])
    ensures SortedBy([a] + r, key)
  {
  }

  /** A lower bound on the keys of `x` and of `t` bounds the keys of the insertion. */
  lemma {:induction false} InsertBound<T>(x: T, t: seq<T>, key: T -> int, b: int)
    requires b <= key(x) && forall i :: 0 <= i < |t| ==> b <= key(t[i])
    ensures forall i :: 0 <= i < |Insert(x, t, key)| ==> b <= key(Insert(x, t, key)[i])
  {
    if t != [] && key(x) > key(t[0]) {
      InsertBound(x, t[1..], key, b);
    }
  }

  /** The sort orders its input by key and neither drops nor adds elements. */
  lemma {:induction false} SortBySortedPermutation<T>(s: seq<T>, key: T -> int)
    ensures SortedBy(SortBy(s, key), key)
    ensures multiset(SortBy(s, key)) == multiset(s)
    ensures |SortBy(s, key)| == |s|
  {
    if s != [] {
      SortBySortedPermutation(s[1..], key);
      InsertSorted(s[0], SortBy(s[1..], key), key);
      assert s == [s[0]] + s[1..];
    }
  }

  /** The descending sort puts higher keys first and neither drops nor adds elements. */
  lemma SortByDescending<T>(s: seq<T>, key: T -> int)
    ensures multiset(SortBy(s, Negated(key))) == multiset(s)
    ensures |SortBy(s, Negated(key))| == |s|
    ensures forall i, j :: 0 <= i < j < |s| ==> key(SortBy(s, Negated(key))[i]) >= key(SortBy(s, Negated(key))[j])
  {
    var r := SortBy(s, Negated(key));
    SortBySortedPermutation(s, Negated(key));
    forall i, j | 0 <= i < j < |s|
      ensures key(r[i]) >= key(r[j])
    {
      assert Negated(key)(r[i]) <= Negated(key)(r[j]);
    }
  }

  /** The elements whose key is `k`, in order. */
  function WithKey<T>(s: seq<T>, key: T -> int, k: int): seq<T> {
    if s == [] then []
    else (if key(s[0]) == k then [s[0]] else []) + WithKey(s[1..], key, k)
  }

  lemma {:induction false} WithKeyAppend<T>(a: seq<T>, b: seq<T>, key: T -> int, k: int)
    ensures WithKey(a + b, key, k) == WithKey(a, key, k) + WithKey(b, key, k)
  {
    if a == [] {
      assert a + b == b;
    } else {
      var ab := a + b;
      assert ab[0] == a[0] && ab[1..] == a[1..] + b;
      WithKeyAppend(a[1..], b, key, k);
      var h := if key(a[0]) == k then [a[0]] else [];
      assert WithKey(ab, key, k) == h + WithKey(a[1..] + b, key, k);
      assert WithKey(a, key, k) == h + WithKey(a[1..], key, k);
      assert h + (WithKey(a[1..], key, k) + WithKey(b, key, k)) == (h + WithKey(a[1..], key, k)) + WithKey(b, key, k);
    }
  }

  lemma {:induction false} InsertStable<T>(x: T, s: seq<T>, key: T -> int, k: int)
    ensures WithKey(Insert(x, s, key), key, k)
         == (if key(x) == k then [x] else []) + WithKey(s, key, k)
  {
    if s == [] || key(x) <= key(s[0]) {
      assert ([x] + s)[1..] == s;
    } else {
      var r1 := Insert(x, s[1..], key);
      InsertStable(x, s[1..], key, k);
      assert Insert(x, s, key) == [s[0]] + r1;
      assert ([s[0]] + r1)[1..] == r1;
      var head := if key(s[0]) == k then [s[0]] else [];
      assert WithKey(Insert(x, s, key), key, k) == head + WithKey(r1, key, k);
      assert WithKey(s, key, k) == head + WithKey(s[1..], key, k);
      assert key(x) != k || key(s[0]) != k;
    }
  }

  /** The sort is stable: elements with equal keys keep their relative order. */
  lemma {:induction false} SortByStable<T>(s: seq<T>, key: T -> int, k: int)
    ensures WithKey(SortBy(s, key), key, k) == WithKey(s, key, k)
  {
    if s != [] {
      SortByStable(s[1..], key, k);
      InsertStable(s[0], SortBy(s[1..], key), key, k);
    }
  }

  /** No element occurs twice. */
  ghost predicate Distinct<T>(s: seq<T>) {
    forall i, j :: 0 <= i < j < |s| ==> s[i] != s[j]
  }
}
