/**
 * `Array.prototype.sort` with a comparator of the form `(a, b) => key(a) - key(b)`,
 * done in place. The engine's sort is stable; the model is an insertion sort
 * that produces exactly `Lists.SortBy`, whose order and stability are proved
 * in `Lists`.
 */
module ArraySort {
  import opened Lists

  /** Where `Insert` puts `x`: before the first element whose key is not below `key(x)`. */
  lemma {:induction false} InsertAt<T>(x: T, s: seq<T>, key: T -> int, m: nat)
    requires m <= |s|
    requires forall k :: 0 <= k < m ==> key(s[k]) < key(x)
    requires m < |s| ==> key(x) <= key(s[m])
    ensures Insert(x, s, key) == s[..m] + [x] + s[m..]
  {
    if m > 0 {
      InsertAt(x, s[1..], key, m - 1);
      assert s[1..][..m - 1] == s[1..m];
      assert s[1..][m - 1..] == s[m..];
      assert s[..m] == [s[0]] + s[1..m];
    }
  }

  /** Shifts the sorted run `a[i+1..]` left past every element keyed below `a[i]`, then drops `a[i]` in the gap. */
  method InsertInto<T>(a: array<T>, i: nat, key: T -> int)
    requires i < a.Length
    modifies a
    ensures a[..i] == old(a[..i])
    ensures a[i..] == Insert(old(a[i]), old(a[i + 1..]), key)
  {
    ghost var s := a[i + 1..];
    ghost var pre := a[..i];
    var x := a[i];
    var j := i;
    while j + 1 < a.Length && key(a[j + 1]) < key(x)
      invariant i <= j < a.Length
      invariant a[..i] == pre
      invariant a[i..j] == s[..j - i]
      invariant a[j + 1..] == s[j - i..]
      invariant forall k :: 0 <= k < j - i ==> key(s[k]) < key(x)
    {
      var t := a[j + 1];
      assert t == s[j - i];
      a[j] := t;
      assert a[i..j + 1] == s[..j + 1 - i] by {
        assert a[i..j + 1] == a[i..j] + [t];
        assert s[..j + 1 - i] == s[..j - i] + [t];
      }
      j := j + 1;
    }
    a[j] := x;
    assert a[i..] == s[..j - i] + [x] + s[j - i..] by {
      assert a[i..j] == s[..j - i] && a[j + 1..] == s[j - i..];
      assert a[i..] == a[i..j] + [x] + a[j + 1..];
    }
    InsertAt(x, s, key, j - i);
  }

  /** `a.sort((p, q) => key(p) - key(q))`. */
  method SortInPlace<T>(a: array<T>, key: T -> int)
    modifies a
    ensures a[..] == SortBy(old(a[..]), key)
  {
    ghost var orig := a[..];
    var i := a.Length;
    while i > 0
      invariant 0 <= i <= a.Length
      invariant a[..i] == orig[..i]
      invariant a[i..] == SortBy(orig[i..], key)
    {
      i := i - 1;
      assert orig[i..][1..] == orig[i + 1..];
      InsertInto(a, i, key);
    }
    assert a[0..] == a[..];
  }
}
