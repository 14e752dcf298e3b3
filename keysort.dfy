/**
 * A stable sort by an integer key, the behaviour `Array.prototype.sort` guarantees for a
 * comparator that orders by a key. `SortByKey` is the result, written as an insertion
 * sort; `SortInPlace` sorts an array in place and is proved to produce it.
 */
module KeySort {
  import opened Seqs

  predicate SortedBy<T>(s: seq<T>, key: T -> int)
  {
    forall i, j :: 0 <= i < j < |s| ==> key(s[i]) <= key(s[j])
  }

  function KeyIs<T>(key: T -> int, k: int): T -> bool
  {
    x => key(x) == k
  }

  /** The elements of `s` whose key is `k`, in their order in `s`. */
  function WithKey<T>(s: seq<T>, key: T -> int, k: int): seq<T>
  {
    Filter(s, KeyIs(key, k))
  }

  lemma WithKeyAppend<T>(a: seq<T>, b: seq<T>, key: T -> int, k: int)
    ensures WithKey(a + b, key, k) == WithKey(a, key, k) + WithKey(b, key, k)
  {
    FilterAppend(a, b, KeyIs(key, k));
  }

  /** `t` with `x` placed after every element whose key is not greater than that of `x`. */
  function Insert<T>(t: seq<T>, x: T, key: T -> int): (r: seq<T>)
    ensures |r| == |t| + 1
    decreases |t|
  {
    if t == [] || key(t[|t| - 1]) <= key(x) then t + [x]
    else Insert(t[..|t| - 1], x, key) + [t[|t| - 1]]
  }

  lemma {:induction false} InsertPermutes<T>(t: seq<T>, x: T, key: T -> int)
    ensures multiset(Insert(t, x, key)) == multiset(t) + multiset{x}
    decreases |t|
  {
    if t != [] && key(t[|t| - 1]) > key(x) {
      InsertPermutes(t[..|t| - 1], x, key);
      assert t == t[..|t| - 1] + [t[|t| - 1]];
    }
  }

  /** Inserting into a sorted list keeps it sorted. */
  lemma {:induction false} InsertSorted<T>(t: seq<T>, x: T, key: T -> int)
    requires SortedBy(t, key)
    ensures SortedBy(Insert(t, x, key), key)
    decreases |t|
  {
    if t != [] && key(t[|t| - 1]) > key(x) {
      var init, last := t[..|t| - 1], t[|t| - 1];
      InsertSorted(init, x, key);
      var u := Insert(init, x, key);
      InsertPermutes(init, x, key);
      assert Insert(t, x, key) == u + [last];
      forall k | 0 <= k < |u| ensures key(u[k]) <= key(last) {
        assert u[k] in multiset(u);
        assert u[k] in multiset(init) || u[k] == x;
        if u[k] != x {
          var i :| 0 <= i < |init| && init[i] == u[k];
          assert t[i] == init[i];
        }
      }
    }
  }

  /** The stable sort of `s` by `key`: each element inserted in turn into the sorted prefix before it. */
  function SortByKey<T>(s: seq<T>, key: T -> int): (r: seq<T>)
    ensures |r| == |s|
  {
    if s == [] then [] else Insert(SortByKey(s[..|s| - 1], key), s[|s| - 1], key)
  }

  /** The sorted list is a permutation of the input, ordered by `key`. */
  lemma {:induction false} SortByKeySortsAndPermutes<T>(s: seq<T>, key: T -> int)
    ensures multiset(SortByKey(s, key)) == multiset(s)
    ensures SortedBy(SortByKey(s, key), key)
  {
    if s != [] {
      var init, last := s[..|s| - 1], s[|s| - 1];
      SortByKeySortsAndPermutes(init, key);
      InsertPermutes(SortByKey(init, key), last, key);
      InsertSorted(SortByKey(init, key), last, key);
      assert s == init + [last];
    }
  }

  /** Insertion keeps, within every key, the order of `t + [x]`. */
  lemma {:induction false} InsertStable<T>(t: seq<T>, x: T, key: T -> int, k: int)
    ensures WithKey(Insert(t, x, key), key, k) == WithKey(t + [x], key, k)
    decreases |t|
  {
    if t != [] && key(t[|t| - 1]) > key(x) {
      var init, last := t[..|t| - 1], t[|t| - 1];
      assert t + [x] == init + [last] + [x];
      InsertStable(init, x, key, k);
      WithKeyAppend(Insert(init, x, key), [last], key, k);
      WithKeyAppend(init, [x], key, k);
      WithKeyAppend(init + [last], [x], key, k);
      WithKeyAppend(init, [last], key, k);
      assert WithKey([x], key, k) == [] || WithKey([last], key, k) == [];
    }
  }

  /** Stability: within every key the sorted list keeps the order of the input. */
  lemma {:induction false} SortStable<T>(s: seq<T>, key: T -> int, k: int)
    ensures WithKey(SortByKey(s, key), key, k) == WithKey(s, key, k)
  {
    if s != [] {
      var init, last := s[..|s| - 1], s[|s| - 1];
      assert s == init + [last];
      SortStable(init, key, k);
      InsertStable(SortByKey(init, key), last, key, k);
      WithKeyAppend(SortByKey(init, key), [last], key, k);
      WithKeyAppend(init, [last], key, k);
    }
  }

  /** Two lists with the same first element and the same elements of key `k` agree on that key after the first. */
  lemma TailsAgree<T>(a: seq<T>, b: seq<T>, key: T -> int, k: int)
    requires a != [] && b != [] && a[0] == b[0]
    requires WithKey(a, key, k) == WithKey(b, key, k)
    ensures WithKey(a[1..], key, k) == WithKey(b[1..], key, k)
  {
    var h := if key(a[0]) == k then [a[0]] else [];
    assert WithKey(a, key, k) == h + WithKey(a[1..], key, k);
    assert WithKey(b, key, k) == h + WithKey(b[1..], key, k);
    assert WithKey(a[1..], key, k) == WithKey(a, key, k)[|h|..];
  }

  /** The first element of a non-empty list is among the elements of its own key. */
  lemma HeadHasKey<T>(s: seq<T>, key: T -> int)
    ensures s != [] ==> WithKey(s, key, key(s[0])) == [s[0]] + WithKey(s[1..], key, key(s[0]))
  {
  }

  /** If some element of sorted `b` has key `m`, the first element of `b` has a key no greater. */
  lemma {:induction false} HeadKeyIsLeast<T>(b: seq<T>, key: T -> int, m: int)
    requires SortedBy(b, key) && WithKey(b, key, m) != []
    ensures b != [] && key(b[0]) <= m
  {
    if key(b[0]) != m {
      HeadKeyIsLeast(b[1..], key, m);
      assert key(b[0]) <= key(b[1]);
    }
  }

  /** Sorted and stable together determine the arrangement: two sorted lists with the same elements of every key, in the same order, are equal. */
  lemma {:induction false} StableSortUnique<T>(a: seq<T>, b: seq<T>, key: T -> int)
    requires SortedBy(a, key) && SortedBy(b, key)
    requires forall k :: WithKey(a, key, k) == WithKey(b, key, k)
    ensures a == b
    decreases |a|
  {
    HeadHasKey(a, key);
    HeadHasKey(b, key);
    if a != [] && b != [] {
      var m, n := key(a[0]), key(b[0]);
      HeadKeyIsLeast(b, key, m);
      HeadKeyIsLeast(a, key, n);
      assert m == n;
      assert WithKey(a, key, m) == WithKey(b, key, m);
      assert a[0] == WithKey(a, key, m)[0] == WithKey(b, key, n)[0] == b[0];
      forall k ensures WithKey(a[1..], key, k) == WithKey(b[1..], key, k) {
        TailsAgree(a, b, key, k);
      }
      StableSortUnique(a[1..], b[1..], key);
      assert a == [a[0]] + a[1..] && b == [b[0]] + b[1..];
    }
  }

  /**
   * `SortByKey` is the only sorted rearrangement of `s` that keeps the order within every key,
   * so any stable sort by the same key, whatever its algorithm, returns exactly `SortByKey(s)`.
   */
  lemma IsStableSort<T>(s: seq<T>, r: seq<T>, key: T -> int)
    requires SortedBy(r, key)
    requires forall k :: WithKey(r, key, k) == WithKey(s, key, k)
    ensures r == SortByKey(s, key)
  {
    forall k ensures WithKey(r, key, k) == WithKey(SortByKey(s, key), key, k) {
      SortStable(s, key, k);
    }
    SortByKeySortsAndPermutes(s, key);
    StableSortUnique(r, SortByKey(s, key), key);
  }

  /** One step of the inner loop: `x` moves left past an element with a greater key. */
  lemma InsertShift<T>(p: seq<T>, x: T, key: T -> int, j: nat)
    requires 0 < j <= |p| && key(p[j - 1]) > key(x)
    ensures Insert(p[..j], x, key) + p[j..] == Insert(p[..j - 1], x, key) + p[j - 1..]
  {
    assert p[..j][..j - 1] == p[..j - 1];
    assert p[j - 1..] == [p[j - 1]] + p[j..];
  }

  /** The inner loop stops: `x` goes right after `p[..j]`. */
  lemma InsertStop<T>(p: seq<T>, x: T, key: T -> int, j: nat)
    requires j <= |p| && (j == 0 || key(p[j - 1]) <= key(x))
    ensures Insert(p[..j], x, key) == p[..j] + [x]
  {
  }

  /** Copying `p[j - 1]` into the hole at `j` moves the hole one place left. */
  lemma ShiftHole<T>(p: seq<T>, h: T, rest: seq<T>, j: nat)
    requires 0 < j <= |p|
    ensures (p[..j] + [h] + p[j..] + rest)[j := p[j - 1]] == p[..j - 1] + [p[j - 1]] + p[j - 1..] + rest
  {
    var lhs := (p[..j] + [h] + p[j..] + rest)[j := p[j - 1]];
    var rhs := p[..j - 1] + [p[j - 1]] + p[j - 1..] + rest;
    assert |lhs| == |rhs|;
    forall k | 0 <= k < |lhs| ensures lhs[k] == rhs[k] {
      if k < j - 1 {
      } else if k <= j {
      } else if k <= |p| {
        assert lhs[k] == p[k - 1];
      }
    }
  }

  /** Writing `x` into the hole at `j`. */
  lemma FillHole<T>(p: seq<T>, h: T, x: T, rest: seq<T>, j: nat)
    requires j <= |p|
    ensures (p[..j] + [h] + p[j..] + rest)[j := x] == p[..j] + [x] + p[j..] + rest
  {
    var lhs := (p[..j] + [h] + p[j..] + rest)[j := x];
    var rhs := p[..j] + [x] + p[j..] + rest;
    assert |lhs| == |rhs|;
    forall k | 0 <= k < |lhs| ensures lhs[k] == rhs[k] {
    }
  }

  lemma SortByKeySnoc<T>(s: seq<T>, key: T -> int, i: nat)
    requires i < |s|
    ensures SortByKey(s[..i + 1], key) == Insert(SortByKey(s[..i], key), s[i], key)
  {
    assert s[..i + 1][..i] == s[..i];
  }

  /** The inner loop of insertion sort: `a[i]` moves left past the elements of `a[..i]` with a greater key. */
  method InsertInPlace<T>(a: array<T>, i: nat, key: T -> int)
    requires i < a.Length
    modifies a
    ensures a[..] == Insert(old(a[..i]), old(a[i]), key) + old(a[i + 1..])
  {
    ghost var prefix, rest := a[..i], a[i + 1..];
    var x := a[i];
    var j := i;
    assert prefix[..j] == prefix && prefix[j..] == [];
    assert a[..] == prefix[..j] + [a[j]] + prefix[j..] + rest;
    while j > 0 && key(a[j - 1]) > key(x)
      invariant 0 <= j <= i
      invariant a[..] == prefix[..j] + [a[j]] + prefix[j..] + rest
      invariant Insert(prefix, x, key) == Insert(prefix[..j], x, key) + prefix[j..]
    {
      ghost var before := a[..];
      assert a[j - 1] == prefix[j - 1];
      InsertShift(prefix, x, key, j);
      ShiftHole(prefix, a[j], rest, j);
      a[j] := a[j - 1];
      assert a[..] == before[j := prefix[j - 1]];
      j := j - 1;
    }
    InsertStop(prefix, x, key, j);
    FillHole(prefix, a[j], x, rest, j);
    ghost var before := a[..];
    a[j] := x;
    assert a[..] == before[j := x];
  }

  /** Sorts `a` in place by `key`; an element moves only past strictly greater ones, so equal keys keep their order. */
  method SortInPlace<T>(a: array<T>, key: T -> int)
    modifies a
    ensures a[..] == SortByKey(old(a[..]), key)
  {
    ghost var orig := a[..];
    var i := 0;
    assert orig[..0] == [] && orig[0..] == orig;
    while i < a.Length
      invariant 0 <= i <= a.Length
      invariant a[..] == SortByKey(orig[..i], key) + orig[i..]
    {
      ghost var sorted := SortByKey(orig[..i], key);
      assert a[..i] == sorted && a[i] == orig[i] && a[i + 1..] == orig[i + 1..];
      InsertInPlace(a, i, key);
      assert a[..] == Insert(sorted, orig[i], key) + orig[i + 1..];
      SortByKeySnoc(orig, key, i);
      i := i + 1;
    }
    assert orig[..a.Length] == orig;
  }
}
