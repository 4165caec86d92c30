/**
 Python's `list.sort(key=...)` with a key function returning strings: a
 stable sort in ascending key order, where keys are compared with `str`'s
 `<=`. The result is given as a function, `SortByKey`, which is insertion
 sort; the in-place method `Sort` works on an array and is proved to leave
 exactly that result.
 */
module KeySort {
  import opened PyStr

  /** The comparison the sort makes: key of `x` <= key of `y`. */
  predicate KeyLe<T>(key: T -> string, x: T, y: T)
  {
    LexLe(key(x), key(y))
  }

  /** Adjacent elements are in non-decreasing key order. */
  predicate SortedByKey<T>(s: seq<T>, key: T -> string)
  {
    forall i :: 0 <= i < |s| - 1 ==> KeyLe(key, s[i], s[i + 1])
  }

  /** The elements of `s` whose key is `k`, in their order in `s`. A sort is
      stable when it keeps every such subsequence as it was. */
  function WithKey<T>(s: seq<T>, key: T -> string, k: string): seq<T>
  {
    if s == [] then []
    else
      var last := s[|s| - 1];
      WithKey(s[..|s| - 1], key, k) + if key(last) == k then [last] else []
  }

  // ---------------------------------------------------------------------
  // The sort, as a function: stable insertion sort
  // ---------------------------------------------------------------------

  /** Inserts `x` into `t` after every element whose key is at most `x`'s,
      so that `x` follows the elements with an equal key. */
  function Insert<T>(t: seq<T>, x: T, key: T -> string): seq<T>
  {
    if t == [] then [x]
    else if KeyLe(key, t[|t| - 1], x) then t + [x]
    else Insert(t[..|t| - 1], x, key) + [t[|t| - 1]]
  }

  /** What `s.sort(key=key)` leaves in the list. */
  function SortByKey<T>(s: seq<T>, key: T -> string): seq<T>
  {
    if s == [] then [] else Insert(SortByKey(s[..|s| - 1], key), s[|s| - 1], key)
  }

  /** Where `Insert` puts `x`: right after the last element whose key is not
      greater than `x`'s. */
  lemma {:induction false} InsertPosition<T>(t: seq<T>, j: nat, x: T, key: T -> string)
    requires j <= |t| && (j == 0 || KeyLe(key, t[j - 1], x))
    requires forall i :: j <= i < |t| ==> !KeyLe(key, t[i], x)
    ensures Insert(t, x, key) == t[..j] + [x] + t[j..]
    decreases |t|
  {
    if j < |t| {
      var init, last := t[..|t| - 1], t[|t| - 1];
      InsertPosition(init, j, x, key);
      assert init[..j] == t[..j];
      assert init[j..] + [last] == t[j..];
    }
  }

  lemma {:induction false} InsertPermutes<T>(t: seq<T>, x: T, key: T -> string)
    ensures multiset(Insert(t, x, key)) == multiset(t) + multiset{x}
  {
    if t != [] && !KeyLe(key, t[|t| - 1], x) {
      InsertPermutes(t[..|t| - 1], x, key);
      assert t == t[..|t| - 1] + [t[|t| - 1]];
    }
  }

  /** The sorted list holds the same elements, each as often as before. */
  lemma {:induction false} SortPermutes<T>(s: seq<T>, key: T -> string)
    ensures multiset(SortByKey(s, key)) == multiset(s)
    ensures |SortByKey(s, key)| == |s|
  {
    if s != [] {
      SortPermutes(s[..|s| - 1], key);
      InsertPermutes(SortByKey(s[..|s| - 1], key), s[|s| - 1], key);
      assert s == s[..|s| - 1] + [s[|s| - 1]];
    }
    assert |multiset(SortByKey(s, key))| == |multiset(s)|;
  }

  /** The last element of `Insert(t, x)` is `x` or the last element of `t`. */
  lemma {:induction false} InsertLast<T>(t: seq<T>, x: T, key: T -> string)
    ensures |Insert(t, x, key)| == |t| + 1
    ensures Insert(t, x, key)[|t|] == x || (t != [] && Insert(t, x, key)[|t|] == t[|t| - 1])
  {
    if t != [] && !KeyLe(key, t[|t| - 1], x) {
      InsertLast(t[..|t| - 1], x, key);
    }
  }

  lemma {:induction false} InsertSorted<T>(t: seq<T>, x: T, key: T -> string)
    requires SortedByKey(t, key)
    ensures SortedByKey(Insert(t, x, key), key)
  {
    if t != [] && !KeyLe(key, t[|t| - 1], x) {
      var init, last := t[..|t| - 1], t[|t| - 1];
      assert SortedByKey(init, key);
      InsertSorted(init, x, key);
      InsertLast(init, x, key);
      var u := Insert(init, x, key);
      LexLeTotal(key(last), key(x));
      assert KeyLe(key, u[|u| - 1], last);
      assert Insert(t, x, key) == u + [last];
    }
  }

  /** After the sort, adjacent elements are in non-decreasing key order. */
  lemma {:induction false} SortSorted<T>(s: seq<T>, key: T -> string)
    ensures SortedByKey(SortByKey(s, key), key)
  {
    if s != [] {
      SortSorted(s[..|s| - 1], key);
      InsertSorted(SortByKey(s[..|s| - 1], key), s[|s| - 1], key);
    }
  }

  /** Inserting `x` only moves it past elements with a strictly greater
      key, so among the elements that share a key, `x` comes last. */
  lemma {:induction false} InsertKeepsKeyOrder<T>(t: seq<T>, x: T, key: T -> string, k: string)
    ensures WithKey(Insert(t, x, key), key, k) == WithKey(t + [x], key, k)
  {
    if t != [] {
      assert (t + [x])[..|t|] == t;
      if !KeyLe(key, t[|t| - 1], x) {
        var init, last := t[..|t| - 1], t[|t| - 1];
        InsertKeepsKeyOrder(init, x, key, k);
        assert (init + [x])[..|init|] == init;
        assert Insert(t, x, key)[..|Insert(t, x, key)| - 1] == Insert(init, x, key);
        if key(x) == k {
          LexLeReflexive(k);
          assert key(last) != k;
        }
      }
    }
  }

  /** The sort is stable: the elements that share a key keep their original
      relative order. */
  lemma {:induction false} SortStable<T>(s: seq<T>, key: T -> string, k: string)
    ensures WithKey(SortByKey(s, key), key, k) == WithKey(s, key, k)
  {
    if s != [] {
      var init, last := s[..|s| - 1], s[|s| - 1];
      SortStable(init, key, k);
      InsertKeepsKeyOrder(SortByKey(init, key), last, key, k);
      assert (SortByKey(init, key) + [last])[..|SortByKey(init, key)|] == SortByKey(init, key);
    }
  }

  /** Sorting a list that is already in key order leaves it unchanged. */
  lemma {:induction false} SortKeepsSorted<T>(s: seq<T>, key: T -> string)
    requires SortedByKey(s, key)
    ensures SortByKey(s, key) == s
  {
    if s != [] {
      var init := s[..|s| - 1];
      assert SortedByKey(init, key);
      SortKeepsSorted(init, key);
      assert s == init + [s[|s| - 1]];
    }
  }

  /** Sorting twice is the same as sorting once. */
  lemma SortIdempotent<T>(s: seq<T>, key: T -> string)
    ensures SortByKey(SortByKey(s, key), key) == SortByKey(s, key)
  {
    SortSorted(s, key);
    SortKeepsSorted(SortByKey(s, key), key);
  }

  /** Two elements out of key order swap places. */
  lemma SortTwo<T>(x: T, y: T, key: T -> string)
    requires !KeyLe(key, x, y)
    ensures SortByKey([x, y], key) == [y, x]
  {
    var s := [x, y];
    assert s[..1] == [x] && s[|s| - 1] == y;
    assert SortByKey([x], key) == [x];
    assert Insert([], y, key) == [y];
  }

  /** Of three elements, the last moves in front of the second, whose key
      is greater, but stays behind the first, whose key is not. */
  lemma SortThree<T>(x: T, y: T, z: T, key: T -> string)
    requires KeyLe(key, x, y) && !KeyLe(key, y, z) && KeyLe(key, x, z)
    ensures SortByKey([x, y, z], key) == [x, z, y]
  {
    var s, t := [x, y, z], [x, y];
    assert s[..2] == t && s[|s| - 1] == z && t[..1] == [x] && t[|t| - 1] == y;
    assert SortByKey([x], key) == [x];
    assert SortByKey(t, key) == Insert([x], y, key) == t;
    assert Insert([x], z, key) == [x, z];
    assert Insert(t, z, key) == Insert([x], z, key) + [y];
  }

  // ---------------------------------------------------------------------
  // The sort is the only stable arrangement in key order
  // ---------------------------------------------------------------------

  lemma {:induction false} WithKeyMembers<T>(s: seq<T>, key: T -> string, k: string, x: T)
    ensures x in WithKey(s, key, k) <==> x in s && key(x) == k
  {
    if s != [] {
      WithKeyMembers(s[..|s| - 1], key, k, x);
      assert s == s[..|s| - 1] + [s[|s| - 1]];
    }
  }

  /** In a list in key order, no element has a key above that of the last. */
  lemma {:induction false} SortedLastIsGreatest<T>(s: seq<T>, key: T -> string, i: nat)
    requires SortedByKey(s, key) && i < |s|
    ensures KeyLe(key, s[i], s[|s| - 1])
  {
    if i == |s| - 1 {
      LexLeReflexive(key(s[i]));
    } else {
      assert SortedByKey(s[..|s| - 1], key);
      SortedLastIsGreatest(s[..|s| - 1], key, i);
      LexLeTransitive(key(s[i]), key(s[|s| - 2]), key(s[|s| - 1]));
    }
  }

  lemma SameGreatestKey<T>(t: seq<T>, u: seq<T>, key: T -> string)
    requires SortedByKey(t, key) && SortedByKey(u, key) && t != [] && u != []
    requires forall k :: WithKey(t, key, k) == WithKey(u, key, k)
    ensures key(t[|t| - 1]) == key(u[|u| - 1])
  {
    var x, y := t[|t| - 1], u[|u| - 1];
    WithKeyMembers(t, key, key(x), x);
    WithKeyMembers(u, key, key(x), x);
    WithKeyMembers(u, key, key(y), y);
    WithKeyMembers(t, key, key(y), y);
    var i :| 0 <= i < |u| && u[i] == x;
    var j :| 0 <= j < |t| && t[j] == y;
    SortedLastIsGreatest(u, key, i);
    SortedLastIsGreatest(t, key, j);
    LexLeAntisymmetric(key(x), key(y));
  }

  lemma WithKeyDropLast<T>(t: seq<T>, u: seq<T>, key: T -> string, k: string)
    requires t != [] && u != [] && t[|t| - 1] == u[|u| - 1]
    requires WithKey(t, key, k) == WithKey(u, key, k)
    ensures WithKey(t[..|t| - 1], key, k) == WithKey(u[..|u| - 1], key, k)
  {
    var x := t[|t| - 1];
    var wt, wu := WithKey(t[..|t| - 1], key, k), WithKey(u[..|u| - 1], key, k);
    assert WithKey(t, key, k) == wt + (if key(x) == k then [x] else []);
    assert WithKey(u, key, k) == wu + (if key(x) == k then [x] else []);
    if key(x) == k {
      assert (wt + [x])[..|wt|] == wt;
      assert (wu + [x])[..|wu|] == wu;
    }
  }

  /** Two lists in key order in which every key's elements appear in the
      same order are equal. */
  lemma {:induction false} StableSortedUnique<T>(t: seq<T>, u: seq<T>, key: T -> string)
    requires SortedByKey(t, key) && SortedByKey(u, key)
    requires forall k :: WithKey(t, key, k) == WithKey(u, key, k)
    ensures t == u
  {
    if t == [] || u == [] {
      if t != [] {
        WithKeyMembers(t, key, key(t[0]), t[0]);
        WithKeyMembers(u, key, key(t[0]), t[0]);
      }
      if u != [] {
        WithKeyMembers(u, key, key(u[0]), u[0]);
        WithKeyMembers(t, key, key(u[0]), u[0]);
      }
    } else {
      var x, y := t[|t| - 1], u[|u| - 1];
      var t', u' := t[..|t| - 1], u[..|u| - 1];
      SameGreatestKey(t, u, key);
      var top := key(x);
      var wt, wu := WithKey(t, key, top), WithKey(u, key, top);
      assert wt == WithKey(t', key, top) + [x];
      assert wu == WithKey(u', key, top) + [y];
      assert wt == wu;
      assert wt[|wt| - 1] == x && wu[|wu| - 1] == y;
      forall k ensures WithKey(t', key, k) == WithKey(u', key, k) {
        WithKeyDropLast(t, u, key, k);
      }
      assert SortedByKey(t', key) && SortedByKey(u', key);
      StableSortedUnique(t', u', key);
      assert t == t' + [x] && u == u' + [y];
    }
  }

  /** The sort's result is the one and only arrangement of the list that is
      in key order and keeps the elements of every key in their original
      order, so every stable sort leaves the same list. */
  lemma SortIsTheStableSort<T>(s: seq<T>, t: seq<T>, key: T -> string)
    requires SortedByKey(t, key)
    requires forall k :: WithKey(t, key, k) == WithKey(s, key, k)
    ensures t == SortByKey(s, key)
  {
    SortSorted(s, key);
    forall k ensures WithKey(t, key, k) == WithKey(SortByKey(s, key), key, k) {
      SortStable(s, key, k);
    }
    StableSortedUnique(t, SortByKey(s, key), key);
  }

  // ---------------------------------------------------------------------
  // The sort, in place on the list
  // ---------------------------------------------------------------------

  /** Moving `x` in front of an element with a strictly greater key. */
  lemma InsertBeforeGreater<T>(t: seq<T>, j: nat, x: T, key: T -> string)
    requires 0 < j <= |t| && !KeyLe(key, t[j - 1], x)
    ensures Insert(t[..j], x, key) + t[j..] == Insert(t[..j - 1], x, key) + t[j - 1..]
  {
    assert t[..j][..j - 1] == t[..j - 1];
    assert t[j - 1..] == [t[j - 1]] + t[j..];
  }

  /** `x` goes right after an element whose key is not greater than its own. */
  lemma InsertAfterNotGreater<T>(t: seq<T>, j: nat, x: T, key: T -> string)
    requires j <= |t| && (j == 0 || KeyLe(key, t[j - 1], x))
    ensures Insert(t[..j], x, key) == t[..j] + [x]
  {
  }

  /** Copying the element in front of the hole into it moves the hole one
      place to the left. */
  lemma ShiftHole<T>(s: seq<T>, sorted: seq<T>, rest: seq<T>, j: nat)
    requires 0 < j <= |sorted| && |s| == |sorted| + 1 + |rest|
    requires s[..j] == sorted[..j] && s[j + 1..] == sorted[j..] + rest
    ensures s[j := s[j - 1]][..j - 1] == sorted[..j - 1]
    ensures s[j := s[j - 1]][j..] == sorted[j - 1..] + rest
  {
    assert s[j - 1] == sorted[..j][j - 1];
    assert sorted[j - 1..] == [sorted[j - 1]] + sorted[j..];
  }

  /** Writing `x` into the hole left at `j` by the shifting. */
  lemma FillHole<T>(s: seq<T>, sorted: seq<T>, rest: seq<T>, j: nat, x: T)
    requires j <= |sorted| && |s| == |sorted| + 1 + |rest|
    requires s[..j] == sorted[..j] && s[j + 1..] == sorted[j..] + rest
    ensures s[j := x][..|sorted| + 1] == sorted[..j] + [x] + sorted[j..]
    ensures s[j := x][|sorted| + 1..] == rest
  {
    var s' := s[j := x];
    assert s' == sorted[..j] + [x] + sorted[j..] + rest;
  }

  /** One pass of the insertion sort: `a[i]` is inserted into `a[..i]`,
      shifting the elements with a strictly greater key one place right. */
  method InsertAt<T>(a: array<T>, i: nat, key: T -> string)
    requires i < a.Length
    modifies a
    ensures a[..i + 1] == Insert(old(a[..i]), old(a[i]), key)
    ensures a[i + 1..] == old(a[i + 1..])
  {
    var x := a[i];
    ghost var sorted, rest := a[..i], a[i + 1..];
    assert a[..] == sorted + [x] + rest;
    assert sorted[..i] == sorted && sorted[i..] == [];
    var j := i;
    while j > 0 && !KeyLe(key, a[j - 1], x)
      invariant 0 <= j <= i
      invariant a[..j] == sorted[..j]
      invariant a[j + 1..] == sorted[j..] + rest
      invariant Insert(sorted, x, key) == Insert(sorted[..j], x, key) + sorted[j..]
    {
      InsertBeforeGreater(sorted, j, x, key);
      ShiftHole(a[..], sorted, rest, j);
      a[j] := a[j - 1];
      j := j - 1;
    }
    InsertAfterNotGreater(sorted, j, x, key);
    FillHole(a[..], sorted, rest, j, x);
    a[j] := x;
  }

  /** `a.sort(key=key)`: a stable insertion sort of the array in place. */
  method Sort<T>(a: array<T>, key: T -> string)
    modifies a
    ensures a[..] == SortByKey(old(a[..]), key)
    ensures multiset(a[..]) == multiset(old(a[..]))
    ensures SortedByKey(a[..], key)
  {
    ghost var input := a[..];
    var i := 0;
    while i < a.Length
      invariant 0 <= i <= a.Length
      invariant a[..i] == SortByKey(input[..i], key)
      invariant a[i..] == input[i..]
    {
      assert input[..i + 1][..i] == input[..i];
      InsertAt(a, i, key);
      i := i + 1;
    }
    assert input[..a.Length] == input;
    SortPermutes(input, key);
    SortSorted(input, key);
  }
}
