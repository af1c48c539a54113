/** A stable sort by an integer key: the model of Python's `list.sort(key=…)`
    (stable by definition) and of the reordering `sort_values` performs. */
module Sorting {

  predicate SortedBy<T>(s: seq<T>, key: T -> int) {
    forall i, j :: 0 <= i < j < |s| ==> key(s[i]) <= key(s[j])
  }

  /** Places `x` after every element whose key is not larger than its own. */
  function Insert<T>(x: T, s: seq<T>, key: T -> int): (r: seq<T>)
    ensures |r| == |s| + 1
    ensures multiset(r) == multiset(s) + multiset{x}
    decreases |s|
  {
    if s == [] then [x]
    else if key(s[0]) <= key(x) then
      assert s == [s[0]] + s[1..];
      [s[0]] + Insert(x, s[1..], key)
    else [x] + s
  }

  /** Insertion sort: the elements of `s` in ascending key order. */
  function SortBy<T>(s: seq<T>, key: T -> int): (r: seq<T>)
    ensures multiset(r) == multiset(s)
    decreases |s|
  {
    if s == [] then []
    else
      assert s == s[..|s| - 1] + [s[|s| - 1]];
      Insert(s[|s| - 1], SortBy(s[..|s| - 1], key), key)
  }

  /** The elements of `s` whose key is `k`, in their order in `s`. */
  function WithKey<T>(s: seq<T>, key: T -> int, k: int): seq<T>
    decreases |s|
  {
    if s == [] then [] else (if key(s[0]) == k then [s[0]] else []) + WithKey(s[1..], key, k)
  }

  lemma {:induction false} WithKeyConcat<T>(a: seq<T>, b: seq<T>, key: T -> int, k: int)
    ensures WithKey(a + b, key, k) == WithKey(a, key, k) + WithKey(b, key, k)
    decreases |a|
  {
    if a != [] {
      assert (a + b)[1..] == a[1..] + b;
      WithKeyConcat(a[1..], b, key, k);
    } else {
      assert a + b == b;
    }
  }

  lemma WithKeySingle<T>(x: T, key: T -> int, k: int)
    ensures WithKey([x], key, k) == if key(x) == k then [x] else []
  {
    assert [x][1..] == [];
  }

  lemma {:induction false} WithKeyNone<T>(s: seq<T>, key: T -> int, k: int)
    requires forall i :: 0 <= i < |s| ==> key(s[i]) != k
    ensures WithKey(s, key, k) == []
    decreases |s|
  {
    if s != [] {
      WithKeyNone(s[1..], key, k);
    }
  }

  lemma {:induction false} InsertLowerBound<T>(x: T, s: seq<T>, key: T -> int, b: int)
    requires b <= key(x) && forall i :: 0 <= i < |s| ==> b <= key(s[i])
    ensures forall i :: 0 <= i < |s| + 1 ==> b <= key(Insert(x, s, key)[i])
    decreases |s|
  {
    if s != [] && key(s[0]) <= key(x) {
      InsertLowerBound(x, s[1..], key, b);
    }
  }

  lemma {:induction false} InsertSorted<T>(x: T, s: seq<T>, key: T -> int)
    requires SortedBy(s, key)
    ensures SortedBy(Insert(x, s, key), key)
    decreases |s|
  {
    if s != [] && key(s[0]) <= key(x) {
      InsertSorted(x, s[1..], key);
      InsertLowerBound(x, s[1..], key, key(s[0]));
    }
  }

  /** The sort orders by key and is a permutation (the postcondition of SortBy). */
  lemma {:induction false} SortBySorted<T>(s: seq<T>, key: T -> int)
    ensures SortedBy(SortBy(s, key), key)
    decreases |s|
  {
    if s != [] {
      SortBySorted(s[..|s| - 1], key);
      InsertSorted(s[|s| - 1], SortBy(s[..|s| - 1], key), key);
    }
  }

  lemma {:induction false} InsertStable<T>(x: T, s: seq<T>, key: T -> int, k: int)
    requires SortedBy(s, key)
    ensures WithKey(Insert(x, s, key), key, k) == WithKey(s, key, k) + (if key(x) == k then [x] else [])
    decreases |s|
  {
    if s == [] {
      WithKeySingle(x, key, k);
      assert Insert(x, s, key) == [x];
    } else if key(s[0]) <= key(x) {
      var rest := s[1..];
      SortedTail(s, key);
      InsertStable(x, rest, key, k);
      InsertStablePast(x, s, key, k);
    } else {
      InsertStableBefore(x, s, key, k);
    }
  }

  lemma SortedTail<T>(s: seq<T>, key: T -> int)
    requires s != [] && SortedBy(s, key)
    ensures SortedBy(s[1..], key)
  {
    var rest := s[1..];
    forall i, j | 0 <= i < j < |rest| ensures key(rest[i]) <= key(rest[j]) {
      assert rest[i] == s[i + 1] && rest[j] == s[j + 1];
    }
  }

  /** The step of InsertStable where `x` goes past the head of `s`. */
  lemma InsertStablePast<T>(x: T, s: seq<T>, key: T -> int, k: int)
    requires s != [] && key(s[0]) <= key(x)
    requires WithKey(Insert(x, s[1..], key), key, k) == WithKey(s[1..], key, k) + (if key(x) == k then [x] else [])
    ensures WithKey(Insert(x, s, key), key, k) == WithKey(s, key, k) + (if key(x) == k then [x] else [])
  {
    InsertPastHead(x, s, key);
    assert [s[0]] + s[1..] == s;
    WithKeyConsTail(s[0], s[1..], Insert(x, s[1..], key), key, k, if key(x) == k then [x] else []);
  }

  lemma InsertPastHead<T>(x: T, s: seq<T>, key: T -> int)
    requires s != [] && key(s[0]) <= key(x)
    ensures Insert(x, s, key) == [s[0]] + Insert(x, s[1..], key)
  {
  }

  /** Putting the same head in front of `t` and of `rest` keeps the
      relation between their elements of key `k`. */
  lemma WithKeyConsTail<T>(h: T, rest: seq<T>, t: seq<T>, key: T -> int, k: int, tail: seq<T>)
    requires WithKey(t, key, k) == WithKey(rest, key, k) + tail
    ensures WithKey([h] + t, key, k) == WithKey([h] + rest, key, k) + tail
  {
    WithKeyConcat([h], t, key, k);
    WithKeyConcat([h], rest, key, k);
    AppendAssoc(WithKey([h], key, k), WithKey(rest, key, k), tail);
  }

  lemma AppendAssoc<T>(a: seq<T>, b: seq<T>, c: seq<T>)
    ensures a + (b + c) == (a + b) + c
  {
  }

  /** The step of InsertStable where `x` goes in front of `s`. */
  lemma InsertStableBefore<T>(x: T, s: seq<T>, key: T -> int, k: int)
    requires s != [] && key(x) < key(s[0]) && SortedBy(s, key)
    ensures WithKey(Insert(x, s, key), key, k) == WithKey(s, key, k) + (if key(x) == k then [x] else [])
  {
    assert Insert(x, s, key) == [x] + s;
    WithKeyConcat([x], s, key, k);
    WithKeySingle(x, key, k);
    if key(x) == k {
      forall i | 0 <= i < |s| ensures key(s[i]) != k {
        if i > 0 { assert key(s[0]) <= key(s[i]); }
      }
      WithKeyNone(s, key, k);
    }
  }

  /** The sort is stable: among elements with equal keys the input order is kept. */
  lemma {:induction false} SortByStable<T>(s: seq<T>, key: T -> int, k: int)
    ensures WithKey(SortBy(s, key), key, k) == WithKey(s, key, k)
    decreases |s|
  {
    if s != [] {
      SortByStable(s[..|s| - 1], key, k);
      SortByStableStep(s, key, k);
    }
  }

  /** The step of SortByStable: inserting the last element keeps the order. */
  lemma SortByStableStep<T>(s: seq<T>, key: T -> int, k: int)
    requires s != []
    requires WithKey(SortBy(s[..|s| - 1], key), key, k) == WithKey(s[..|s| - 1], key, k)
    ensures WithKey(SortBy(s, key), key, k) == WithKey(s, key, k)
  {
    var init, last := s[..|s| - 1], s[|s| - 1];
    var sorted := SortBy(init, key);
    SortBySorted(init, key);
    InsertStable(last, sorted, key, k);
    WithKeyLast(s, key, k);
  }

  /** The elements with key `k` of a sequence are those of all but its last
      element, followed by the last one when its key is `k`. */
  lemma {:induction false} WithKeyLast<T>(s: seq<T>, key: T -> int, k: int)
    requires s != []
    ensures WithKey(s, key, k) == WithKey(s[..|s| - 1], key, k) + (if key(s[|s| - 1]) == k then [s[|s| - 1]] else [])
    decreases |s|
  {
    var init := s[..|s| - 1];
    if |s| == 1 {
      assert s[1..] == [] && init == [];
    } else {
      var rest := s[1..];
      WithKeyLast(rest, key, k);
      assert rest[..|rest| - 1] == init[1..];
      assert rest[|rest| - 1] == s[|s| - 1];
      assert init[0] == s[0];
    }
  }

  lemma {:induction false} WithKeyHead<T>(s: seq<T>, key: T -> int, k: int) returns (i: nat)
    requires exists j :: 0 <= j < |s| && key(s[j]) == k
    ensures i < |s| && key(s[i]) == k
    ensures WithKey(s, key, k) != [] && WithKey(s, key, k)[0] == s[i]
    ensures forall j :: 0 <= j < i ==> key(s[j]) != k
    decreases |s|
  {
    if key(s[0]) == k {
      i := 0;
    } else {
      var j :| 0 <= j < |s| && key(s[j]) == k;
      assert s[1..][j - 1] == s[j];
      var i' := WithKeyHead(s[1..], key, k);
      i := i' + 1;
      forall j' | 0 <= j' < i ensures key(s[j']) != k {
        if j' > 0 {
          assert s[1..][j' - 1] == s[j'];
        }
      }
    }
  }

  /** The first element of the sorted sequence is the first element of the
      input whose key is smallest: a stable sort breaks ties by input order. */
  lemma SortHeadIsFirstSmallest<T>(s: seq<T>, key: T -> int) returns (i: nat)
    requires s != []
    ensures i < |s| && SortBy(s, key)[0] == s[i]
    ensures forall j :: 0 <= j < |s| ==> key(s[i]) <= key(s[j])
    ensures forall j :: 0 <= j < i ==> key(s[i]) < key(s[j])
  {
    var r := SortBy(s, key);
    SortBySorted(s, key);
    var m := key(r[0]);
    assert r[0] in multiset(s);
    assert WithKey(r, key, m)[0] == r[0];
    SortByStable(s, key, m);
    var j0 :| 0 <= j0 < |s| && s[j0] == r[0];
    i := WithKeyHead(s, key, m);
    forall j | 0 <= j < |s| ensures m <= key(s[j]) {
      assert s[j] in multiset(r);
      var q :| 0 <= q < |r| && r[q] == s[j];
      if q > 0 { assert key(r[0]) <= key(r[q]); }
    }
  }
}
