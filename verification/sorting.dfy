/** A stable sort of a sequence by an integer key, in ascending key order.

    This is what `Array.prototype.sort` does with a comparator of the form
    `(a, b) => key(a) - key(b)`: the ECMAScript sort is stable, so elements
    with equal keys keep the order they had.  A descending sort with the
    comparator `(a, b) => key(b) - key(a)` is the ascending sort by the
    negated key.  Insertion sort is used to compute it; `StableSortIsUnique`
    shows that every stable sort gives the same result. */
module Sorting {

  /** Keys never decrease along `s`. */
  ghost predicate SortedBy<T>(s: seq<T>, key: T -> int) {
    forall i, j :: 0 <= i < j < |s| ==> key(s[i]) <= key(s[j])
  }

  /** The elements of `s` whose key is `v`, in the order they appear in `s`. */
  function WithKey<T>(s: seq<T>, key: T -> int, v: int): (r: seq<T>)
    ensures |r| <= |s|
  {
    if s == [] then []
    else (if key(s[0]) == v then [s[0]] else []) + WithKey(s[1..], key, v)
  }

  /** Inserts `x` in front of the first element whose key is not smaller. */
  function Insert<T>(x: T, s: seq<T>, key: T -> int): (r: seq<T>)
    ensures |r| == |s| + 1
  {
    if s == [] || key(x) <= key(s[0]) then [x] + s
    else [s[0]] + Insert(x, s[1..], key)
  }

  /** Sorts `s` by ascending `key`, keeping equal keys in their original order. */
  function SortBy<T>(s: seq<T>, key: T -> int): (r: seq<T>)
    ensures multiset(r) == multiset(s)
    ensures SortedBy(r, key)
  {
    if s == [] then []
    else
      var rest := SortBy(s[1..], key);
      InsertSorted(s[0], rest, key);
      assert s == [s[0]] + s[1..];
      Insert(s[0], rest, key)
  }

  /** `Insert` puts `x` at position `p`: everything before `p` has a smaller
      key, and the element after it (if any) a key at least as large. */
  lemma {:induction false} InsertSplit<T>(x: T, s: seq<T>, key: T -> int) returns (p: nat)
    ensures p <= |s| && Insert(x, s, key) == s[..p] + [x] + s[p..]
    ensures forall i :: 0 <= i < p ==> key(s[i]) < key(x)
    ensures p < |s| ==> key(x) <= key(s[p])
  {
    if s == [] || key(x) <= key(s[0]) {
      p := 0;
    } else {
      var q := InsertSplit(x, s[1..], key);
      p := q + 1;
      assert s[..p] == [s[0]] + s[1..][..q];
      assert s[p..] == s[1..][q..];
    }
  }

  lemma InsertSorted<T>(x: T, s: seq<T>, key: T -> int)
    requires SortedBy(s, key)
    ensures multiset(Insert(x, s, key)) == multiset(s) + multiset{x}
    ensures SortedBy(Insert(x, s, key), key)
  {
    var p := InsertSplit(x, s, key);
    assert s == s[..p] + s[p..];
    SplitSorted(x, s, p, key);
  }

  lemma SplitSorted<T>(x: T, s: seq<T>, p: nat, key: T -> int)
    requires SortedBy(s, key) && p <= |s|
    requires forall i :: 0 <= i < p ==> key(s[i]) < key(x)
    requires p < |s| ==> key(x) <= key(s[p])
    ensures SortedBy(s[..p] + [x] + s[p..], key)
  {
    var r := s[..p] + [x] + s[p..];
    forall i, j | 0 <= i < j < |r| ensures key(r[i]) <= key(r[j]) {
      if j < p {
        assert r[i] == s[i] && r[j] == s[j];
      } else if j == p {
        assert r[i] == s[i];
      } else if i == p {
        assert r[j] == s[j - 1];
      } else if i < p {
        assert r[i] == s[i] && r[j] == s[j - 1];
      } else {
        assert r[i] == s[i - 1] && r[j] == s[j - 1];
      }
    }
  }

  lemma {:induction false} WithKeyAppend<T>(a: seq<T>, b: seq<T>, key: T -> int, v: int)
    ensures WithKey(a + b, key, v) == WithKey(a, key, v) + WithKey(b, key, v)
  {
    if a == [] {
      assert a + b == b;
    } else {
      var ab := a + b;
      var head := if key(a[0]) == v then [a[0]] else [];
      assert ab[0] == a[0] && ab[1..] == a[1..] + b;
      assert WithKey(ab, key, v) == head + WithKey(a[1..] + b, key, v);
      WithKeyAppend(a[1..], b, key, v);
      assert WithKey(a, key, v) == head + WithKey(a[1..], key, v);
    }
  }

  /** Inserting `x` adds it in front of the elements with its key. */
  lemma {:induction false} InsertWithKey<T>(x: T, s: seq<T>, key: T -> int, v: int)
    ensures WithKey(Insert(x, s, key), key, v) == WithKey([x], key, v) + WithKey(s, key, v)
  {
    if s == [] || key(x) <= key(s[0]) {
      WithKeyAppend([x], s, key, v);
    } else {
      var ins := Insert(x, s[1..], key);
      InsertWithKey(x, s[1..], key, v);
      WithKeyAppend([s[0]], ins, key, v);
      WithKeyAppend([s[0]], s[1..], key, v);
      assert s == [s[0]] + s[1..];
      assert WithKey([x], key, v) == [] || WithKey([s[0]], key, v) == [];
    }
  }

  /** Stability: for every key value, the elements carrying it appear in the
      sorted sequence in exactly the order they had in the input. */
  lemma {:induction false} SortByStable<T>(s: seq<T>, key: T -> int, v: int)
    ensures WithKey(SortBy(s, key), key, v) == WithKey(s, key, v)
  {
    if s != [] {
      SortByStable(s[1..], key, v);
      InsertWithKey(s[0], SortBy(s[1..], key), key, v);
      assert s == [s[0]] + s[1..];
      WithKeyAppend([s[0]], s[1..], key, v);
    }
  }

  /** Among elements with equal `key`, `second` never decreases. */
  ghost predicate TiesSortedBy<T>(s: seq<T>, key: T -> int, second: T -> int) {
    forall i, j :: 0 <= i < j < |s| && key(s[i]) == key(s[j]) ==> second(s[i]) <= second(s[j])
  }

  lemma InsertTies<T>(x: T, s: seq<T>, key: T -> int, second: T -> int)
    requires TiesSortedBy(s, key, second)
    requires forall i :: 0 <= i < |s| ==> second(x) <= second(s[i])
    ensures TiesSortedBy(Insert(x, s, key), key, second)
  {
    var p := InsertSplit(x, s, key);
    SplitTies(x, s, p, key, second);
  }

  lemma SplitTies<T>(x: T, s: seq<T>, p: nat, key: T -> int, second: T -> int)
    requires TiesSortedBy(s, key, second) && p <= |s|
    requires forall i :: 0 <= i < |s| ==> second(x) <= second(s[i])
    requires forall i :: 0 <= i < p ==> key(s[i]) < key(x)
    ensures TiesSortedBy(s[..p] + [x] + s[p..], key, second)
  {
    var r := s[..p] + [x] + s[p..];
    forall i, j | 0 <= i < j < |r| && key(r[i]) == key(r[j]) ensures second(r[i]) <= second(r[j]) {
      if j < p {
        assert r[i] == s[i] && r[j] == s[j];
      } else if i == p {
        assert r[j] == s[j - 1];
      } else if i < p {
        assert r[i] == s[i];
        assert j != p;
        assert r[j] == s[j - 1];
      } else if i > p {
        assert r[i] == s[i - 1] && r[j] == s[j - 1];
      }
    }
  }

  /** If the input is already ordered by `second`, sorting by `key` leaves
      elements with equal `key` ordered by `second`. */
  lemma {:induction false} SortByKeepsTieOrder<T>(s: seq<T>, key: T -> int, second: T -> int)
    requires SortedBy(s, second)
    ensures TiesSortedBy(SortBy(s, key), key, second)
  {
    if s != [] {
      var rest := SortBy(s[1..], key);
      SortByKeepsTieOrder(s[1..], key, second);
      forall i | 0 <= i < |rest| ensures second(s[0]) <= second(rest[i]) {
        assert rest[i] in multiset(rest);
        assert rest[i] in multiset(s[1..]);
        var k :| 0 <= k < |s[1..]| && s[1..][k] == rest[i];
        assert s[k + 1] == rest[i];
      }
      InsertTies(s[0], rest, key, second);
    }
  }

  lemma {:induction false} WithKeyHas<T>(s: seq<T>, key: T -> int, i: int)
    requires 0 <= i < |s|
    ensures WithKey(s, key, key(s[i])) != []
  {
    if i > 0 {
      WithKeyHas(s[1..], key, i - 1);
    }
  }

  lemma {:induction false} WithKeyFrom<T>(s: seq<T>, key: T -> int, v: int) returns (i: int)
    requires WithKey(s, key, v) != []
    ensures 0 <= i < |s| && key(s[i]) == v && WithKey(s, key, v)[0] == s[i]
  {
    if key(s[0]) == v {
      i := 0;
    } else {
      var k := WithKeyFrom(s[1..], key, v);
      i := k + 1;
    }
  }

  /** Two sorted sequences with the same elements per key start alike. */
  lemma SortedSameHead<T>(r1: seq<T>, r2: seq<T>, key: T -> int)
    requires r1 != [] && r2 != []
    requires SortedBy(r1, key) && SortedBy(r2, key)
    requires forall v :: WithKey(r1, key, v) == WithKey(r2, key, v)
    ensures r1[0] == r2[0]
  {
    var m1, m2 := key(r1[0]), key(r2[0]);
    WithKeyHas(r1, key, 0);
    assert WithKey(r2, key, m1) != [];
    var j2 := WithKeyFrom(r2, key, m1);
    WithKeyHas(r2, key, 0);
    assert WithKey(r1, key, m2) != [];
    var j1 := WithKeyFrom(r1, key, m2);
    assert m1 == m2;
    assert WithKey(r1, key, m1)[0] == r1[0];
  }

  /** Dropping the same first element keeps the elements per key equal. */
  lemma SameTailKeys<T>(r1: seq<T>, r2: seq<T>, key: T -> int)
    requires r1 != [] && r2 != [] && r1[0] == r2[0]
    requires forall v :: WithKey(r1, key, v) == WithKey(r2, key, v)
    ensures forall v :: WithKey(r1[1..], key, v) == WithKey(r2[1..], key, v)
  {
    forall v ensures WithKey(r1[1..], key, v) == WithKey(r2[1..], key, v) {
      var head := if key(r1[0]) == v then [r1[0]] else [];
      var t1, t2 := WithKey(r1[1..], key, v), WithKey(r2[1..], key, v);
      assert WithKey(r1, key, v) == head + t1;
      assert WithKey(r2, key, v) == head + t2;
      assert t1 == (head + t1)[|head|..];
      assert t2 == (head + t2)[|head|..];
    }
  }

  /** Two sequences sorted by `key` that agree, for every key value, on the
      elements carrying it and on their order, are equal. */
  lemma {:induction false} SortedUnique<T>(r1: seq<T>, r2: seq<T>, key: T -> int)
    requires SortedBy(r1, key) && SortedBy(r2, key)
    requires forall v :: WithKey(r1, key, v) == WithKey(r2, key, v)
    ensures r1 == r2
  {
    if r1 == [] {
      if r2 != [] {
        WithKeyHas(r2, key, 0);
      }
    } else if r2 == [] {
      WithKeyHas(r1, key, 0);
    } else {
      SortedSameHead(r1, r2, key);
      SameTailKeys(r1, r2, key);
      SortedUnique(r1[1..], r2[1..], key);
    }
  }

  /** Every stable sort by `key` computes `SortBy`: a sequence sorted by `key`
      that keeps, for every key value, the input's elements with that key in
      the input's order is exactly `SortBy(s, key)`. */
  lemma StableSortIsUnique<T>(s: seq<T>, r: seq<T>, key: T -> int)
    requires SortedBy(r, key)
    requires forall v :: WithKey(r, key, v) == WithKey(s, key, v)
    ensures r == SortBy(s, key)
  {
    forall v ensures WithKey(r, key, v) == WithKey(SortBy(s, key), key, v) {
      SortByStable(s, key, v);
    }
    SortedUnique(r, SortBy(s, key), key);
  }
}
