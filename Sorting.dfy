/**
 * Stable descending sort (Python's `sorted(..., key=..., reverse=True)`,
 * which keeps equal elements in their input order) and top-k index
 * selection (numpy's `argsort()[-k:][::-1]`).
 */
module Sorting {

  function Min(a: int, b: int): int { if a <= b then a else b }

  /** Non-increasing under `key`. */
  predicate SortedDesc<T>(s: seq<T>, key: T -> real)
  {
    forall i, j :: 0 <= i < j < |s| ==> key(s[i]) >= key(s[j])
  }

  /** The elements of `s` whose key is `v`, in the order `s` has them. */
  function WithKey<T>(s: seq<T>, key: T -> real, v: real): seq<T>
  {
    if s == [] then []
    else (if key(s[0]) == v then [s[0]] else []) + WithKey(s[1..], key, v)
  }

  /** Places `x` in front of the first element whose key is not larger. */
  function Insert<T>(x: T, s: seq<T>, key: T -> real): (r: seq<T>)
    ensures |r| == |s| + 1
    ensures multiset(r) == multiset(s) + multiset{x}
    ensures forall i :: 0 <= i < |r| ==> r[i] == x || r[i] in s
  {
    if s == [] || key(s[0]) <= key(x) then [x] + s
    else
      assert s == [s[0]] + s[1..];
      [s[0]] + Insert(x, s[1..], key)
  }

  lemma {:induction false} InsertSorted<T>(x: T, s: seq<T>, key: T -> real)
    requires SortedDesc(s, key)
    ensures SortedDesc(Insert(x, s, key), key)
  {
    if s == [] || key(s[0]) <= key(x) {
      ConsSorted(x, s, key);
    } else {
      var t := s[1..];
      InsertSorted(x, t, key);
      var rest := Insert(x, t, key);
      forall k | 0 <= k < |rest| ensures key(rest[k]) <= key(s[0]) {
        if rest[k] != x {
          var j :| 0 <= j < |t| && t[j] == rest[k];
          assert s[j + 1] == t[j];
        }
      }
      ConsSorted(s[0], rest, key);
    }
  }

  /** A head whose key bounds every key of a sorted tail keeps it sorted. */
  lemma ConsSorted<T>(h: T, t: seq<T>, key: T -> real)
    requires SortedDesc(t, key)
    requires forall k :: 0 <= k < |t| ==> key(t[k]) <= key(h)
    ensures SortedDesc([h] + t, key)
  {
    var r := [h] + t;
    forall i, j | 0 <= i < j < |r| ensures key(r[i]) >= key(r[j]) {
      assert r[j] == t[j - 1];
      if i > 0 { assert r[i] == t[i - 1]; }
    }
  }

  /** Stable sort into non-increasing key order (insertion sort). */
  function SortDesc<T>(s: seq<T>, key: T -> real): (r: seq<T>)
    ensures |r| == |s|
    ensures multiset(r) == multiset(s)
    ensures SortedDesc(r, key)
  {
    if s == [] then []
    else
      assert s == [s[0]] + s[1..];
      var sorted := SortDesc(s[1..], key);
      InsertSorted(s[0], sorted, key);
      Insert(s[0], sorted, key)
  }

  lemma {:induction false} InsertWithKey<T>(x: T, s: seq<T>, key: T -> real, v: real)
    requires SortedDesc(s, key)
    ensures WithKey(Insert(x, s, key), key, v)
            == (if key(x) == v then [x] else []) + WithKey(s, key, v)
  {
    var hx := if key(x) == v then [x] else [];
    if s == [] || key(s[0]) <= key(x) {
      var r := [x] + s;
      assert Insert(x, s, key) == r;
      assert r[1..] == s;
      assert WithKey(r, key, v) == hx + WithKey(s, key, v);
    } else {
      var rest := Insert(x, s[1..], key);
      var r := [s[0]] + rest;
      assert Insert(x, s, key) == r;
      InsertWithKey(x, s[1..], key, v);
      assert r[1..] == rest;
      var h0 := if key(s[0]) == v then [s[0]] else [];
      assert WithKey(r, key, v) == h0 + WithKey(rest, key, v);
      assert WithKey(s, key, v) == h0 + WithKey(s[1..], key, v);
      var w := WithKey(s[1..], key, v);
      if hx == [] {
        assert hx + w == w && hx + (h0 + w) == h0 + w;
      } else {
        assert h0 == [];
        assert h0 + (hx + w) == hx + w && h0 + w == w;
      }
    }
  }

  /** Stability: among equal keys the output keeps the input order. */
  lemma {:induction false} SortDescStable<T>(s: seq<T>, key: T -> real, v: real)
    ensures WithKey(SortDesc(s, key), key, v) == WithKey(s, key, v)
  {
    if s != [] {
      SortDescStable(s[1..], key, v);
      InsertWithKey(s[0], SortDesc(s[1..], key), key, v);
    }
  }

  /** A sequence that is already in order comes back unchanged. */
  lemma {:induction false} SortDescOfSorted<T>(s: seq<T>, key: T -> real)
    requires SortedDesc(s, key)
    ensures SortDesc(s, key) == s
  {
    if s != [] {
      SortDescOfSorted(s[1..], key);
      assert s == [s[0]] + s[1..];
    }
  }

  /** Sorting commutes with a map `f` that the key factors through. */
  lemma {:induction false} SortDescMap<T, U>(s: seq<T>, key: T -> real, f: T -> U, key': U -> real)
    requires forall x :: key'(f(x)) == key(x)
    ensures MapSeq(SortDesc(s, key), f) == SortDesc(MapSeq(s, f), key')
  {
    if s != [] {
      SortDescMap(s[1..], key, f, key');
      assert MapSeq(s, f)[1..] == MapSeq(s[1..], f);
      InsertMap(s[0], SortDesc(s[1..], key), key, f, key');
    }
  }

  lemma {:induction false} InsertMap<T, U>(x: T, s: seq<T>, key: T -> real, f: T -> U, key': U -> real)
    requires forall y :: key'(f(y)) == key(y)
    ensures MapSeq(Insert(x, s, key), f) == Insert(f(x), MapSeq(s, f), key')
  {
    var fs := MapSeq(s, f);
    assert key'(f(x)) == key(x);
    if s != [] {
      assert key'(fs[0]) == key(s[0]);
    }
    if s == [] || key(s[0]) <= key(x) {
      MapSeqCons(x, s, f);
    } else {
      var rest := Insert(x, s[1..], key);
      InsertMap(x, s[1..], key, f, key');
      MapSeqCons(s[0], rest, f);
      assert fs[1..] == MapSeq(s[1..], f);
    }
  }

  function MapSeq<T, U>(s: seq<T>, f: T -> U): (r: seq<U>)
    ensures |r| == |s| && forall i :: 0 <= i < |s| ==> r[i] == f(s[i])
  {
    seq(|s|, i requires 0 <= i < |s| => f(s[i]))
  }

  lemma MapSeqCons<T, U>(x: T, s: seq<T>, f: T -> U)
    ensures MapSeq([x] + s, f) == [f(x)] + MapSeq(s, f)
  {
    var l := MapSeq([x] + s, f);
    forall i | 0 < i < |l| ensures l[i] == MapSeq(s, f)[i - 1] {
      assert ([x] + s)[i] == s[i - 1];
    }
  }

  lemma MapSeqSnoc<T, U>(s: seq<T>, f: T -> U, i: nat)
    requires i < |s|
    ensures MapSeq(s[..i + 1], f) == MapSeq(s[..i], f) + [f(s[i])]
  {
  }

  /**
   * `idx` lists `min(k, |row|)` distinct positions of `row` in non-increasing
   * order of their values, no position left out has a larger value than
   * one taken, and a position is left out only when there are more than
   * `k` and `k` were taken: "some
   * k largest", whatever order ties come in.
   */
  ghost predicate IsTopIndices(row: seq<real>, idx: seq<nat>, k: nat)
  {
    && |idx| == Min(k, |row|)
    && (forall p :: 0 <= p < |idx| ==> idx[p] < |row|)
    && (forall p, q :: 0 <= p < q < |idx| ==> idx[p] != idx[q])
    && (forall p, q :: 0 <= p < q < |idx| ==> row[idx[p]] >= row[idx[q]])
    && (forall p, j :: 0 <= p < |idx| && 0 <= j < |row| && j !in idx ==> row[j] <= row[idx[p]])
    && (forall j :: 0 <= j < |row| && j !in idx ==> |idx| == k < |row|)
  }

  function Range(n: nat): (r: seq<nat>)
    ensures |r| == n && forall i :: 0 <= i < n ==> r[i] == i
  {
    seq(n, i requires 0 <= i < n => i)
  }

  predicate Distinct<T(==)>(s: seq<T>)
  {
    forall i, j :: 0 <= i < j < |s| ==> s[i] != s[j]
  }

  lemma {:induction false} InsertDistinct<T>(x: T, s: seq<T>, key: T -> real)
    requires Distinct(s) && x !in s
    ensures Distinct(Insert(x, s, key))
  {
    if !(s == [] || key(s[0]) <= key(x)) {
      InsertDistinct(x, s[1..], key);
      var rest := Insert(x, s[1..], key);
      assert s[0] !in s[1..] by {
        forall j | 0 <= j < |s[1..]| ensures s[1..][j] != s[0] { assert s[j + 1] == s[1..][j]; }
      }
      assert forall k :: 0 <= k < |rest| ==> rest[k] != s[0];
      var r := [s[0]] + rest;
      forall i, j | 0 <= i < j < |r| ensures r[i] != r[j] {
        if i == 0 { assert r[j] == rest[j - 1] && rest[j - 1] in rest; }
        else { assert r[i] == rest[i - 1] && r[j] == rest[j - 1]; }
      }
    }
  }

  lemma {:induction false} SortDescDistinct<T>(s: seq<T>, key: T -> real)
    requires Distinct(s)
    ensures Distinct(SortDesc(s, key))
  {
    if s != [] {
      assert Distinct(s[1..]) by {
        forall i, j | 0 <= i < j < |s[1..]| ensures s[1..][i] != s[1..][j] {
          assert s[1..][i] == s[i + 1] && s[1..][j] == s[j + 1];
        }
      }
      SortDescDistinct(s[1..], key);
      var sorted := SortDesc(s[1..], key);
      assert s[0] !in s[1..] by {
        forall j | 0 <= j < |s[1..]| ensures s[1..][j] != s[0] { assert s[j + 1] == s[1..][j]; }
      }
      assert s[0] !in multiset(s[1..]);
      assert s[0] !in sorted;
      InsertDistinct(s[0], sorted, key);
    }
  }

  /** The positions of the `k` largest values of `row`, largest first. */
  function ArgTop(row: seq<real>, k: nat): (idx: seq<nat>)
    ensures IsTopIndices(row, idx, k)
  {
    ArgTopIsTop(row, k);
    SortDesc<nat>(Range(|row|), PositionKey(row))[..Min(k, |row|)]
  }

  /** Orders positions of `row` by the value found there. */
  function PositionKey(row: seq<real>): nat -> real
  {
    (i: nat) => if i < |row| then row[i] else 0.0
  }

  lemma ArgTopIsTop(row: seq<real>, k: nat)
    ensures IsTopIndices(row, SortDesc<nat>(Range(|row|), PositionKey(row))[..Min(k, |row|)], k)
  {
    var order := SortDesc<nat>(Range(|row|), PositionKey(row));
    assert Distinct(Range(|row|));
    SortDescDistinct<nat>(Range(|row|), PositionKey(row));
    PrefixOfSortedPositions(row, order, k);
  }

  /** A prefix of all positions sorted by value is a top selection. */
  lemma PrefixOfSortedPositions(row: seq<real>, order: seq<nat>, k: nat)
    requires multiset(order) == multiset(Range(|row|))
    requires Distinct(order) && SortedDesc(order, PositionKey(row))
    ensures |order| == |row|
    ensures IsTopIndices(row, order[..Min(k, |row|)], k)
  {
    SortedPositionsInRange(row, order);
    var m := Min(k, |row|);
    PrefixDescending(row, order, m);
    PrefixLeftOut(row, order, m);
    assert forall j :: 0 <= j < |row| && j !in order[..m] ==> m < |row| && m == k;
  }

  /** A reordering of all positions of `row` holds positions of `row` only. */
  lemma SortedPositionsInRange(row: seq<real>, order: seq<nat>)
    requires multiset(order) == multiset(Range(|row|))
    ensures |order| == |row|
    ensures forall p :: 0 <= p < |order| ==> order[p] < |row|
  {
    assert |multiset(order)| == |multiset(Range(|row|))|;
    forall p | 0 <= p < |order| ensures order[p] < |row| {
      assert order[p] in multiset(Range(|row|));
    }
  }

  lemma PrefixDescending(row: seq<real>, order: seq<nat>, m: nat)
    requires forall p :: 0 <= p < |order| ==> order[p] < |row|
    requires SortedDesc(order, PositionKey(row)) && m <= |order|
    ensures forall p, q :: 0 <= p < q < m ==> row[order[p]] >= row[order[q]]
  {
    var key := PositionKey(row);
    forall p, q | 0 <= p < q < m ensures row[order[p]] >= row[order[q]] {
      assert key(order[p]) >= key(order[q]);
    }
  }

  /**
   * A position left out of the first `m` sorted positions exists only when
   * `m` is short of all positions, and its value is at most every value kept.
   */
  lemma PrefixLeftOut(row: seq<real>, order: seq<nat>, m: nat)
    requires multiset(order) == multiset(Range(|row|)) && |order| == |row|
    requires forall p :: 0 <= p < |order| ==> order[p] < |row|
    requires SortedDesc(order, PositionKey(row)) && m <= |order|
    ensures forall j :: 0 <= j < |row| && j !in order[..m] ==> m < |row|
    ensures forall p, j :: 0 <= p < m && 0 <= j < |row| && j !in order[..m] ==> row[j] <= row[order[p]]
  {
    var key := PositionKey(row);
    forall j | 0 <= j < |row| && j !in order[..m] ensures m < |row| {
      var q := LeftOutPosition(row, order, m, j);
    }
    forall p, j | 0 <= p < m && 0 <= j < |row| && j !in order[..m] ensures row[j] <= row[order[p]] {
      var q := LeftOutPosition(row, order, m, j);
      assert key(order[p]) >= key(order[q]);
    }
  }

  /** A position missing from the first `m` of the reordering sits after them. */
  lemma LeftOutPosition(row: seq<real>, order: seq<nat>, m: nat, j: nat) returns (q: nat)
    requires multiset(order) == multiset(Range(|row|)) && j < |row|
    requires m <= |order| && j !in order[..m]
    ensures m <= q < |order| && order[q] == j
  {
    q := PositionOf(row, order, j);
    assert forall t :: 0 <= t < m ==> order[..m][t] == order[t];
  }

  /** Where position `j` of `row` sits in a reordering of all positions. */
  lemma PositionOf(row: seq<real>, order: seq<nat>, j: nat) returns (q: nat)
    requires multiset(order) == multiset(Range(|row|)) && j < |row|
    ensures q < |order| && order[q] == j
  {
    assert Range(|row|)[j] == j;
    assert j in multiset(order);
    q :| 0 <= q < |order| && order[q] == j;
  }
}
