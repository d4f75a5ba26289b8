/**
 * Sequence helpers shared by the tables and the reports: LIMIT/slice, a stable sort by an
 * integer key (the model of ORDER BY and of JavaScript's stable Array.prototype.sort),
 * subsequences, and the serial-key discipline of the tables.
 */
module Seqs {
  import opened Wrappers

  /** The first `n` elements of `s`, or all of `s` when it is shorter (`LIMIT n`, `slice(0, n)`). */
  function Take<T>(s: seq<T>, n: nat): (r: seq<T>)
    ensures |r| <= n && |r| <= |s|
    ensures |r| == n || |r| == |s|
    ensures r == s[..|r|]
  {
    if |s| <= n then s else s[..n]
  }

  /** `a` is obtained from `b` by deleting elements, the survivors keeping their order. */
  ghost predicate IsSubsequence<T>(a: seq<T>, b: seq<T>)
    decreases |b|
  {
    a == [] || (b != [] && ((a[0] == b[0] && IsSubsequence(a[1..], b[1..])) || IsSubsequence(a, b[1..])))
  }

  /** Every element of a subsequence occurs in the sequence it was taken from. */
  lemma {:induction false} SubsequenceMembers<T>(a: seq<T>, b: seq<T>)
    requires IsSubsequence(a, b)
    ensures forall x :: x in a ==> x in b
    decreases |b|
  {
    if a != [] {
      if a[0] == b[0] && IsSubsequence(a[1..], b[1..]) {
        SubsequenceMembers(a[1..], b[1..]);
        forall x | x in a ensures x in b {
          if x != a[0] {
            assert x in a[1..];
          }
        }
      } else {
        SubsequenceMembers(a, b[1..]);
      }
    }
  }

  /** The elements of `s` that satisfy `p`, in order (`WHERE`, `Array.prototype.filter`). */
  function Filter<T(!new)>(s: seq<T>, p: T -> bool): (r: seq<T>)
    ensures |r| <= |s|
    ensures forall x :: x in r <==> x in s && p(x)
    ensures forall x :: multiset(r)[x] == if p(x) then multiset(s)[x] else 0
    ensures IsSubsequence(r, s)
  {
    if s == [] then []
    else
      var rest := Filter(s[1..], p);
      assert s == [s[0]] + s[1..];
      if p(s[0]) then
        assert ([s[0]] + rest)[0] == s[0] && ([s[0]] + rest)[1..] == rest;
        [s[0]] + rest
      else
        rest
  }

  /** The sum of `f` over `s`. */
  function SumBy<T>(s: seq<T>, f: T -> int): int
  {
    if s == [] then 0 else f(s[0]) + SumBy(s[1..], f)
  }

  /** `MAX` over a nullable column: the largest non-null value, NULL when every value is NULL. */
  function MaxOf<T(!new)>(s: seq<T>, f: T -> Option<int>): (r: Option<int>)
    ensures r.None? <==> forall x :: x in s ==> f(x).None?
    ensures r.Some? ==> exists x :: x in s && f(x) == r
    ensures r.Some? ==> forall x :: x in s && f(x).Some? ==> f(x).value <= r.value
  {
    if s == [] then None
    else
      var rest := MaxOf(s[1..], f);
      assert s == [s[0]] + s[1..];
      assert forall x :: x in s <==> x == s[0] || x in s[1..];
      match f(s[0])
      case None => rest
      case Some(v) => if rest.Some? && rest.value > v then rest else Some(v)
  }

  // ---------------------------------------------------------------------------------------
  // Stable sort by an integer key
  // ---------------------------------------------------------------------------------------

  /** Non-decreasing by `key`. */
  ghost predicate SortedBy<T>(s: seq<T>, key: T -> int) {
    forall i, j :: 0 <= i < j < |s| ==> key(s[i]) <= key(s[j])
  }

  /** The elements of `s` whose key is `k`, in their order in `s`. */
  ghost function WithKey<T>(s: seq<T>, key: T -> int, k: int): seq<T>
  {
    if s == [] then []
    else (if key(s[0]) == k then [s[0]] else []) + WithKey(s[1..], key, k)
  }

  /** Inserts `x` before the first element whose key is not smaller than its own. */
  function InsertByKey<T>(x: T, s: seq<T>, key: T -> int): (r: seq<T>)
    ensures |r| == |s| + 1
  {
    if s == [] || key(x) <= key(s[0]) then [x] + s
    else [s[0]] + InsertByKey(x, s[1..], key)
  }

  lemma {:induction false} InsertByKeyPermutes<T>(x: T, s: seq<T>, key: T -> int)
    ensures multiset(InsertByKey(x, s, key)) == multiset(s) + multiset{x}
  {
    if s != [] && key(x) > key(s[0]) {
      InsertByKeyPermutes(x, s[1..], key);
      assert s == [s[0]] + s[1..];
    }
  }

  lemma {:induction false} InsertByKeySorted<T>(x: T, s: seq<T>, key: T -> int)
    requires SortedBy(s, key)
    ensures SortedBy(InsertByKey(x, s, key), key)
  {
    if s != [] && key(x) > key(s[0]) {
      InsertByKeySorted(x, s[1..], key);
      InsertByKeyPermutes(x, s[1..], key);
      var rest := InsertByKey(x, s[1..], key);
      forall y | y in rest ensures key(s[0]) <= key(y) {
        assert y in multiset(rest);
        if y != x {
          assert y in multiset(s[1..]);
        }
      }
    }
  }

  lemma {:induction false} InsertByKeyWithKey<T>(x: T, s: seq<T>, key: T -> int, k: int)
    ensures WithKey(InsertByKey(x, s, key), key, k) == (if key(x) == k then [x] else []) + WithKey(s, key, k)
  {
    var here: seq<T> := if key(x) == k then [x] else [];
    if s == [] || key(x) <= key(s[0]) {
      var r := [x] + s;
      assert r[0] == x && r[1..] == s;
      assert WithKey(r, key, k) == here + WithKey(s, key, k);
    } else {
      var rest := InsertByKey(x, s[1..], key);
      var r := [s[0]] + rest;
      var first: seq<T> := if key(s[0]) == k then [s[0]] else [];
      InsertByKeyWithKey(x, s[1..], key, k);
      assert r[0] == s[0] && r[1..] == rest;
      assert WithKey(r, key, k) == first + WithKey(rest, key, k);
      assert WithKey(s, key, k) == first + WithKey(s[1..], key, k);
      if key(x) == k {
        assert first == [];
      } else {
        assert here == [];
      }
    }
  }

  /**
   * Stable insertion sort, ascending by `key`: the result is ordered by key, holds the same
   * elements, and elements with equal keys keep their relative order.
   */
  function SortByKey<T>(s: seq<T>, key: T -> int): (r: seq<T>)
    ensures |r| == |s|
    ensures multiset(r) == multiset(s)
    ensures SortedBy(r, key)
    ensures forall k :: WithKey(r, key, k) == WithKey(s, key, k)
  {
    if s == [] then []
    else
      var rest := SortByKey(s[1..], key);
      InsertByKeyPermutes(s[0], rest, key);
      InsertByKeySorted(s[0], rest, key);
      assert s == [s[0]] + s[1..];
      assert forall k :: WithKey(InsertByKey(s[0], rest, key), key, k) == WithKey(s, key, k) by {
        forall k ensures WithKey(InsertByKey(s[0], rest, key), key, k) == WithKey(s, key, k) {
          InsertByKeyWithKey(s[0], rest, key, k);
        }
      }
      InsertByKey(s[0], rest, key)
  }

  /** A sequence that is already in key order is left as it is by the stable sort. */
  lemma {:induction false} SortByKeyOfSorted<T>(s: seq<T>, key: T -> int)
    requires SortedBy(s, key)
    ensures SortByKey(s, key) == s
  {
    if s != [] {
      SortByKeyOfSorted(s[1..], key);
      assert SortByKey(s[1..], key) == s[1..];
      assert s[1..] == [] || key(s[0]) <= key(s[1..][0]);
      assert s == [s[0]] + s[1..];
    }
  }

  /**
   * The first `n` rows of a key-ordered sequence are the smallest: every row left out has a
   * key at least as large as every row kept.
   */
  lemma TakeOfSortedIsSmallest<T>(s: seq<T>, key: T -> int, n: nat)
    requires SortedBy(s, key)
    ensures forall x, y :: x in s && x !in Take(s, n) && y in Take(s, n) ==> key(y) <= key(x)
  {
    var t := Take(s, n);
    forall x, y | x in s && x !in t && y in t ensures key(y) <= key(x) {
      var j :| 0 <= j < |s| && s[j] == x;
      var i :| 0 <= i < |t| && t[i] == y;
      assert forall m :: 0 <= m < |t| ==> t[m] == s[m];
      assert i < j;
    }
  }

  /**
   * `ORDER BY v DESC` in PostgreSQL, whose default for DESC is NULLS FIRST: the rows whose value
   * is NULL, then the others by non-increasing value. SQL leaves the order of ties open; this
   * model keeps them in input order.
   */
  function DescNullsFirst<T(!new)>(s: seq<T>, val: T -> Option<int>): (r: seq<T>)
  {
    Filter(s, x => val(x).None?) + SortByKey(Filter(s, x => val(x).Some?), x => -val(x).GetOr(0))
  }

  /** Nulls first, then non-increasing values; the rows are those of `s`, each as often. */
  lemma DescNullsFirstOrders<T(!new)>(s: seq<T>, val: T -> Option<int>)
    ensures |DescNullsFirst(s, val)| == |s|
    ensures multiset(DescNullsFirst(s, val)) == multiset(s)
    ensures NullsFirstDescending(DescNullsFirst(s, val), val)
  {
    var nulls := Filter(s, x => val(x).None?);
    var present := Filter(s, x => val(x).Some?);
    var values := SortByKey(present, x => -val(x).GetOr(0));
    var r := nulls + values;
    assert r == DescNullsFirst(s, val);
    forall x ensures multiset(r)[x] == multiset(s)[x] {
      assert multiset(r)[x] == multiset(nulls)[x] + multiset(values)[x];
    }
    assert multiset(r) == multiset(s);
    assert |r| == |multiset(r)| == |multiset(s)| == |s|;
    forall x | x in values ensures val(x).Some? {
      assert x in multiset(values);
      assert x in multiset(present);
    }
    ConcatNullsFirst(nulls, values, val);
  }

  ghost predicate NullsFirstDescending<T>(r: seq<T>, val: T -> Option<int>) {
    && (forall i, j :: 0 <= i < j < |r| && val(r[j]).None? ==> val(r[i]).None?)
    && (forall i, j :: 0 <= i < j < |r| && val(r[i]).Some? && val(r[j]).Some? ==>
          val(r[j]).value <= val(r[i]).value)
  }

  lemma ConcatNullsFirst<T>(nulls: seq<T>, values: seq<T>, val: T -> Option<int>)
    requires forall x :: x in nulls ==> val(x).None?
    requires forall x :: x in values ==> val(x).Some?
    requires SortedBy(values, x => -val(x).GetOr(0))
    ensures NullsFirstDescending(nulls + values, val)
  {
    var r := nulls + values;
    assert forall m :: 0 <= m < |nulls| ==> r[m] == nulls[m] && nulls[m] in nulls;
    assert forall m :: |nulls| <= m < |r| ==> r[m] == values[m - |nulls|] && values[m - |nulls|] in values;
  }

  /**
   * The first `n` rows of a NULLS FIRST descending order are the latest: a row left out is
   * NULL only if every kept row is, and a kept value is at least every value left out.
   */
  lemma TakeOfNullsFirstIsLatest<T>(s: seq<T>, val: T -> Option<int>, n: nat)
    requires NullsFirstDescending(s, val)
    ensures forall x, y :: x in s && x !in Take(s, n) && y in Take(s, n) && val(x).None? ==> val(y).None?
    ensures forall x, y :: x in s && x !in Take(s, n) && y in Take(s, n) && val(x).Some? && val(y).Some? ==>
              val(x).value <= val(y).value
  {
    var t := Take(s, n);
    forall x, y | x in s && x !in t && y in t
      ensures (val(x).None? ==> val(y).None?) && (val(x).Some? && val(y).Some? ==> val(x).value <= val(y).value)
    {
      var j :| 0 <= j < |s| && s[j] == x;
      var i :| 0 <= i < |t| && t[i] == y;
      assert forall m :: 0 <= m < |t| ==> t[m] == s[m];
      assert i < j;
    }
  }

  /** A prefix of a NULLS FIRST descending sequence is ordered the same way. */
  lemma TakeKeepsNullsFirst<T>(s: seq<T>, val: T -> Option<int>, n: nat)
    requires NullsFirstDescending(s, val)
    ensures NullsFirstDescending(Take(s, n), val)
  {
    var t := Take(s, n);
    assert forall m :: 0 <= m < |t| ==> t[m] == s[m];
  }

  /** A prefix of a key-ordered sequence is key-ordered. */
  lemma TakeKeepsSorted<T>(s: seq<T>, key: T -> int, n: nat)
    requires SortedBy(s, key)
    ensures SortedBy(Take(s, n), key)
  {
    var t := Take(s, n);
    assert forall m :: 0 <= m < |t| ==> t[m] == s[m];
  }

  // ---------------------------------------------------------------------------------------
  // Serial primary keys
  // ---------------------------------------------------------------------------------------

  /**
   * The rows of a table with a `serial` primary key: every id was handed out by the table's
   * sequence (1 <= id < next), and rows are kept in insertion order, so ids strictly ascend
   * and no two rows share one.
   */
  ghost predicate SerialKeyed<T>(rows: seq<T>, key: T -> nat, next: nat) {
    && (forall i :: 0 <= i < |rows| ==> 1 <= key(rows[i]) < next)
    && (forall i, j :: 0 <= i < j < |rows| ==> key(rows[i]) < key(rows[j]))
  }

  /** The position of the row whose key is `id` (`WHERE id = $1`), if any. */
  function IndexOf<T>(rows: seq<T>, key: T -> nat, id: int): (r: Option<nat>)
    ensures r.Some? ==> r.value < |rows| && key(rows[r.value]) == id
    ensures r.None? ==> forall i :: 0 <= i < |rows| ==> key(rows[i]) != id
  {
    if rows == [] then None
    else if key(rows[0]) == id then Some(0)
    else match IndexOf(rows[1..], key, id)
      case None => None
      case Some(i) => Some(i + 1)
  }

  /** In a serially keyed table the row with a given id is unique. */
  lemma KeyIsUnique<T>(rows: seq<T>, key: T -> nat, next: nat, i: nat, j: nat)
    requires SerialKeyed(rows, key, next)
    requires i < |rows| && j < |rows| && key(rows[i]) == key(rows[j])
    ensures i == j
  {
  }

  /** `s` without its element at position `i`, the others keeping their order (`DELETE ... WHERE id = $1`). */
  function RemoveAt<T>(s: seq<T>, i: nat): (r: seq<T>)
    requires i < |s|
    ensures |r| == |s| - 1
    ensures forall j :: 0 <= j < i ==> r[j] == s[j]
    ensures forall j :: i <= j < |r| ==> r[j] == s[j + 1]
  {
    s[..i] + s[i + 1..]
  }

  /** Appending a row that takes the next serial id keeps the table serially keyed. */
  lemma AppendKeepsSerial<T>(rows: seq<T>, key: T -> nat, next: nat, x: T)
    requires SerialKeyed(rows, key, next)
    requires key(x) == next && next >= 1
    ensures SerialKeyed(rows + [x], key, next + 1)
  {
  }

  /** Deleting a row keeps the table serially keyed. */
  lemma RemoveKeepsSerial<T>(rows: seq<T>, key: T -> nat, next: nat, i: nat)
    requires SerialKeyed(rows, key, next)
    requires i < |rows|
    ensures SerialKeyed(RemoveAt(rows, i), key, next)
  {
    var r := RemoveAt(rows, i);
    forall a, b | 0 <= a < b < |r| ensures key(r[a]) < key(r[b]) {
      var a' := if a < i then a else a + 1;
      var b' := if b < i then b else b + 1;
      assert r[a] == rows[a'] && r[b] == rows[b'];
    }
  }

  /** Replacing a row by one with the same key keeps the table serially keyed. */
  lemma ReplaceKeepsSerial<T>(rows: seq<T>, key: T -> nat, next: nat, i: nat, x: T)
    requires SerialKeyed(rows, key, next)
    requires i < |rows| && key(x) == key(rows[i])
    ensures SerialKeyed(rows[i := x], key, next)
  {
  }

  /** Once the row with some id is deleted, a lookup of that id finds nothing. */
  lemma RemovedKeyIsGone<T>(rows: seq<T>, key: T -> nat, next: nat, i: nat)
    requires SerialKeyed(rows, key, next)
    requires i < |rows|
    ensures IndexOf(RemoveAt(rows, i), key, key(rows[i])).None?
  {
    var r := RemoveAt(rows, i);
    forall j | 0 <= j < |r| ensures key(r[j]) != key(rows[i]) {
      var j' := if j < i then j else j + 1;
      assert r[j] == rows[j'];
    }
  }
}
