/**
 * The in-memory reading of a database table: a sequence of rows in insertion order,
 * whose auto-increment key grows strictly.  A `WHERE` clause is `Filter`, `ORDER BY id
 * DESC` is `Reverse`, `TOP n` and LINQ's `Take(n)` are `Take`.
 */
module Tables {
  import opened Wrappers

  function Reverse<T>(s: seq<T>): (r: seq<T>)
    ensures |r| == |s|
    ensures forall i :: 0 <= i < |s| ==> r[i] == s[|s| - 1 - i]
  {
    if s == [] then [] else Reverse(s[1..]) + [s[0]]
  }

  lemma ReverseMembers<T>(s: seq<T>)
    ensures forall x :: x in Reverse(s) <==> x in s
  {
    forall x | x in s ensures x in Reverse(s) {
      var i :| 0 <= i < |s| && s[i] == x;
      assert Reverse(s)[|s| - 1 - i] == x;
    }
  }

  /** The rows that satisfy `p`, in their original order. */
  function Filter<T>(s: seq<T>, p: T -> bool): (r: seq<T>)
    ensures |r| <= |s|
    ensures forall i :: 0 <= i < |r| ==> r[i] in s && p(r[i])
    ensures forall i :: 0 <= i < |s| && p(s[i]) ==> s[i] in r
  {
    if s == [] then [] else (if p(s[0]) then [s[0]] else []) + Filter(s[1..], p)
  }

  /** A row is selected exactly when it is in the table and satisfies `p`. */
  lemma FilterMembers<T>(s: seq<T>, p: T -> bool)
    ensures forall x :: x in Filter(s, p) <==> x in s && p(x)
  {
    forall x | x in s && p(x) ensures x in Filter(s, p) {
      var i :| 0 <= i < |s| && s[i] == x;
    }
  }

  lemma {:induction false} FilterAppend<T>(a: seq<T>, b: seq<T>, p: T -> bool)
    ensures Filter(a + b, p) == Filter(a, p) + Filter(b, p)
  {
    if a == [] {
      assert a + b == b;
    } else {
      assert (a + b)[1..] == a[1..] + b;
      FilterAppend(a[1..], b, p);
    }
  }

  /** Filtering by a predicate no row satisfies gives nothing; by one all satisfy, everything. */
  lemma {:induction false} FilterNone<T>(s: seq<T>, p: T -> bool)
    requires forall x :: x in s ==> !p(x)
    ensures Filter(s, p) == []
  {
    if s != [] {
      FilterNone(s[1..], p);
    }
  }

  lemma {:induction false} FilterAll<T>(s: seq<T>, p: T -> bool)
    requires forall x :: x in s ==> p(x)
    ensures Filter(s, p) == s
  {
    if s != [] {
      FilterAll(s[1..], p);
    }
  }

  /** `COUNT(*) … > 0`: the selection is non-empty iff some row satisfies `p`. */
  lemma FilterNonEmpty<T>(s: seq<T>, p: T -> bool)
    ensures |Filter(s, p)| > 0 <==> exists i :: 0 <= i < |s| && p(s[i])
  {
    var r := Filter(s, p);
    if |r| > 0 {
      var j :| 0 <= j < |s| && s[j] == r[0];
      assert p(s[j]);
    }
  }

  /** `TOP n` / `Take(n)`: the first `n` rows, all of them when there are fewer, none for n <= 0. */
  function Take<T>(s: seq<T>, n: int): (r: seq<T>)
    ensures |r| == if n <= 0 then 0 else if n < |s| then n else |s|
    ensures r == s[..|r|]
  {
    if n <= 0 then [] else if n < |s| then s[..n] else s
  }

  /** The key grows strictly along the rows, as an auto-increment id does. */
  predicate Increasing<T>(s: seq<T>, key: T -> int) {
    forall i, j :: 0 <= i < j < |s| ==> key(s[i]) < key(s[j])
  }

  predicate Decreasing<T>(s: seq<T>, key: T -> int) {
    forall i, j :: 0 <= i < j < |s| ==> key(s[i]) > key(s[j])
  }

  /** A strictly growing key identifies its row. */
  lemma IncreasingUnique<T>(s: seq<T>, key: T -> int, i: int, j: int)
    requires Increasing(s, key)
    requires 0 <= i < |s| && 0 <= j < |s| && key(s[i]) == key(s[j])
    ensures i == j
  {
  }

  /** Selecting rows keeps them in key order. */
  lemma {:induction false} FilterIncreasing<T>(s: seq<T>, p: T -> bool, key: T -> int)
    requires Increasing(s, key)
    ensures Increasing(Filter(s, p), key)
  {
    if s != [] {
      FilterIncreasing(s[1..], p, key);
      var f := Filter(s[1..], p);
      forall x | x in f ensures key(s[0]) < key(x) {
        var k :| 0 <= k < |s[1..]| && s[1..][k] == x;
        assert s[k + 1] == x;
      }
    }
  }

  /** Selecting rows keeps them in reverse key order too. */
  lemma {:induction false} FilterDecreasing<T>(s: seq<T>, p: T -> bool, key: T -> int)
    requires Decreasing(s, key)
    ensures Decreasing(Filter(s, p), key)
  {
    if s != [] {
      FilterDecreasing(s[1..], p, key);
      var f := Filter(s[1..], p);
      forall x | x in f ensures key(s[0]) > key(x) {
        var k :| 0 <= k < |s[1..]| && s[1..][k] == x;
        assert s[k + 1] == x;
      }
    }
  }

  lemma ReverseIncreasing<T>(s: seq<T>, key: T -> int)
    requires Increasing(s, key)
    ensures Decreasing(Reverse(s), key)
  {
  }

  /** No row appears twice. */
  predicate Distinct<T(==)>(s: seq<T>) {
    forall i, j :: 0 <= i < j < |s| ==> s[i] != s[j]
  }

  /** Selecting from rows without repeats gives rows without repeats. */
  lemma {:induction false} FilterDistinct<T>(s: seq<T>, p: T -> bool)
    requires Distinct(s)
    ensures Distinct(Filter(s, p))
  {
    if s != [] {
      FilterDistinct(s[1..], p);
      var f := Filter(s[1..], p);
      assert forall j :: 0 <= j < |s[1..]| ==> s[1..][j] != s[0];
    }
  }

  /** Rows in strictly decreasing key order are pairwise different. */
  lemma DecreasingDistinct<T>(s: seq<T>, key: T -> int)
    requires Decreasing(s, key)
    ensures Distinct(s)
  {
  }

  /** `WHERE p ORDER BY id DESC` on a table kept in id order. */
  function SelectDesc<T>(s: seq<T>, p: T -> bool): (r: seq<T>)
    ensures |r| <= |s|
    ensures forall i :: 0 <= i < |r| ==> r[i] in s && p(r[i])
    ensures forall i :: 0 <= i < |s| && p(s[i]) ==> s[i] in r
  {
    ReverseMembers(Filter(s, p));
    Reverse(Filter(s, p))
  }

  /** The selected rows come highest key first. */
  lemma SelectDescDecreasing<T>(s: seq<T>, p: T -> bool, key: T -> int)
    requires Increasing(s, key)
    ensures Decreasing(SelectDesc(s, p), key)
  {
    FilterIncreasing(s, p, key);
    ReverseIncreasing(Filter(s, p), key);
  }

  /**
   * The `while (rs.Read())` loop of a query: the matching rows are visited from the
   * highest id down and appended one by one.
   */
  method ReadDesc<T>(s: seq<T>, p: T -> bool) returns (result: seq<T>)
    ensures result == SelectDesc(s, p)
  {
    result := [];
    var i := |s|;
    while i > 0
      invariant 0 <= i <= |s|
      invariant result == Reverse(Filter(s[i..], p))
    {
      i := i - 1;
      assert s[i..] == [s[i]] + s[i + 1..];
      FilterAppend([s[i]], s[i + 1..], p);
      assert Filter([s[i]], p) == if p(s[i]) then [s[i]] else [];
      ReverseAppend(Filter([s[i]], p), Filter(s[i + 1..], p));
      result := result + (if p(s[i]) then [s[i]] else []);
    }
    assert s[0..] == s;
  }

  /** Some row carries key `k`. */
  predicate HasKey<T>(s: seq<T>, key: T -> int, k: int) {
    exists i :: 0 <= i < |s| && key(s[i]) == k
  }

  /** `SELECT … WHERE id = ?` read with `if (rs.Read())`: the first row with key `k`, if any. */
  function FindKey<T>(s: seq<T>, key: T -> int, k: int): (r: Option<T>)
    ensures r.Some? <==> HasKey(s, key, k)
    ensures r.Some? ==> key(r.value) == k && exists i :: 0 <= i < |s| && s[i] == r.value
  {
    if s == [] then None
    else if key(s[0]) == k then Some(s[0])
    else
      assert HasKey(s[1..], key, k) ==> HasKey(s, key, k) by {
        if HasKey(s[1..], key, k) {
          var j :| 0 <= j < |s[1..]| && key(s[1..][j]) == k;
          assert key(s[j + 1]) == k;
        }
      }
      assert HasKey(s, key, k) ==> HasKey(s[1..], key, k) by {
        if HasKey(s, key, k) {
          var j :| 0 <= j < |s| && key(s[j]) == k;
          assert key(s[1..][j - 1]) == k;
        }
      }
      var r := FindKey(s[1..], key, k);
      assert r.Some? ==> exists i :: 0 <= i < |s| && s[i] == r.value by {
        if r.Some? {
          var j :| 0 <= j < |s[1..]| && s[1..][j] == r.value;
          assert s[j + 1] == r.value;
        }
      }
      r
  }

  /** With strictly growing keys, the row found for a key is the one at its position. */
  lemma FindKeyAt<T>(s: seq<T>, key: T -> int, i: int)
    requires Increasing(s, key) && 0 <= i < |s|
    ensures FindKey(s, key, key(s[i])) == Some(s[i])
  {
    var r := FindKey(s, key, key(s[i]));
    var j :| 0 <= j < |s| && s[j] == r.value;
    IncreasingUnique(s, key, i, j);
  }

  /** The first row satisfying `p`, if any: what `if (rs.Read())` yields for `WHERE p`. */
  function First<T>(s: seq<T>, p: T -> bool): (r: Option<T>)
    ensures r.Some? <==> exists i :: 0 <= i < |s| && p(s[i])
    ensures r.Some? ==> p(r.value) && exists i :: 0 <= i < |s| && s[i] == r.value
  {
    FilterNonEmpty(s, p);
    var f := Filter(s, p);
    if |f| > 0 then
      assert exists i :: 0 <= i < |s| && s[i] == f[0];
      Some(f[0])
    else None
  }

  /** `UPDATE … SET … WHERE id = ?`: rows with key `k` become `f` of themselves, the rest stay. */
  function UpdateKey<T>(s: seq<T>, key: T -> int, k: int, f: T -> T): (r: seq<T>)
    ensures |r| == |s|
    ensures forall i :: 0 <= i < |s| && key(s[i]) != k ==> r[i] == s[i]
    ensures forall i :: 0 <= i < |s| && key(s[i]) == k ==> r[i] == f(s[i])
  {
    seq(|s|, i requires 0 <= i < |s| => if key(s[i]) == k then f(s[i]) else s[i])
  }

  /** `DELETE … WHERE id = ?`: every row with key `k` goes, every other row stays in order. */
  function DeleteKey<T>(s: seq<T>, key: T -> int, k: int): (r: seq<T>)
    ensures !HasKey(r, key, k)
    ensures forall i :: 0 <= i < |s| && key(s[i]) != k ==> s[i] in r
    ensures forall i :: 0 <= i < |r| ==> r[i] in s
  {
    Filter(s, (x: T) => key(x) != k)
  }

  /** Deleting keeps keys growing. */
  lemma DeleteKeyIncreasing<T>(s: seq<T>, key: T -> int, k: int)
    requires Increasing(s, key)
    ensures Increasing(DeleteKey(s, key, k), key)
  {
    FilterIncreasing(s, (x: T) => key(x) != k, key);
  }

  /**
   * An auto-increment table: keys are positive, grow with insertion and stay below
   * the next key to hand out.
   */
  ghost predicate WellKeyed<T>(s: seq<T>, key: T -> int, nextKey: int) {
    && nextKey > 0
    && Increasing(s, key)
    && (forall i :: 0 <= i < |s| ==> 0 < key(s[i]) < nextKey)
  }

  /** Appending a row under the next key keeps the table well keyed, and that key was free. */
  lemma AppendWellKeyed<T>(s: seq<T>, key: T -> int, nextKey: int, row: T)
    requires WellKeyed(s, key, nextKey) && key(row) == nextKey
    ensures WellKeyed(s + [row], key, nextKey + 1)
    ensures !HasKey(s, key, nextKey)
  {
  }

  lemma ReverseAppend<T>(a: seq<T>, b: seq<T>)
    ensures Reverse(a + b) == Reverse(b) + Reverse(a)
  {
  }
}
