/** Reading a whole leveldb table back in the order of a height: the iterator delivers the rows in key
    order, and start-up sorts what it got (process/init.go:37-38, 88-89, 136-137, 173-174). */
module TableScan {
  import opened Basics

  /** A table with its history: the rows written, oldest first. */
  function TableOf<T>(rows: seq<(Digest, T)>): map<Digest, T> {
    if rows == [] then map[] else TableOf(rows[..|rows| - 1])[rows[|rows| - 1].0 := rows[|rows| - 1].1]
  }

  lemma TableGrows<T>(rows: seq<(Digest, T)>, k: Digest, x: T)
    ensures TableOf(rows + [(k, x)]) == TableOf(rows)[k := x]
  {
    assert (rows + [(k, x)])[..|rows|] == rows;
  }

  predicate DistinctRows<T>(rows: seq<(Digest, T)>) {
    forall i, j :: 0 <= i < j < |rows| ==> rows[i].0 != rows[j].0
  }

  /** The iterator's keys: every key of the table, once. */
  ghost predicate Enumerates<T>(keys: seq<Digest>, table: map<Digest, T>) {
    && (forall k :: k in keys <==> k in table)
    && (forall i, j :: 0 <= i < j < |keys| ==> keys[i] != keys[j])
  }

  /** The iterator loop (database/ldb/ecblock.go:135-156 and its siblings). */
  function Fetch<T>(table: map<Digest, T>, keys: seq<Digest>): seq<T>
    requires forall k :: k in keys ==> k in table
  {
    seq(|keys|, i requires 0 <= i < |keys| => table[keys[i]])
  }

  method FetchAll<T>(table: map<Digest, T>, keys: seq<Digest>) returns (slice: seq<T>)
    requires forall k :: k in keys ==> k in table
    ensures slice == Fetch(table, keys)
  {
    slice := [];
    for i := 0 to |keys|
      invariant slice == Fetch(table, keys)[..i]
    {
      slice := slice + [table[keys[i]]];
    }
  }

  // ---------------------------------------------------------------- sorting by height

  function InsertByHeight<T>(height: T -> int, x: T, s: seq<T>): (r: seq<T>)
    ensures |r| == |s| + 1
  {
    if s == [] || height(x) <= height(s[0]) then [x] + s else [s[0]] + InsertByHeight(height, x, s[1..])
  }

  /** sort.Sort on heights (util/sorting.go). */
  function SortByHeight<T>(height: T -> int, s: seq<T>): (r: seq<T>)
    ensures |r| == |s|
  {
    if s == [] then [] else InsertByHeight(height, s[0], SortByHeight(height, s[1..]))
  }

  predicate Climbs<T>(height: T -> int, s: seq<T>) {
    forall i, j :: 0 <= i < j < |s| ==> height(s[i]) < height(s[j])
  }

  predicate HasHeight<T>(height: T -> int, s: seq<T>, n: int) {
    exists i :: 0 <= i < |s| && height(s[i]) == n
  }

  lemma {:induction false} InsertMembers<T>(height: T -> int, x: T, s: seq<T>, y: T)
    ensures y in InsertByHeight(height, x, s) <==> y == x || y in s
    decreases |s|
  {
    if s != [] && !(height(x) <= height(s[0])) {
      InsertMembers(height, x, s[1..], y);
      assert y in s <==> y == s[0] || y in s[1..];
    }
  }

  lemma {:induction false} InsertClimbs<T>(height: T -> int, x: T, s: seq<T>)
    requires Climbs(height, s) && forall i :: 0 <= i < |s| ==> height(s[i]) != height(x)
    ensures Climbs(height, InsertByHeight(height, x, s))
    decreases |s|
  {
    if s != [] && !(height(x) <= height(s[0])) {
      InsertClimbs(height, x, s[1..]);
      var t := InsertByHeight(height, x, s[1..]);
      forall j | 0 <= j < |t|
        ensures height(s[0]) < height(t[j])
      {
        InsertMembers(height, x, s[1..], t[j]);
        if t[j] != x {
          var i :| 0 <= i < |s[1..]| && s[1..][i] == t[j];
          assert t[j] == s[i + 1];
        }
      }
    }
  }

  /** The same items, in whatever order and number. */
  predicate SameItems<T(==)>(s: seq<T>, t: seq<T>) {
    (forall i :: 0 <= i < |s| ==> s[i] in t) && (forall i :: 0 <= i < |t| ==> t[i] in s)
  }

  /** Items of different heights end up in strict order, and none is lost. */
  lemma {:induction false} SortClimbs<T>(height: T -> int, s: seq<T>)
    requires forall i, j :: 0 <= i < j < |s| ==> height(s[i]) != height(s[j])
    ensures Climbs(height, SortByHeight(height, s))
    ensures SameItems(SortByHeight(height, s), s)
    decreases |s|
  {
    if s != [] {
      var t := SortByHeight(height, s[1..]);
      SortClimbs(height, s[1..]);
      forall i | 0 <= i < |t|
        ensures height(t[i]) != height(s[0])
      {
        var j :| 0 <= j < |s[1..]| && s[1..][j] == t[i];
        assert t[i] == s[j + 1];
      }
      InsertClimbs(height, s[0], t);
      var r := SortByHeight(height, s);
      forall i | 0 <= i < |r|
        ensures r[i] in s
      {
        InsertMembers(height, s[0], t, r[i]);
        if r[i] != s[0] {
          var j :| 0 <= j < |t| && t[j] == r[i];
          assert t[j] in s[1..];
        }
      }
      forall i | 0 <= i < |s|
        ensures s[i] in r
      {
        InsertMembers(height, s[0], t, s[i]);
        if i > 0 {
          assert s[1..][i - 1] == s[i];
        }
      }
    }
  }

  /** Strictly ordered heights with none missing below n count from 0. */
  lemma {:induction false} CountUp<T>(height: T -> int, s: seq<T>, n: nat, i: nat)
    requires Climbs(height, s) && i < |s| && forall j :: 0 <= j < |s| ==> 0 <= height(s[j]) < n
    requires forall k :: 0 <= k < n ==> HasHeight(height, s, k)
    ensures height(s[i]) == i
    decreases i
  {
    if i > 0 {
      CountUp(height, s, n, i - 1);
    }
    if i < height(s[i]) {
      assert HasHeight(height, s, i);
    }
  }

  /** The items stand at their heights. */
  predicate AtHeights<T>(height: T -> int, xs: seq<T>) {
    forall i :: 0 <= i < |xs| ==> height(xs[i]) == i
  }

  /** There is one way to put the items of heights 0 to n-1 in order. */
  lemma OneOrder<T>(height: T -> int, s: seq<T>, xs: seq<T>)
    requires Climbs(height, s) && AtHeights(height, xs) && SameItems(s, xs)
    ensures s == xs
  {
    forall j | 0 <= j < |s|
      ensures 0 <= height(s[j]) < |xs| && s[j] == xs[height(s[j])]
    {
      assert s[j] in xs;
    }
    forall k | 0 <= k < |xs|
      ensures HasHeight(height, s, k)
    {
      assert xs[k] in s;
    }
    forall i | 0 <= i < |s|
      ensures height(s[i]) == i
    {
      CountUp(height, s, |xs|, i);
    }
    assert |s| <= |xs| by {
      if s != [] {
        assert height(s[|s| - 1]) == |s| - 1;
      }
    }
    assert |xs| <= |s| by {
      if xs != [] {
        assert HasHeight(height, s, |xs| - 1);
        var m :| 0 <= m < |s| && height(s[m]) == |xs| - 1;
      }
    }
  }

  // ---------------------------------------------------------------- a table read back

  function Values<T>(rows: seq<(Digest, T)>): seq<T> {
    seq(|rows|, i requires 0 <= i < |rows| => rows[i].1)
  }

  lemma {:induction false} TableKeys<T>(rows: seq<(Digest, T)>, k: Digest)
    ensures k in TableOf(rows) <==> exists i :: 0 <= i < |rows| && rows[i].0 == k
    decreases |rows|
  {
    if rows != [] {
      var n := |rows| - 1;
      TableKeys(rows[..n], k);
      assert forall i :: 0 <= i < n ==> rows[..n][i] == rows[i];
    }
  }

  /** Everything in the table was written. */
  lemma {:induction false} TableRow<T>(rows: seq<(Digest, T)>, k: Digest)
    requires k in TableOf(rows)
    ensures exists i :: 0 <= i < |rows| && rows[i] == (k, TableOf(rows)[k])
    decreases |rows|
  {
    var n := |rows| - 1;
    if k == rows[n].0 {
      assert rows[n] == (k, TableOf(rows)[k]);
    } else {
      TableRow(rows[..n], k);
      var i :| 0 <= i < n && rows[..n][i] == (k, TableOf(rows[..n])[k]);
      assert rows[i] == rows[..n][i];
    }
  }

  /** With distinct keys every row is in the table. */
  lemma {:induction false} RowsStay<T>(rows: seq<(Digest, T)>, i: nat)
    requires DistinctRows(rows) && i < |rows|
    ensures rows[i].0 in TableOf(rows) && TableOf(rows)[rows[i].0] == rows[i].1
    decreases |rows|
  {
    var n := |rows| - 1;
    if i < n {
      RowsStay(rows[..n], i);
      assert rows[..n][i] == rows[i];
    }
  }

  /** A table whose rows have distinct keys and stand at their heights reads back as it was written,
      whatever order the keys have. */
  lemma SortedFetch<T>(height: T -> int, rows: seq<(Digest, T)>, keys: seq<Digest>)
    requires DistinctRows(rows) && Enumerates(keys, TableOf(rows)) && AtHeights(height, Values(rows))
    ensures SortByHeight(height, Fetch(TableOf(rows), keys)) == Values(rows)
  {
    hide TableOf, SortByHeight;
    var xs, s := Values(rows), Fetch(TableOf(rows), keys);
    forall i | 0 <= i < |s|
      ensures 0 <= height(s[i]) < |rows| && s[i] == xs[height(s[i])] && keys[i] == rows[height(s[i])].0
    {
      FetchedRow(height, rows, keys, i);
    }
    forall i, j | 0 <= i < j < |s|
      ensures height(s[i]) != height(s[j])
    {
      assert keys[i] != keys[j];
    }
    SortClimbs(height, s);
    forall i | 0 <= i < |xs|
      ensures xs[i] in s
    {
      RowsStay(rows, i);
      var p :| 0 <= p < |keys| && keys[p] == rows[i].0;
      assert s[p] == xs[i];
    }
    SameItemsThrough(SortByHeight(height, s), s, xs);
    OneOrder(height, SortByHeight(height, s), xs);
  }

  lemma SameItemsThrough<T>(r: seq<T>, s: seq<T>, t: seq<T>)
    requires SameItems(r, s) && SameItems(s, t)
    ensures SameItems(r, t)
  {
    forall i | 0 <= i < |r|
      ensures r[i] in t
    {
      assert r[i] in s;
      var j :| 0 <= j < |s| && s[j] == r[i];
    }
    forall i | 0 <= i < |t|
      ensures t[i] in r
    {
      assert t[i] in s;
      var j :| 0 <= j < |s| && s[j] == t[i];
    }
  }

  lemma FetchedRow<T>(height: T -> int, rows: seq<(Digest, T)>, keys: seq<Digest>, i: nat)
    requires DistinctRows(rows) && Enumerates(keys, TableOf(rows)) && AtHeights(height, Values(rows)) && i < |keys|
    ensures var x := Fetch(TableOf(rows), keys)[i];
      0 <= height(x) < |rows| && x == Values(rows)[height(x)] && keys[i] == rows[height(x)].0
  {
    hide TableOf;
    assert keys[i] in keys;
    TableKeys(rows, keys[i]);
    var j :| 0 <= j < |rows| && rows[j].0 == keys[i];
    RowsStay(rows, j);
    assert Values(rows)[j] == rows[j].1;
  }
}
