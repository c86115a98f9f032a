/** When a chain can be read back: which of its numbers are stored, and what the scan makes of them. */
module ChainNumbers {
  import opened Basics
  import opened EntryStore
  import EBlock

  predicate HasNumber(bs: seq<EBlock.Block>, cid: Digest, n: int) {
    exists j :: 0 <= j < |bs| && bs[j].header.chainID == cid && bs[j].header.ebSequence == n
  }

  /** Below every stored number of the chain all numbers are stored. */
  predicate NoGap(bs: seq<EBlock.Block>, cid: Digest) {
    forall j, k :: 0 <= j < |bs| && bs[j].header.chainID == cid && 0 <= k < bs[j].header.ebSequence ==>
        HasNumber(bs, cid, k)
  }

  // ---------------------------------------------------------------- the rows of a scan

  function ScanOf(h: Hashing, bs: seq<EBlock.Block>, cid: Digest): seq<Row> {
    Scan(StoreAll(h, bs).num, ChainPrefix(cid), AddOne(ChainPrefix(cid)))
  }

  /** The block wrote the row. */
  predicate Wrote(h: Hashing, b: EBlock.Block, r: Row) {
    b.body != [] && r == (Key(b.header.chainID, b.header.ebSequence), EBlock.FullHash(h, b))
  }

  lemma {:induction false} RowSource(h: Hashing, bs: seq<EBlock.Block>, i: nat)
    requires Storable(h, bs) && i < |StoreAll(h, bs).num|
    ensures exists j :: 0 <= j < |bs| && Wrote(h, bs[j], StoreAll(h, bs).num[i])
    decreases |bs|
  {
    hide EBlock.KeyMR, EBlock.FullHash, EBlock.Built, Key, Put;
    var n := |bs| - 1;
    var old_, b := StoreAll(h, bs[..n]), bs[n];
    PutKeys(old_.num, Key(b.header.chainID, b.header.ebSequence), EBlock.FullHash(h, b));
    if !Wrote(h, b, StoreAll(h, bs).num[i]) {
      var j :| 0 <= j < |old_.num| && StoreAll(h, bs).num[i] == old_.num[j];
      RowSource(h, bs[..n], j);
      var m :| 0 <= m < n && Wrote(h, bs[..n][m], old_.num[j]);
      assert bs[m] == bs[..n][m];
    }
  }

  predicate HasKey(t: seq<Row>, k: Bytes) {
    exists i :: 0 <= i < |t| && t[i].0 == k
  }

  lemma HasKeyCons(r: Row, t: seq<Row>, k: Bytes)
    ensures HasKey([r] + t, k) <==> r.0 == k || HasKey(t, k)
  {
    var u := [r] + t;
    assert u[0] == r;
    assert forall i :: 0 <= i < |t| ==> u[i + 1] == t[i];
    assert forall i :: 0 < i < |u| ==> u[i] == t[i - 1];
  }

  /** Writing a key adds it and loses none. */
  lemma {:induction false} PutKey(t: seq<Row>, k: Bytes, v: Digest, x: Bytes)
    ensures HasKey(Put(t, k, v), x) <==> x == k || HasKey(t, x)
    decreases |t|
  {
    hide Less, HasKey;
    if t == [] {
      HasKeyCons((k, v), [], x);
      assert [(k, v)] == [(k, v)] + [];
    } else {
      assert t == [t[0]] + t[1..];
      HasKeyCons(t[0], t[1..], x);
      HasKeyCons((k, v), t[1..], x);
      HasKeyCons((k, v), t, x);
      if t[0].0 != k && !Less(k, t[0].0) {
        PutKey(t[1..], k, v, x);
        HasKeyCons(t[0], Put(t[1..], k, v), x);
      }
    }
  }

  lemma {:induction false} KeyPresent(h: Hashing, bs: seq<EBlock.Block>, j: nat)
    requires Storable(h, bs) && j < |bs|
    ensures HasKey(StoreAll(h, bs).num, Key(bs[j].header.chainID, bs[j].header.ebSequence))
    decreases |bs|
  {
    hide EBlock.KeyMR, EBlock.FullHash, EBlock.Built, Key, Put, HasKey;
    var n := |bs| - 1;
    var t, b := StoreAll(h, bs[..n]).num, bs[n];
    PutKey(t, Key(b.header.chainID, b.header.ebSequence), EBlock.FullHash(h, b),
        Key(bs[j].header.chainID, bs[j].header.ebSequence));
    if j < n {
      KeyPresent(h, bs[..n], j);
      assert bs[..n][j] == bs[j];
    }
  }

  lemma {:induction false} ScanMember(t: seq<Row>, from: Bytes, to: Bytes, i: nat)
    requires i < |Scan(t, from, to)|
    ensures exists j :: 0 <= j < |t| && Scan(t, from, to)[i] == t[j] && InRange(t[j].0, from, to)
    decreases |t|
  {
    hide InRange;
    if InRange(t[0].0, from, to) && i == 0 {
      assert Scan(t, from, to)[0] == t[0];
    } else {
      var off := if InRange(t[0].0, from, to) then 1 else 0;
      ScanMember(t[1..], from, to, i - off);
      var j :| 0 <= j < |t[1..]| && Scan(t[1..], from, to)[i - off] == t[1..][j] && InRange(t[1..][j].0, from, to);
      assert t[1..][j] == t[j + 1];
    }
  }

  lemma {:induction false} ScanSorted(t: seq<Row>, from: Bytes, to: Bytes)
    requires Sorted(t)
    ensures Sorted(Scan(t, from, to))
    decreases |t|
  {
    hide InRange, Less;
    if t != [] {
      ScanSorted(t[1..], from, to);
      var s := Scan(t[1..], from, to);
      forall i | 0 <= i < |s|
        ensures Less(t[0].0, s[i].0)
      {
        ScanMember(t[1..], from, to, i);
        var j :| 0 <= j < |t[1..]| && s[i] == t[1..][j];
        assert t[1..][j] == t[j + 1];
      }
    }
  }

  /** Each scanned row was written by a stored block of the chain. */
  lemma ScannedRow(h: Hashing, bs: seq<EBlock.Block>, cid: Digest, i: nat) returns (j: nat)
    requires Storable(h, bs) && cid[31] < 255 && i < |ScanOf(h, bs, cid)|
    ensures j < |bs| && bs[j].header.chainID == cid && Wrote(h, bs[j], ScanOf(h, bs, cid)[i])
  {
    hide InRange, Key, ChainPrefix, AddOne, StoreAll, Storable, Scan;
    var t := StoreAll(h, bs).num;
    ScanMember(t, ChainPrefix(cid), AddOne(ChainPrefix(cid)), i);
    var m :| 0 <= m < |t| && ScanOf(h, bs, cid)[i] == t[m] && InRange(t[m].0, ChainPrefix(cid), AddOne(ChainPrefix(cid)));
    RowSource(h, bs, m);
    j :| 0 <= j < |bs| && Wrote(h, bs[j], t[m]);
    RangeOfChain(cid, bs[j].header.chainID, bs[j].header.ebSequence);
  }

  /** Every stored block of the chain has its key among the scanned rows. */
  lemma ScanHasKey(h: Hashing, bs: seq<EBlock.Block>, cid: Digest, j: nat) returns (i: nat)
    requires Storable(h, bs) && cid[31] < 255 && j < |bs| && bs[j].header.chainID == cid
    ensures i < |ScanOf(h, bs, cid)| && ScanOf(h, bs, cid)[i].0 == Key(cid, bs[j].header.ebSequence)
  {
    hide InRange, Key, ChainPrefix, AddOne, StoreAll, Storable, Scan;
    var t := StoreAll(h, bs).num;
    KeyPresent(h, bs, j);
    var m :| 0 <= m < |t| && t[m].0 == Key(cid, bs[j].header.ebSequence);
    RangeOfChain(cid, cid, bs[j].header.ebSequence);
    ScanContains(t, ChainPrefix(cid), AddOne(ChainPrefix(cid)), m);
    i :| 0 <= i < |ScanOf(h, bs, cid)| && ScanOf(h, bs, cid)[i] == t[m];
  }

  // ---------------------------------------------------------------- the fetched blocks

  /** Each row leads to a stored block of the chain with the row's key. */
  predicate Leads(bs: seq<EBlock.Block>, eb: map<Digest, EBlock.Block>, cid: Digest, r: Row) {
    && r.1 in eb && eb[r.1] in bs && eb[r.1].header.chainID == cid
    && r.0 == Key(cid, eb[r.1].header.ebSequence)
  }

  lemma RowLeads(h: Hashing, bs: seq<EBlock.Block>, cid: Digest, i: nat)
    requires Storable(h, bs) && cid[31] < 255 && i < |ScanOf(h, bs, cid)| && !BlocksCollide(h, bs)
    ensures Leads(bs, StoreAll(h, bs).eb, cid, ScanOf(h, bs, cid)[i])
  {
    hide Key, StoreAll, ScanOf, Storable, EBlock.FullHash, CollisionBetween, StoredInputs;
    var j := ScannedRow(h, bs, cid, i);
    StoredBlockIsFound(h, bs, j);
  }

  lemma {:induction false} FetchedLeads(bs: seq<EBlock.Block>, eb: map<Digest, EBlock.Block>, cid: Digest, rows: seq<Row>)
    requires forall i :: 0 <= i < |rows| ==> Leads(bs, eb, cid, rows[i])
    ensures var s := Fetched(eb, rows);
      |s| == |rows| && forall i :: 0 <= i < |s| ==>
          s[i] in bs && s[i].header.chainID == cid && rows[i].0 == Key(cid, s[i].header.ebSequence)
    decreases |rows|
  {
    hide Key;
    if rows != [] {
      assert Leads(bs, eb, cid, rows[0]);
      assert forall i :: 0 <= i < |rows[1..]| ==> rows[1..][i] == rows[i + 1];
      FetchedLeads(bs, eb, cid, rows[1..]);
    }
  }

  /** Strictly increasing numbers. */
  predicate Increasing(s: seq<EBlock.Block>) {
    forall i, j :: 0 <= i < j < |s| ==> s[i].header.ebSequence < s[j].header.ebSequence
  }

  lemma {:induction false} SortOfIncreasing(s: seq<EBlock.Block>)
    requires Increasing(s)
    ensures SortBySequence(s) == s
    decreases |s|
  {
    if s != [] {
      SortOfIncreasing(s[1..]);
      assert s == [s[0]] + s[1..];
    }
  }

  /** What the scan and fetch of a chain give, unless stored blocks collide: stored blocks of the chain,
      one for each of its numbers, in the order of the numbers. */
  lemma FetchedChain(h: Hashing, bs: seq<EBlock.Block>, cid: Digest)
    requires Storable(h, bs) && cid[31] < 255 && !BlocksCollide(h, bs)
    ensures var s := FetchAllEBlocksByChain(StoreAll(h, bs), cid);
      && Increasing(s) && SortBySequence(s) == s
      && (forall i :: 0 <= i < |s| ==> s[i] in bs && s[i].header.chainID == cid)
      && (forall n :: HasNumber(bs, cid, n) <==> HasNumber(s, cid, n))
  {
    hide Key, ChainPrefix, AddOne, StoreAll, Storable, Scan, Less, BlocksCollide, Leads;
    var t, rows := StoreAll(h, bs), ScanOf(h, bs, cid);
    forall i | 0 <= i < |rows|
      ensures Leads(bs, t.eb, cid, rows[i])
    {
      RowLeads(h, bs, cid, i);
    }
    FetchedLeads(bs, t.eb, cid, rows);
    NumSorted(h, bs);
    ScanSorted(t.num, ChainPrefix(cid), AddOne(ChainPrefix(cid)));
    var s := FetchAllEBlocksByChain(t, cid);
    forall i, j | 0 <= i < j < |s|
      ensures s[i].header.ebSequence < s[j].header.ebSequence
    {
      KeyOrder(cid, s[i].header.ebSequence, s[j].header.ebSequence);
    }
    SortOfIncreasing(s);
    forall n | HasNumber(bs, cid, n)
      ensures HasNumber(s, cid, n)
    {
      var j :| 0 <= j < |bs| && bs[j].header.chainID == cid && bs[j].header.ebSequence == n;
      var i := ScanHasKey(h, bs, cid, j);
      KeyInjective(cid, s[i].header.ebSequence, cid, bs[j].header.ebSequence);
    }
    forall n | HasNumber(s, cid, n)
      ensures HasNumber(bs, cid, n)
    {
      var i :| 0 <= i < |s| && s[i].header.chainID == cid && s[i].header.ebSequence == n;
      var j :| 0 <= j < |bs| && bs[j] == s[i];
    }
  }

  lemma GapsCarryOver(bs: seq<EBlock.Block>, s: seq<EBlock.Block>, cid: Digest)
    requires (forall n :: HasNumber(bs, cid, n) <==> HasNumber(s, cid, n)) && NoGap(bs, cid)
    ensures NoGap(s, cid)
  {
    forall j, k | 0 <= j < |s| && s[j].header.chainID == cid && 0 <= k < s[j].header.ebSequence
      ensures HasNumber(s, cid, k)
    {
      assert HasNumber(s, cid, s[j].header.ebSequence);
      var m :| 0 <= m < |bs| && bs[m].header.chainID == cid && bs[m].header.ebSequence == s[j].header.ebSequence;
      assert HasNumber(bs, cid, k);
    }
  }

  /** Increasing numbers with none left out below any of them count from 0. */
  lemma {:induction false} CountFromZero(s: seq<EBlock.Block>, cid: Digest, i: nat)
    requires Increasing(s) && i < |s| && NoGap(s, cid) && forall j :: 0 <= j < |s| ==> s[j].header.chainID == cid
    ensures s[i].header.ebSequence == i
    decreases i
  {
    if i > 0 {
      CountFromZero(s, cid, i - 1);
    }
    if i < s[i].header.ebSequence {
      assert HasNumber(s, cid, i);
    }
  }

  lemma CountedHasNoGap(s: seq<EBlock.Block>, cid: Digest)
    requires NumberedFrom(s, 0) && forall j :: 0 <= j < |s| ==> s[j].header.chainID == cid
    ensures NoGap(s, cid)
  {
    forall j, k | 0 <= j < |s| && s[j].header.chainID == cid && 0 <= k < s[j].header.ebSequence
      ensures HasNumber(s, cid, k)
    {
      assert s[k].header.ebSequence == k;
    }
  }

  /** Exactly when a chain can be read back without a panic: when no number is missing below a stored
      one. The scan for an id ending in 255 finds nothing, and so never panics. */
  lemma ReadsIff(h: Hashing, bs: seq<EBlock.Block>, cid: Digest)
    requires Storable(h, bs) && !BlocksCollide(h, bs)
    ensures InitEChainFromDB(h, StoreAll(h, bs), cid).Ok? <==> (cid[31] == 255 || NoGap(bs, cid))
  {
    hide StoreAll, FetchAllEBlocksByChain, EBlock.MakeEBlock, BlocksCollide, NoGap, HasNumber, SortBySequence;
    if cid[31] == 255 {
      Reads255(h, bs, cid);
    } else {
      FetchedChain(h, bs, cid);
      var s := FetchAllEBlocksByChain(StoreAll(h, bs), cid);
      if NoGap(bs, cid) {
        GapsCarryOver(bs, s, cid);
        forall i | 0 <= i < |s|
          ensures s[i].header.ebSequence == i
        {
          CountFromZero(s, cid, i);
        }
      } else if NumberedFrom(s, 0) {
        CountedHasNoGap(s, cid);
        GapsCarryOver(s, bs, cid);
      }
      if s != [] {
        assert s[|s| - 1] in bs;
        var m :| 0 <= m < |bs| && bs[m] == s[|s| - 1];
      }
    }
  }
}
