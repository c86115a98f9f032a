/** How entry blocks are kept in leveldb (database/ldb/eblock.go), found again by a range scan, and
    turned back into a live chain (process/init.go, initEChainFromDB). */
module EntryStore {
  import opened Basics
  import EBlock
  import opened Entries

  // ---------------------------------------------------------------- byte order

  /** leveldb's key order. */
  predicate Less(a: Bytes, b: Bytes)
    decreases |a|
  {
    b != [] && (a == [] || a[0] < b[0] || (a[0] == b[0] && Less(a[1..], b[1..])))
  }

  lemma {:induction false} LessIrreflexive(a: Bytes)
    ensures !Less(a, a)
    decreases |a|
  {
    if a != [] {
      LessIrreflexive(a[1..]);
    }
  }

  lemma {:induction false} LessTransitive(a: Bytes, b: Bytes, c: Bytes)
    requires Less(a, b) && Less(b, c)
    ensures Less(a, c)
    decreases |a|
  {
    if a != [] && a[0] == b[0] && b[0] == c[0] {
      LessTransitive(a[1..], b[1..], c[1..]);
    }
  }

  lemma {:induction false} LessTotal(a: Bytes, b: Bytes)
    ensures a == b || Less(a, b) || Less(b, a)
    decreases |a|
  {
    if a != [] && b != [] && a[0] == b[0] {
      LessTotal(a[1..], b[1..]);
      assert a == [a[0]] + a[1..] && b == [b[0]] + b[1..];
    }
  }

  lemma {:induction false} LessUnderPrefix(p: Bytes, a: Bytes, b: Bytes)
    ensures Less(p + a, p + b) <==> Less(a, b)
    decreases |p|
  {
    if p == [] {
      assert p + a == a && p + b == b;
    } else {
      assert (p + a)[1..] == p[1..] + a && (p + b)[1..] == p[1..] + b;
      LessUnderPrefix(p[1..], a, b);
    }
  }

  /** Different strings of one length decide the order of everything that starts with them. */
  lemma {:induction false} LessDecidedEarly(a: Bytes, b: Bytes, u: Bytes, v: Bytes)
    requires |a| == |b| && a != b
    ensures Less(a + u, b + v) <==> Less(a, b)
    decreases |a|
  {
    assert (a + u)[1..] == a[1..] + u && (b + v)[1..] == b[1..] + v;
    if a[0] == b[0] {
      assert a == [a[0]] + a[1..] && b == [b[0]] + b[1..];
      LessDecidedEarly(a[1..], b[1..], u, v);
    }
  }

  /** Big-endian order is numeric order. */
  lemma {:induction false} BigEndianOrder(i: nat, j: nat, k: nat)
    requires i < Pow256(k) && j < Pow256(k)
    ensures Less(BE(i, k), BE(j, k)) <==> i < j
    decreases k
  {
    if k > 0 {
      var a, b := BE(i / 256, k - 1), BE(j / 256, k - 1);
      BigEndianOrder(i / 256, j / 256, k - 1);
      if i / 256 == j / 256 {
        LessUnderPrefix(a, [i % 256], [j % 256]);
      } else {
        BERoundTrip(i / 256, k - 1);
        BERoundTrip(j / 256, k - 1);
        LessDecidedEarly(a, b, [i % 256], [j % 256]);
      }
    }
  }

  // ---------------------------------------------------------------- keys and ranges

  const TBL_EB_CHAIN_NUM: byte := 14

  /** database/ldb/eblock.go:287-288 */
  function ChainPrefix(cid: Digest): (b: Bytes)
    ensures |b| == 33
  {
    [TBL_EB_CHAIN_NUM] + cid
  }

  /** database/ldb/eblock.go:84-88 */
  function Key(cid: Digest, ebSequence: u32): (b: Bytes)
    ensures |b| == 37
  {
    ChainPrefix(cid) + U32(ebSequence)
  }

  /** Go's `+ 1` on a byte. */
  function Next(b: byte): byte {
    if b == 255 then 0 else b + 1
  }

  /** The upper end of the scan: the last byte plus one, without a carry. */
  function AddOne(input: Bytes): Bytes
    requires input != []
  {
    input[..|input| - 1] + [Next(input[|input| - 1])]
  }

  /** database/ldb/eblock.go:325-338. The test `<= 255` holds for every byte, so the loop ends in
      its first round, at the last byte, and 255 wraps to 0. None is a nil slice. */
  method AddOneToByteArray(input: Option<Bytes>) returns (output: array<byte>)
    ensures fresh(output)
    ensures output[..] == if input == None then [1] else if input.value == [] then [] else AddOne(input.value)
  {
    if input == None {
      output := new byte[1](_ => 1);
      return;
    }
    var s := input.value;
    output := new byte[|s|](i requires 0 <= i < |s| => s[i]);
    for i := output.Length downto 0
      invariant i == output.Length && output[..] == s
    {
      if output[i] <= 255 {
        output[i] := Next(output[i]);
        break;
      }
    }
    assert s != [] ==> output[..] == s[..|s| - 1] + [output[|s| - 1]];
  }

  /** Keys in leveldb's order, each once. */
  predicate Ascending(keys: seq<Digest>) {
    forall i, j :: 0 <= i < j < |keys| ==> Less(keys[i], keys[j])
  }

  predicate InRange(k: Bytes, from: Bytes, to: Bytes) {
    !Less(k, from) && Less(k, to)
  }

  lemma KeyParts(cid: Digest, i: u32)
    ensures ChainPrefix(cid) == ChainPrefix(cid)[..32] + [cid[31]]
    ensures Key(cid, i) == ChainPrefix(cid)[..32] + ([cid[31]] + U32(i))
    ensures AddOne(ChainPrefix(cid)) == ChainPrefix(cid)[..32] + [Next(cid[31])]
  {
  }

  /** The scan range of a chain whose id does not end in 255 holds that chain's keys only. */
  lemma RangeOfChain(cid: Digest, c: Digest, i: u32)
    requires cid[31] < 255
    ensures InRange(Key(c, i), ChainPrefix(cid), AddOne(ChainPrefix(cid))) <==> c == cid
  {
    hide U32;
    var p, q := ChainPrefix(cid)[..32], ChainPrefix(c)[..32];
    var s := [c[31]] + U32(i);
    KeyParts(cid, i);
    KeyParts(c, i);
    if p == q {
      LessUnderPrefix(p, s, [cid[31]]);
      LessUnderPrefix(p, s, [cid[31] + 1]);
      assert c[31] == cid[31] ==> ChainPrefix(c) == ChainPrefix(cid);
      assert ChainPrefix(c) == ChainPrefix(cid) ==> c == ChainPrefix(cid)[1..];
      assert cid == ChainPrefix(cid)[1..];
      OneByteRange(s, cid[31]);
    } else {
      LessDecidedEarly(q, p, s, [cid[31]]);
      LessDecidedEarly(q, p, s, [cid[31] + 1]);
    }
  }

  lemma OneByteRange(s: Bytes, x: byte)
    requires |s| > 1 && x < 255
    ensures !Less(s, [x]) && Less(s, [x + 1]) <==> s[0] == x
  {
    assert forall b: byte :: [b][1..] == [];
  }

  /** For a chain id ending in 255 the upper end lies below the lower one: nothing is in range. */
  lemma RangeOfChain255(cid: Digest, k: Bytes)
    requires cid[31] == 255
    ensures !InRange(k, ChainPrefix(cid), AddOne(ChainPrefix(cid)))
  {
    KeyParts(cid, 0);
    var from, to := ChainPrefix(cid), AddOne(ChainPrefix(cid));
    LessUnderPrefix(from[..32], [0], [255]);
    assert Less(to, from);
    if Less(k, to) {
      LessTransitive(k, to, from);
    }
  }

  // ---------------------------------------------------------------- the ordered table

  type Row = (Bytes, Digest)

  /** A leveldb table, as its iterator sees it: rows in key order. */
  predicate Sorted(t: seq<Row>) {
    forall i, j :: 0 <= i < j < |t| ==> Less(t[i].0, t[j].0)
  }

  function Put(t: seq<Row>, k: Bytes, v: Digest): seq<Row> {
    if t == [] then [(k, v)]
    else if t[0].0 == k then [(k, v)] + t[1..]
    else if Less(k, t[0].0) then [(k, v)] + t
    else [t[0]] + Put(t[1..], k, v)
  }

  /** An iterator over [from, to). */
  function Scan(t: seq<Row>, from: Bytes, to: Bytes): seq<Row> {
    if t == [] then []
    else (if InRange(t[0].0, from, to) then [t[0]] else []) + Scan(t[1..], from, to)
  }

  lemma {:induction false} PutKeys(t: seq<Row>, k: Bytes, v: Digest)
    ensures forall i :: 0 <= i < |Put(t, k, v)| ==>
      Put(t, k, v)[i] == (k, v) || exists j :: 0 <= j < |t| && Put(t, k, v)[i] == t[j]
    decreases |t|
  {
    if t != [] && t[0].0 != k && !Less(k, t[0].0) {
      PutKeys(t[1..], k, v);
      var u := Put(t[1..], k, v);
      forall i | 0 <= i < |u| && u[i] != (k, v)
        ensures exists j :: 0 <= j < |t| && u[i] == t[j]
      {
        var j :| 0 <= j < |t[1..]| && u[i] == t[1..][j];
        assert t[j + 1] == u[i];
      }
    }
  }

  lemma {:induction false} PutSorted(t: seq<Row>, k: Bytes, v: Digest)
    requires Sorted(t)
    ensures Sorted(Put(t, k, v))
    decreases |t|
  {
    hide Less;
    if t == [] || t[0].0 == k {
    } else if Less(k, t[0].0) {
      var u := [(k, v)] + t;
      forall j | 0 < j < |u|
        ensures Less(k, u[j].0)
      {
        if j > 1 {
          LessTransitive(k, t[0].0, t[j - 1].0);
        }
      }
    } else {
      LessTotal(k, t[0].0);
      PutSorted(t[1..], k, v);
      PutKeys(t[1..], k, v);
      var u := Put(t[1..], k, v);
      forall i | 0 <= i < |u|
        ensures Less(t[0].0, u[i].0)
      {
        if u[i] != (k, v) {
          var j :| 0 <= j < |t[1..]| && u[i] == t[1..][j];
          assert u[i] == t[j + 1];
        }
      }
    }
  }

  /** Writing outside a range does not show in a scan of it. */
  lemma {:induction false} ScanElsewhere(t: seq<Row>, k: Bytes, v: Digest, from: Bytes, to: Bytes)
    requires !InRange(k, from, to)
    ensures Scan(Put(t, k, v), from, to) == Scan(t, from, to)
    decreases |t|
  {
    hide InRange, Less;
    if t != [] {
      if t[0].0 != k && !Less(k, t[0].0) {
        assert ([t[0]] + Put(t[1..], k, v))[1..] == Put(t[1..], k, v);
        ScanElsewhere(t[1..], k, v, from, to);
      } else if t[0].0 == k {
        assert ([(k, v)] + t[1..])[1..] == t[1..];
      } else {
        assert ([(k, v)] + t)[1..] == t;
      }
    }
  }

  /** Writing a key after all others in a range appends one row to its scan. */
  lemma {:induction false} ScanAppends(t: seq<Row>, k: Bytes, v: Digest, from: Bytes, to: Bytes)
    requires Sorted(t) && InRange(k, from, to)
    requires forall i :: 0 <= i < |t| && InRange(t[i].0, from, to) ==> Less(t[i].0, k)
    ensures Scan(Put(t, k, v), from, to) == Scan(t, from, to) + [(k, v)]
    decreases |t|
  {
    hide InRange, Less;
    if t == [] {
    } else if t[0].0 == k {
      LessIrreflexive(k);
    } else if Less(k, t[0].0) {
      NothingAbove(t, k, from, to);
      assert ([(k, v)] + t)[1..] == t;
    } else {
      assert ([t[0]] + Put(t[1..], k, v))[1..] == Put(t[1..], k, v);
      ScanAppends(t[1..], k, v, from, to);
    }
  }

  lemma NothingAbove(t: seq<Row>, k: Bytes, from: Bytes, to: Bytes)
    requires Sorted(t) && t != [] && Less(k, t[0].0)
    requires forall i :: 0 <= i < |t| && InRange(t[i].0, from, to) ==> Less(t[i].0, k)
    ensures Scan(t, from, to) == []
  {
    hide InRange, Less;
    forall i | 0 <= i < |t|
      ensures !InRange(t[i].0, from, to)
    {
      if i > 0 {
        LessTransitive(k, t[0].0, t[i].0);
      }
      if InRange(t[i].0, from, to) {
        LessTransitive(k, t[i].0, k);
        LessIrreflexive(k);
      }
    }
    ScanNothing(t, from, to);
  }

  lemma {:induction false} ScanNothing(t: seq<Row>, from: Bytes, to: Bytes)
    requires forall i :: 0 <= i < |t| ==> !InRange(t[i].0, from, to)
    ensures Scan(t, from, to) == []
    decreases |t|
  {
    if t != [] {
      ScanNothing(t[1..], from, to);
    }
  }

  lemma {:induction false} ScanContains(t: seq<Row>, from: Bytes, to: Bytes, i: nat)
    requires i < |t| && InRange(t[i].0, from, to)
    ensures t[i] in Scan(t, from, to)
    decreases |t|
  {
    if i > 0 {
      ScanContains(t[1..], from, to, i - 1);
    }
  }

  // ---------------------------------------------------------------- storing entry blocks

  /** The tables that ProcessEBlockMultiBatch writes: blocks by full hash, full hashes by key Merkle
      root, and full hashes by chain and number. */
  datatype Tables = Tables(eb: map<Digest, EBlock.Block>, mr: map<Digest, Digest>, num: seq<Row>)

  const NoTables := Tables(map[], map[], [])

  /** database/ldb/eblock.go:39-101. An empty block is refused. What is stored is the binary form,
      which reads back as the block with its header built (EBlock.RoundTrip). */
  function StoreEBlock(h: Hashing, t: Tables, b: EBlock.Block): Tables {
    if b.body == [] then t
    else
      var hash := EBlock.FullHash(h, b);
      Tables(t.eb[hash := EBlock.Built(h, b)], t.mr[EBlock.KeyMR(h, b) := hash],
             Put(t.num, Key(b.header.chainID, b.header.ebSequence), hash))
  }

  function StoreAll(h: Hashing, bs: seq<EBlock.Block>): Tables {
    if bs == [] then NoTables else StoreEBlock(h, StoreAll(h, bs[..|bs| - 1]), bs[|bs| - 1])
  }

  /** The blocks of one chain, in the order they were stored. */
  function ChainBlocks(bs: seq<EBlock.Block>, cid: Digest): seq<EBlock.Block> {
    if bs == [] then []
    else
      ChainBlocks(bs[..|bs| - 1], cid)
        + if bs[|bs| - 1].header.chainID == cid then [bs[|bs| - 1]] else []
  }

  /** Blocks as the server stores them: never empty, header built. */
  predicate Storable(h: Hashing, bs: seq<EBlock.Block>) {
    forall i :: 0 <= i < |bs| ==> 0 < |bs[i].body| < TWO_32 && EBlock.Built(h, bs[i]) == bs[i]
  }

  /** The blocks of the chain are numbered in the order they were stored. */
  predicate Consecutive(bs: seq<EBlock.Block>, cid: Digest) {
    forall i :: 0 <= i < |ChainBlocks(bs, cid)| ==> ChainBlocks(bs, cid)[i].header.ebSequence == i
  }

  predicate NonEmptyBodies(blocks: seq<EBlock.Block>) {
    forall i :: 0 <= i < |blocks| ==> blocks[i].body != []
  }

  function RowsOf(h: Hashing, cid: Digest, blocks: seq<EBlock.Block>): seq<Row>
    requires NonEmptyBodies(blocks)
  {
    seq(|blocks|, i requires 0 <= i < |blocks| => (Key(cid, i % TWO_32), EBlock.FullHash(h, blocks[i])))
  }

  function StoredInputs(h: Hashing, bs: seq<EBlock.Block>): set<Bytes>
    requires Storable(h, bs)
  {
    set i | 0 <= i < |bs| :: EBlock.Marshal(h, bs[i])
  }

  /** Two stored entry blocks with one full hash. */
  ghost predicate BlocksCollide(h: Hashing, bs: seq<EBlock.Block>) {
    Storable(h, bs) && CollisionBetween(h, StoredInputs(h, bs), StoredInputs(h, bs))
  }

  /** Every number key belongs to a stored block. */
  lemma {:induction false} NumKeys(h: Hashing, bs: seq<EBlock.Block>, i: nat)
    requires Storable(h, bs) && i < |StoreAll(h, bs).num|
    ensures exists j :: 0 <= j < |bs| && StoreAll(h, bs).num[i].0 == Key(bs[j].header.chainID, bs[j].header.ebSequence)
    decreases |bs|
  {
    hide EBlock.KeyMR, EBlock.FullHash, EBlock.Built, Key, Put;
    var n := |bs| - 1;
    var old_, b := StoreAll(h, bs[..n]), bs[n];
    var k := Key(b.header.chainID, b.header.ebSequence);
    PutKeys(old_.num, k, EBlock.FullHash(h, b));
    if StoreAll(h, bs).num[i].0 != k {
      var j :| 0 <= j < |old_.num| && StoreAll(h, bs).num[i] == old_.num[j];
      NumKeys(h, bs[..n], j);
      var m :| 0 <= m < n && old_.num[j].0 == Key(bs[..n][m].header.chainID, bs[..n][m].header.ebSequence);
      assert bs[m] == bs[..n][m];
    }
  }

  lemma {:induction false} NumSorted(h: Hashing, bs: seq<EBlock.Block>)
    ensures Sorted(StoreAll(h, bs).num)
    decreases |bs|
  {
    if bs != [] {
      NumSorted(h, bs[..|bs| - 1]);
      var b := bs[|bs| - 1];
      if b.body != [] {
        PutSorted(StoreAll(h, bs[..|bs| - 1]).num, Key(b.header.chainID, b.header.ebSequence), EBlock.FullHash(h, b));
      }
    }
  }

  lemma {:induction false} ChainBlocksMember(bs: seq<EBlock.Block>, cid: Digest, j: nat)
    requires j < |bs| && bs[j].header.chainID == cid
    ensures bs[j] in ChainBlocks(bs, cid)
    decreases |bs|
  {
    if j < |bs| - 1 {
      assert bs[..|bs| - 1][j] == bs[j];
      ChainBlocksMember(bs[..|bs| - 1], cid, j);
    }
  }

  lemma {:induction false} ChainBlocksStored(bs: seq<EBlock.Block>, cid: Digest, i: nat)
    requires i < |ChainBlocks(bs, cid)|
    ensures exists j :: 0 <= j < |bs| && bs[j] == ChainBlocks(bs, cid)[i]
    decreases |bs|
  {
    var n := |bs| - 1;
    if i < |ChainBlocks(bs[..n], cid)| {
      ChainBlocksStored(bs[..n], cid, i);
      var j :| 0 <= j < n && bs[..n][j] == ChainBlocks(bs[..n], cid)[i];
      assert bs[j] == bs[..n][j];
    }
  }

  lemma KeyOrder(cid: Digest, i: u32, j: u32)
    ensures Less(Key(cid, i), Key(cid, j)) <==> i < j
  {
    Pow256Values();
    BigEndianOrder(i, j, 4);
    LessUnderPrefix(ChainPrefix(cid), U32(i), U32(j));
  }

  lemma KeyInjective(c: Digest, i: u32, d: Digest, j: u32)
    requires Key(c, i) == Key(d, j)
    ensures c == d && i == j
  {
    assert Key(c, i)[1..33] == c && Key(d, j)[1..33] == d;
    assert Key(c, i)[33..] == U32(i) && Key(d, j)[33..] == U32(j);
    U32RoundTrip(i);
    U32RoundTrip(j);
  }

  lemma ConsecutivePrefix(bs: seq<EBlock.Block>, cid: Digest)
    requires bs != [] && Consecutive(bs, cid)
    ensures Consecutive(bs[..|bs| - 1], cid)
  {
    var p := ChainBlocks(bs[..|bs| - 1], cid);
    assert forall i :: 0 <= i < |p| ==> p[i] == ChainBlocks(bs, cid)[i];
  }

  /** The scan over a chain's keys finds exactly the chain's blocks, in order. */
  lemma {:induction false} ScanFindsChain(h: Hashing, bs: seq<EBlock.Block>, cid: Digest)
    requires Storable(h, bs) && Consecutive(bs, cid) && cid[31] < 255
    ensures NonEmptyBodies(ChainBlocks(bs, cid))
    ensures Scan(StoreAll(h, bs).num, ChainPrefix(cid), AddOne(ChainPrefix(cid))) == RowsOf(h, cid, ChainBlocks(bs, cid))
    decreases |bs|
  {
    hide InRange, Less, Key, ChainPrefix, AddOne;
    BodiesOfChain(h, bs, cid);
    if bs != [] {
      var n := |bs| - 1;
      ConsecutivePrefix(bs, cid);
      ScanFindsChain(h, bs[..n], cid);
      ScanStep(h, bs, cid);
    }
  }

  lemma BodiesOfChain(h: Hashing, bs: seq<EBlock.Block>, cid: Digest)
    requires Storable(h, bs)
    ensures forall i :: 0 <= i < |ChainBlocks(bs, cid)| ==> 0 < |ChainBlocks(bs, cid)[i].body| < TWO_32
    ensures forall i :: 0 <= i < |ChainBlocks(bs, cid)| ==>
        EBlock.Built(h, ChainBlocks(bs, cid)[i]) == ChainBlocks(bs, cid)[i]
  {
    forall i | 0 <= i < |ChainBlocks(bs, cid)|
      ensures 0 < |ChainBlocks(bs, cid)[i].body| < TWO_32
      ensures EBlock.Built(h, ChainBlocks(bs, cid)[i]) == ChainBlocks(bs, cid)[i]
    {
      ChainBlocksStored(bs, cid, i);
    }
  }

  lemma ScanStep(h: Hashing, bs: seq<EBlock.Block>, cid: Digest)
    requires bs != [] && Storable(h, bs) && Consecutive(bs, cid) && cid[31] < 255
    requires NonEmptyBodies(ChainBlocks(bs, cid))
    requires NonEmptyBodies(ChainBlocks(bs[..|bs| - 1], cid))
    requires Scan(StoreAll(h, bs[..|bs| - 1]).num, ChainPrefix(cid), AddOne(ChainPrefix(cid)))
          == RowsOf(h, cid, ChainBlocks(bs[..|bs| - 1], cid))
    ensures Scan(StoreAll(h, bs).num, ChainPrefix(cid), AddOne(ChainPrefix(cid))) == RowsOf(h, cid, ChainBlocks(bs, cid))
  {
    hide InRange, Less, Key, ChainPrefix, AddOne, EBlock.FullHash, EBlock.KeyMR, EBlock.Built, Put, Scan;
    var n := |bs| - 1;
    ConsecutivePrefix(bs, cid);
    var prev, b := bs[..n], bs[n];
    var t, from, to := StoreAll(h, prev).num, ChainPrefix(cid), AddOne(ChainPrefix(cid));
    var k, v := Key(b.header.chainID, b.header.ebSequence), EBlock.FullHash(h, b);
    RangeOfChain(cid, b.header.chainID, b.header.ebSequence);
    if b.header.chainID != cid {
      ScanElsewhere(t, k, v, from, to);
    } else {
      var blocks := ChainBlocks(prev, cid);
      assert ChainBlocks(bs, cid) == blocks + [b];
      assert ChainBlocks(bs, cid)[|blocks|] == b;
      assert b.header.ebSequence == |blocks|;
      forall i | 0 <= i < |t| && InRange(t[i].0, from, to)
        ensures Less(t[i].0, k)
      {
        EarlierRow(h, prev, cid, i);
      }
      NumSorted(h, prev);
      ScanAppends(t, k, v, from, to);
      assert RowsOf(h, cid, blocks + [b]) == RowsOf(h, cid, blocks) + [(k, v)];
    }
  }

  /** A row already in the chain's range has a smaller number than the next block. */
  lemma EarlierRow(h: Hashing, prev: seq<EBlock.Block>, cid: Digest, i: nat)
    requires Storable(h, prev) && Consecutive(prev, cid) && cid[31] < 255 && |ChainBlocks(prev, cid)| < TWO_32
    requires i < |StoreAll(h, prev).num|
    requires InRange(StoreAll(h, prev).num[i].0, ChainPrefix(cid), AddOne(ChainPrefix(cid)))
    ensures Less(StoreAll(h, prev).num[i].0, Key(cid, |ChainBlocks(prev, cid)|))
  {
    hide InRange, Less, Key, ChainPrefix, AddOne, StoreAll;
    NumKeys(h, prev, i);
    var j :| 0 <= j < |prev| && StoreAll(h, prev).num[i].0 == Key(prev[j].header.chainID, prev[j].header.ebSequence);
    RangeOfChain(cid, prev[j].header.chainID, prev[j].header.ebSequence);
    ChainBlocksMember(prev, cid, j);
    var m :| 0 <= m < |ChainBlocks(prev, cid)| && ChainBlocks(prev, cid)[m] == prev[j];
    KeyOrder(cid, m, |ChainBlocks(prev, cid)|);
  }

  // ---------------------------------------------------------------- reading a chain back

  /** database/ldb/eblock.go:283-322: each row's block; a row without one is skipped. */
  function Fetched(eb: map<Digest, EBlock.Block>, rows: seq<Row>): seq<EBlock.Block> {
    if rows == [] then []
    else (if rows[0].1 in eb then [eb[rows[0].1]] else []) + Fetched(eb, rows[1..])
  }

  function FetchAllEBlocksByChain(t: Tables, cid: Digest): seq<EBlock.Block> {
    Fetched(t.eb, Scan(t.num, ChainPrefix(cid), AddOne(ChainPrefix(cid))))
  }

  /** sort.Sort(ByEBlockIDAccending) */
  function InsertBySequence(b: EBlock.Block, s: seq<EBlock.Block>): seq<EBlock.Block> {
    if s == [] || b.header.ebSequence <= s[0].header.ebSequence then [b] + s
    else [s[0]] + InsertBySequence(b, s[1..])
  }

  function SortBySequence(s: seq<EBlock.Block>): seq<EBlock.Block> {
    if s == [] then [] else InsertBySequence(s[0], SortBySequence(s[1..]))
  }

  predicate NumberedFrom(s: seq<EBlock.Block>, n: nat) {
    forall i :: 0 <= i < |s| ==> s[i].header.ebSequence == n + i
  }

  lemma {:induction false} SortOfNumbered(s: seq<EBlock.Block>, n: nat)
    requires NumberedFrom(s, n)
    ensures SortBySequence(s) == s
    decreases |s|
  {
    if s != [] {
      assert NumberedFrom(s[1..], n + 1);
      SortOfNumbered(s[1..], n + 1);
      assert s == [s[0]] + s[1..];
    }
  }

  /** process/init.go:288-312: the next height and the next open block. A gap in the numbers panics. */
  function InitEChainFromDB(h: Hashing, t: Tables, cid: Digest): Result<(nat, EBlock.Block)> {
    var s := SortBySequence(FetchAllEBlocksByChain(t, cid));
    if !NumberedFrom(s, 0) then Err(Panic)
    else if s == [] then Ok((0, EBlock.MakeEBlock(h, cid, 0, None)))
    else if s[|s| - 1].body == [] then Err(Panic)
    else Ok((|s|, EBlock.MakeEBlock(h, cid, |s|, Some(s[|s| - 1]))))
  }

  /** What the live chain looks like after its blocks have been sealed. */
  function LiveChain(h: Hashing, cid: Digest, blocks: seq<EBlock.Block>): (nat, EBlock.Block)
    requires NonEmptyBodies(blocks)
  {
    (|blocks|, EBlock.MakeEBlock(h, cid, |blocks|, if blocks == [] then None else Some(blocks[|blocks| - 1])))
  }

  /** A stored hash leads to its block, or to another stored block with the same hash. */
  lemma {:induction false} StoredBlockIsFound(h: Hashing, bs: seq<EBlock.Block>, j: nat)
    requires Storable(h, bs) && j < |bs|
    ensures EBlock.FullHash(h, bs[j]) in StoreAll(h, bs).eb
    ensures StoreAll(h, bs).eb[EBlock.FullHash(h, bs[j])] == bs[j]
      || CollisionBetween(h, StoredInputs(h, bs), StoredInputs(h, bs))
    decreases |bs|
  {
    hide EBlock.Marshal, EBlock.KeyMR, EBlock.Built, Put, Key;
    var n := |bs| - 1;
    var prev := bs[..n];
    assert EBlock.Built(h, bs[n]) == bs[n];
    if j < n {
      assert prev[j] == bs[j];
      StoredBlockIsFound(h, prev, j);
      assert StoredInputs(h, prev) <= StoredInputs(h, bs) by {
        forall x | x in StoredInputs(h, prev)
          ensures x in StoredInputs(h, bs)
        {
          var i :| 0 <= i < |prev| && x == EBlock.Marshal(h, prev[i]);
          assert bs[i] == prev[i];
        }
      }
      if EBlock.FullHash(h, bs[j]) == EBlock.FullHash(h, bs[n]) {
        SameFullHash(h, bs, j, n);
      } else if StoreAll(h, prev).eb[EBlock.FullHash(h, prev[j])] != prev[j] {
        CollisionGrows(h, StoredInputs(h, prev), StoredInputs(h, prev), StoredInputs(h, bs), StoredInputs(h, bs));
      }
    }
  }

  lemma SameFullHash(h: Hashing, bs: seq<EBlock.Block>, i: nat, j: nat)
    requires Storable(h, bs) && i < |bs| && j < |bs|
    requires EBlock.FullHash(h, bs[i]) == EBlock.FullHash(h, bs[j])
    ensures bs[i] == bs[j] || CollisionBetween(h, StoredInputs(h, bs), StoredInputs(h, bs))
  {
    hide EBlock.Marshal, EBlock.Built;
    var x, y := EBlock.Marshal(h, bs[i]), EBlock.Marshal(h, bs[j]);
    assert x in StoredInputs(h, bs) && y in StoredInputs(h, bs);
    if x == y {
      EBlock.MarshalInjective(h, bs[i], bs[j]);
    } else {
      assert Collides(h, x, y);
    }
  }

  lemma {:induction false} FetchedRows(h: Hashing, bs: seq<EBlock.Block>, rows: seq<Row>, blocks: seq<EBlock.Block>)
    requires |rows| == |blocks|
    requires forall i :: 0 <= i < |rows| ==> rows[i].1 in StoreAll(h, bs).eb && StoreAll(h, bs).eb[rows[i].1] == blocks[i]
    ensures Fetched(StoreAll(h, bs).eb, rows) == blocks
    decreases |rows|
  {
    hide StoreAll;
    if rows != [] {
      FetchedRows(h, bs, rows[1..], blocks[1..]);
      assert blocks == [blocks[0]] + blocks[1..];
    }
  }

  /** Recovery: a chain whose id does not end in 255 comes back exactly as it was live. */
  lemma RecoveryIsExact(h: Hashing, bs: seq<EBlock.Block>, cid: Digest)
    requires Storable(h, bs) && Consecutive(bs, cid) && cid[31] < 255
    ensures NonEmptyBodies(ChainBlocks(bs, cid))
    ensures InitEChainFromDB(h, StoreAll(h, bs), cid) == Ok(LiveChain(h, cid, ChainBlocks(bs, cid)))
      || CollisionBetween(h, StoredInputs(h, bs), StoredInputs(h, bs))
  {
    hide StoreAll, Scan, ChainBlocks, EBlock.FullHash, EBlock.MakeEBlock, Key, ChainPrefix, AddOne, CollisionBetween;
    var blocks := ChainBlocks(bs, cid);
    ScanFindsChain(h, bs, cid);
    var rows := RowsOf(h, cid, blocks);
    forall i | 0 <= i < |blocks|
      ensures rows[i].1 in StoreAll(h, bs).eb
      ensures StoreAll(h, bs).eb[rows[i].1] == blocks[i] || CollisionBetween(h, StoredInputs(h, bs), StoredInputs(h, bs))
    {
      ChainBlocksStored(bs, cid, i);
      var j :| 0 <= j < |bs| && bs[j] == blocks[i];
      StoredBlockIsFound(h, bs, j);
    }
    if !CollisionBetween(h, StoredInputs(h, bs), StoredInputs(h, bs)) {
      FetchedRows(h, bs, rows, blocks);
      assert NumberedFrom(blocks, 0);
      SortOfNumbered(blocks, 0);
    }
  }

  lemma Reads255(h: Hashing, bs: seq<EBlock.Block>, cid: Digest)
    requires Storable(h, bs) && cid[31] == 255
    ensures InitEChainFromDB(h, StoreAll(h, bs), cid) == Ok((0, EBlock.MakeEBlock(h, cid, 0, None)))
  {
    hide StoreAll, EBlock.MakeEBlock, EBlock.FullHash, ChainPrefix, AddOne, InRange;
    var t := StoreAll(h, bs).num;
    forall i | 0 <= i < |t|
      ensures !InRange(t[i].0, ChainPrefix(cid), AddOne(ChainPrefix(cid)))
    {
      RangeOfChain255(cid, t[i].0);
    }
    ScanNothing(t, ChainPrefix(cid), AddOne(ChainPrefix(cid)));
    assert Fetched(StoreAll(h, bs).eb, []) == [];
  }

  /** Recovery of a chain whose id ends in 255 always starts over: it is right exactly when nothing
      has been stored yet. */
  lemma RecoveryLoses255(h: Hashing, bs: seq<EBlock.Block>, cid: Digest)
    requires Storable(h, bs) && cid[31] == 255
    ensures NonEmptyBodies(ChainBlocks(bs, cid))
    ensures InitEChainFromDB(h, StoreAll(h, bs), cid) == Ok(LiveChain(h, cid, ChainBlocks(bs, cid)))
      <==> ChainBlocks(bs, cid) == []
  {
    BodiesOfChain(h, bs, cid);
    Reads255(h, bs, cid);
    hide StoreAll, InitEChainFromDB, EBlock.MakeEBlock, ChainBlocks;
  }
}
