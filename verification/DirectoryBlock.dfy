/** Directory blocks (common/directoryBlock.go): one per ten minutes, listing the blocks of every
    other chain, each linked to its predecessor; and what the newest one commits to. */
module DirectoryBlock {
  import opened Basics
  import Merkle

  datatype Header = Header(version: byte, networkID: u32, bodyMR: Digest, prevKeyMR: Digest, prevLedgerKeyMR: Digest,
                           timestamp: u32, dbHeight: u32, blockCount: u32)

  datatype DBEntry = DBEntry(chainID: Digest, keyMR: Digest)

  datatype Block = Block(header: Header, entries: seq<DBEntry>)

  // ---------------------------------------------------------------- codec

  /** common/directoryBlock.go:332-367 */
  function MarshalHeader(hd: Header): (b: Bytes)
    ensures |b| == 113
  {
    var mr: Bytes, prev: Bytes, full: Bytes := hd.bodyMR, hd.prevKeyMR, hd.prevLedgerKeyMR;
    [hd.version] + U32(hd.networkID) + mr + prev + full + U32(hd.timestamp) + U32(hd.dbHeight) + U32(hd.blockCount)
  }

  function MarshalEntry(e: DBEntry): (b: Bytes)
    ensures |b| == 64
  {
    var cid: Bytes, mr: Bytes := e.chainID, e.keyMR;
    cid + mr
  }

  function MarshalEntries(es: seq<DBEntry>): Bytes {
    if es == [] then [] else MarshalEntry(es[0]) + MarshalEntries(es[1..])
  }

  /** Where entry i lies: its chain id, and then its key. */
  lemma {:induction false} EntriesLayout(es: seq<DBEntry>, i: nat)
    requires i < |es|
    ensures var d := MarshalEntries(es);
      |d| == 64 * |es| && d[64 * i..64 * i + 32] == es[i].chainID && d[64 * i + 32..64 * i + 64] == es[i].keyMR
    decreases |es|
  {
    var d, rest := MarshalEntries(es), MarshalEntries(es[1..]);
    var cid: Bytes, mr: Bytes := es[0].chainID, es[0].keyMR;
    assert d == cid + mr + rest;
    if |es| > 1 {
      EntriesLayout(es[1..], if i > 0 then i - 1 else 0);
      if i > 0 {
        assert d[64 * i..64 * i + 32] == rest[64 * (i - 1)..64 * (i - 1) + 32];
        assert d[64 * i + 32..64 * i + 64] == rest[64 * (i - 1) + 32..64 * (i - 1) + 64];
      }
    }
  }

  function Marshal(b: Block): Bytes {
    MarshalHeader(b.header) + MarshalEntries(b.entries)
  }

  /** common/directoryBlock.go:383-417; a short buffer panics, and the panic is recovered. */
  function UnmarshalHeader(d: Bytes): Result<(Header, Bytes)> {
    if |d| < 113 then Err(BadData)
    else
      BEValueBound(d[1..5]); BEValueBound(d[101..105]); BEValueBound(d[105..109]); BEValueBound(d[109..113]);
      Pow256Values();
      Ok((Header(d[0], BEValue(d[1..5]), d[5..37], d[37..69], d[69..101],
                 BEValue(d[101..105]), BEValue(d[105..109]), BEValue(d[109..113])), d[113..]))
  }

  function UnmarshalEntries(count: nat, d: Bytes): Result<(seq<DBEntry>, Bytes)>
    decreases count
  {
    if count == 0 then Ok(([], d))
    else if |d| < 64 then Err(BadData)
    else
      match UnmarshalEntries(count - 1, d[64..])
      case Err(e) => Err(e)
      case Ok((xs, end)) => Ok(([DBEntry(d[..32], d[32..64])] + xs, end))
  }

  /** common/directoryBlock.go:644-671 */
  function Unmarshal(d: Bytes): Result<(Block, Bytes)> {
    match UnmarshalHeader(d)
    case Err(e) => Err(e)
    case Ok((hd, tail)) =>
      match UnmarshalEntries(hd.blockCount, tail)
      case Err(e) => Err(e)
      case Ok((es, rest)) => Ok((Block(hd, es), rest))
  }

  /** common/directoryBlock.go:604-611 */
  method MarshalEntriesBinary(es: seq<DBEntry>) returns (buf: Bytes)
    ensures buf == MarshalEntries(es)
  {
    hide MarshalEntry;
    buf := [];
    for i := 0 to |es|
      invariant buf + MarshalEntries(es[i..]) == MarshalEntries(es)
    {
      assert es[i..][1..] == es[i + 1..];
      buf := buf + MarshalEntry(es[i]);
    }
  }

  /** common/directoryBlock.go:660-668 */
  method UnmarshalEntriesBinary(count: u32, data: Bytes) returns (r: Result<(seq<DBEntry>, Bytes)>)
    ensures r == UnmarshalEntries(count, data)
  {
    var es: seq<DBEntry>, newData := [], data;
    ResumeNothing(UnmarshalEntries(count, data));
    for i := 0 to count
      invariant UnmarshalEntries(count, data) == Resume(es, UnmarshalEntries(count - i, newData))
    {
      if |newData| < 64 {
        return Err(BadData);
      }
      var e := DBEntry(newData[..32], newData[32..64]);
      assert UnmarshalEntries(count - i, newData) == Resume([e], UnmarshalEntries(count - i - 1, newData[64..]));
      ResumeOneMore(es, e, UnmarshalEntries(count - i - 1, newData[64..]));
      newData := newData[64..];
      es := es + [e];
    }
    assert es + [] == es;
    return Ok((es, newData));
  }

  lemma HeaderRoundTrip(hd: Header, rest: Bytes)
    ensures UnmarshalHeader(MarshalHeader(hd) + rest) == Ok((hd, rest))
  {
    HeaderLayout(hd, rest);
    U32RoundTrip(hd.networkID);
    U32RoundTrip(hd.timestamp);
    U32RoundTrip(hd.dbHeight);
    U32RoundTrip(hd.blockCount);
  }

  lemma HeaderLayout(hd: Header, rest: Bytes)
    ensures var d := MarshalHeader(hd) + rest;
      && d[0] == hd.version && d[1..5] == U32(hd.networkID) && d[5..37] == hd.bodyMR
      && d[37..69] == hd.prevKeyMR && d[69..101] == hd.prevLedgerKeyMR && d[101..105] == U32(hd.timestamp)
      && d[105..109] == U32(hd.dbHeight) && d[109..113] == U32(hd.blockCount) && d[113..] == rest
  {
    hide U32;
  }

  lemma HeaderInjective(a: Header, b: Header)
    requires MarshalHeader(a) == MarshalHeader(b)
    ensures a == b
  {
    HeaderRoundTrip(a, []);
    HeaderRoundTrip(b, []);
  }

  lemma EntryInjective(a: DBEntry, b: DBEntry)
    requires MarshalEntry(a) == MarshalEntry(b)
    ensures a == b
  {
    assert MarshalEntry(a)[..32] == a.chainID && MarshalEntry(b)[..32] == b.chainID;
    assert MarshalEntry(a)[32..] == a.keyMR && MarshalEntry(b)[32..] == b.keyMR;
  }

  lemma {:induction false} EntriesRoundTrip(es: seq<DBEntry>, rest: Bytes)
    ensures UnmarshalEntries(|es|, MarshalEntries(es) + rest) == Ok((es, rest))
    decreases |es|
  {
    if es == [] {
      assert MarshalEntries(es) + rest == rest;
    } else {
      var more := MarshalEntries(es[1..]) + rest;
      var d := MarshalEntries(es) + rest;
      assert d == MarshalEntry(es[0]) + more;
      assert d[..32] == es[0].chainID && d[32..64] == es[0].keyMR && d[64..] == more;
      EntriesRoundTrip(es[1..], rest);
      assert [es[0]] + es[1..] == es;
    }
  }

  /** A directory block is read back exactly when its header counts its entries: the reader trusts
      the header, the writer does not. */
  lemma RoundTrip(b: Block, rest: Bytes)
    ensures b.header.blockCount == |b.entries| ==> Unmarshal(Marshal(b) + rest) == Ok((b, rest))
    ensures Unmarshal(Marshal(b) + rest) == Ok((b, rest)) ==> b.header.blockCount == |b.entries|
  {
    var es := MarshalEntries(b.entries);
    assert Marshal(b) + rest == MarshalHeader(b.header) + (es + rest);
    HeaderRoundTrip(b.header, es + rest);
    if b.header.blockCount == |b.entries| {
      EntriesRoundTrip(b.entries, rest);
    } else if Unmarshal(Marshal(b) + rest) == Ok((b, rest)) {
      EntriesCount(b.header.blockCount, es + rest);
    }
  }

  lemma {:induction false} EntriesCount(count: nat, d: Bytes)
    ensures UnmarshalEntries(count, d).Ok? ==> |UnmarshalEntries(count, d).value.0| == count
    decreases count
  {
    if count > 0 && |d| >= 64 {
      EntriesCount(count - 1, d[64..]);
    }
  }

  // ---------------------------------------------------------------- hashes

  /** The leaves of the body's Merkle tree (common/directoryBlock.go:616-629): an empty body has one
      leaf, the hash of nothing. */
  function Leaves(h: Hashing, es: seq<DBEntry>): (ls: seq<Digest>)
    ensures ls != [] && (es != [] ==> |ls| == |es|)
  {
    if es == [] then [h.sha256([])]
    else seq<Digest>(|es|, i requires 0 <= i < |es| => h.sha256(MarshalEntry(es[i])))
  }

  function BodyMR(h: Hashing, es: seq<DBEntry>): Digest {
    Merkle.Root(h, Leaves(h, es))
  }

  /** The two-leaf tree of common/directoryBlock.go:631-642. */
  function KeyMR(h: Hashing, b: Block): Digest {
    Merkle.Root(h, [h.sha256(MarshalHeader(b.header)), b.header.bodyMR])
  }

  function DBHash(h: Hashing, b: Block): Digest {
    h.sha256(Marshal(b))
  }

  /** common/directoryBlock.go:424-453 */
  function CreateDBlock(h: Hashing, height: u32, prev: Option<Block>): Block {
    var (keyMR, dbHash) := match prev
      case None => (ZERO_HASH, ZERO_HASH)
      case Some(p) => (KeyMR(h, p), DBHash(h, p));
    Block(Header(0, 0, ZERO_HASH, keyMR, dbHash, 0, height, 0), [])
  }

  lemma KeyMRIsOneBranch(h: Hashing, b: Block)
    ensures KeyMR(h, b) == Merkle.Branch(h, h.sha256(MarshalHeader(b.header)), b.header.bodyMR)
  {
    var s := [h.sha256(MarshalHeader(b.header)), b.header.bodyMR];
    assert |Merkle.Up(h, s)| == 1;
    assert Merkle.Root(h, Merkle.Up(h, s)) == Merkle.Up(h, s)[0];
  }

  // ---------------------------------------------------------------- chains of blocks

  /** The checks of validateDChain (process/init.go:325-380) on block i that do not need the
      database: the body root and the two links. */
  predicate LinkedAt(h: Hashing, chain: seq<Block>, i: nat)
    requires i < |chain|
  {
    && chain[i].header.bodyMR == BodyMR(h, chain[i].entries)
    && (i > 0 ==>
          && chain[i].header.prevLedgerKeyMR == DBHash(h, chain[i - 1])
          && chain[i].header.prevKeyMR == KeyMR(h, chain[i - 1]))
  }

  predicate Linked(h: Hashing, chain: seq<Block>) {
    forall i :: 0 <= i < |chain| ==> LinkedAt(h, chain, i)
  }

  /** What loading a chain guarantees beyond that: heights are positions (process/init.go:37-50) and
      each header counts its entries (the unmarshaller reads that many). */
  predicate Numbered(chain: seq<Block>) {
    forall i :: 0 <= i < |chain| ==> chain[i].header.dbHeight == i && chain[i].header.blockCount == |chain[i].entries|
  }

  /** Every string hashed in computing the hashes of one block. */
  function BlockInputs(h: Hashing, b: Block): set<Bytes> {
    {MarshalHeader(b.header), KeyInput(h, b)}
      + (set e | e in b.entries :: MarshalEntry(e))
      + Merkle.BranchInputs(h, Leaves(h, b.entries))
  }

  function KeyInput(h: Hashing, b: Block): (x: Bytes)
    ensures |x| == 64
    ensures x[..32] == h.sha256(MarshalHeader(b.header)) && x[32..] == b.header.bodyMR
  {
    var x: Bytes, y: Bytes := h.sha256(MarshalHeader(b.header)), b.header.bodyMR;
    x + y
  }

  function ChainInputs(h: Hashing, chain: seq<Block>): set<Bytes> {
    if chain == [] then {} else ChainInputs(h, chain[..|chain| - 1]) + BlockInputs(h, chain[|chain| - 1])
  }

  /** Equal key Merkle roots: equal headers, or a collision. */
  lemma EqualKeyMR(h: Hashing, a: Block, b: Block)
    requires KeyMR(h, a) == KeyMR(h, b)
    ensures a.header == b.header || CollisionBetween(h, BlockInputs(h, a), BlockInputs(h, b))
  {
    hide Merkle.Root, Merkle.BranchInputs, Leaves, MarshalHeader, MarshalEntry;
    KeyMRIsOneBranch(h, a);
    KeyMRIsOneBranch(h, b);
    var x, y := KeyInput(h, a), KeyInput(h, b);
    assert h.sha256(x) == KeyMR(h, a) && h.sha256(y) == KeyMR(h, b);
    assert x in BlockInputs(h, a) && y in BlockInputs(h, b);
    if x != y {
      assert Collides(h, x, y);
    } else {
      var u, v := MarshalHeader(a.header), MarshalHeader(b.header);
      assert h.sha256(u) == x[..32] && h.sha256(v) == y[..32];
      assert u in BlockInputs(h, a) && v in BlockInputs(h, b);
      if u != v {
        assert Collides(h, u, v);
      } else {
        HeaderInjective(a.header, b.header);
      }
    }
  }

  /** Equal body roots of bodies of the same length: equal bodies, or a collision. */
  lemma EqualBodyMR(h: Hashing, a: Block, b: Block)
    requires |a.entries| == |b.entries| && BodyMR(h, a.entries) == BodyMR(h, b.entries)
    ensures a.entries == b.entries || CollisionBetween(h, BlockInputs(h, a), BlockInputs(h, b))
  {
    hide Merkle.Root, Merkle.BranchInputs, MarshalHeader, MarshalEntry, KeyInput;
    var la, lb := Leaves(h, a.entries), Leaves(h, b.entries);
    if a.entries != b.entries {
      if la != lb {
        Merkle.RootCommits(h, la, lb);
        CollisionGrows(h, Merkle.BranchInputs(h, la), Merkle.BranchInputs(h, lb), BlockInputs(h, a), BlockInputs(h, b));
      } else {
        var i :| 0 <= i < |a.entries| && a.entries[i] != b.entries[i];
        LeafCollision(h, a, b, i);
      }
    }
  }

  lemma LeafCollision(h: Hashing, a: Block, b: Block, i: nat)
    requires |a.entries| == |b.entries| && i < |a.entries| && a.entries[i] != b.entries[i]
    requires Leaves(h, a.entries) == Leaves(h, b.entries)
    ensures CollisionBetween(h, BlockInputs(h, a), BlockInputs(h, b))
  {
    hide Merkle.Root, Merkle.BranchInputs, MarshalHeader, KeyInput, MarshalEntry;
    var x, y := MarshalEntry(a.entries[i]), MarshalEntry(b.entries[i]);
    assert Leaves(h, a.entries)[i] == h.sha256(x) && Leaves(h, b.entries)[i] == h.sha256(y);
    if x == y {
      EntryInjective(a.entries[i], b.entries[i]);
    }
    assert x in BlockInputs(h, a) && y in BlockInputs(h, b);
    assert Collides(h, x, y);
  }

  /** The newest key Merkle root commits to the whole history: two validated chains with the same
      head are equal block for block, or two strings hashed on the way collide. */
  lemma {:induction false} HistoryBinding(h: Hashing, a: seq<Block>, b: seq<Block>)
    requires a != [] && b != []
    requires Linked(h, a) && Linked(h, b) && Numbered(a) && Numbered(b)
    requires KeyMR(h, a[|a| - 1]) == KeyMR(h, b[|b| - 1])
    ensures a == b || CollisionBetween(h, ChainInputs(h, a), ChainInputs(h, b))
    decreases |a|
  {
    hide KeyMR, BodyMR, DBHash, BlockInputs;
    var x, y := a[|a| - 1], b[|b| - 1];
    assert LinkedAt(h, a, |a| - 1) && LinkedAt(h, b, |b| - 1);
    EqualKeyMR(h, x, y);
    if x.header == y.header {
      EqualBodyMR(h, x, y);
    }
    if x != y {
      CollisionGrows(h, BlockInputs(h, x), BlockInputs(h, y), ChainInputs(h, a), ChainInputs(h, b));
    } else if |a| > 1 {
      var a', b' := a[..|a| - 1], b[..|b| - 1];
      LinkedPrefix(h, a);
      LinkedPrefix(h, b);
      HistoryBinding(h, a', b');
      if a' == b' {
        assert a == a' + [x] && b == b' + [y];
      } else {
        CollisionGrows(h, ChainInputs(h, a'), ChainInputs(h, b'), ChainInputs(h, a), ChainInputs(h, b));
      }
    }
  }

  lemma LinkedPrefix(h: Hashing, a: seq<Block>)
    requires |a| > 1 && Linked(h, a) && Numbered(a)
    ensures Linked(h, a[..|a| - 1]) && Numbered(a[..|a| - 1])
  {
    hide KeyMR, BodyMR, DBHash;
    var p := a[..|a| - 1];
    forall i | 0 <= i < |p|
      ensures LinkedAt(h, p, i)
    {
      assert LinkedAt(h, a, i);
    }
  }

  /** Dropping the count check lets history be rewritten: repeating the last of an odd number of
      entries, with the same header, keeps every root. */
  lemma CountIsNeeded(h: Hashing, b: Block)
    requires |b.entries| > 1 && |b.entries| % 2 == 1 && Linked(h, [b])
    ensures var c := b.(entries := b.entries + [b.entries[|b.entries| - 1]]);
      c != b && Linked(h, [c]) && KeyMR(h, c) == KeyMR(h, b)
  {
    var es := b.entries;
    var c := b.(entries := es + [es[|es| - 1]]);
    assert |c.entries| != |es|;
    Merkle.LastLeafAmbiguity(h, Leaves(h, es));
    assert Leaves(h, c.entries) == Leaves(h, es) + [Leaves(h, es)[|es| - 1]];
    assert LinkedAt(h, [b], 0);
  }
}
