/** Entry credit blocks (common/ecblock.go): a header with a variable expansion area and a body of
    tagged records of five kinds. */
module ECBlock {
  import opened Basics
  import opened Entries
  import VarInt

  datatype ECEntry =
    | ServerIndex(number: byte)
    | Minute(number: byte)
    | ChainCommit(chain: CommitChain)
    | EntryCommit(entry: CommitEntry)
    | Increase(increase: IncreaseBalance)

  datatype ECHeader = ECHeader(ecChainID: Digest, bodyHash: Digest, prevHeaderHash: Digest, prevLedgerKeyMR: Digest,
                               ebHeight: u32, expansion: Bytes, objectCount: u64, bodySize: u64)

  datatype Block = Block(header: ECHeader, body: seq<ECEntry>)

  // ---------------------------------------------------------------- the body

  function ECID(e: ECEntry): byte {
    match e
    case ServerIndex(_) => 0
    case Minute(_) => 1
    case ChainCommit(_) => 2
    case EntryCommit(_) => 3
    case Increase(_) => 4
  }

  function MarshalECEntry(e: ECEntry): Bytes {
    match e
    case ServerIndex(n) => [n]
    case Minute(n) => [n]
    case ChainCommit(c) => MarshalCommitChain(c)
    case EntryCommit(c) => MarshalCommitEntry(c)
    case Increase(b) => MarshalIncrease(b)
  }

  function MarshalBody(body: seq<ECEntry>): Bytes {
    if body == [] then [] else [ECID(body[0])] + MarshalECEntry(body[0]) + MarshalBody(body[1..])
  }

  /** One record after its tag (the switch of common/ecblock.go:205-267). */
  function UnmarshalRecord(id: byte, d: Bytes): Result<(ECEntry, Bytes)> {
    if id == 0 then
      if |d| < 1 then Err(EOF) else Ok((ServerIndex(d[0]), d[1..]))
    else if id == 1 then
      if |d| < 1 then Err(EOF) else Ok((Minute(d[0]), d[1..]))
    else if id == 2 then
      match UnmarshalCommitChain(d)
      case Err(e) => Err(e)
      case Ok((c, rest)) => Ok((ChainCommit(c), rest))
    else if id == 3 then
      match UnmarshalCommitEntry(d)
      case Err(e) => Err(e)
      case Ok((c, rest)) => Ok((EntryCommit(c), rest))
    else if id == 4 then
      match UnmarshalIncrease(d)
      case Err(e) => Err(e)
      case Ok((b, rest)) => Ok((Increase(b), rest))
    else Err(BadData)
  }

  function UnmarshalBody(count: nat, d: Bytes): Result<(seq<ECEntry>, Bytes)>
    decreases count
  {
    if count == 0 then Ok(([], d))
    else if d == [] then Err(EOF)
    else
      match UnmarshalRecord(d[0], d[1..])
      case Err(e) => Err(e)
      case Ok((x, rest)) =>
        match UnmarshalBody(count - 1, rest)
        case Err(e) => Err(e)
        case Ok((xs, end)) => Ok(([x] + xs, end))
  }

  /** The tag of each kind of record, and how many bytes it takes with it. */
  lemma RecordFormat(e: ECEntry)
    ensures var d := MarshalBody([e]);
      && d == [ECID(e)] + MarshalECEntry(e)
      && match e
         case ServerIndex(n) => d == [0x00, n]
         case Minute(n) => d == [0x01, n]
         case ChainCommit(c) => d == [0x02] + MarshalCommitChain(c) && |d| == 201
         case EntryCommit(c) => d == [0x03] + MarshalCommitEntry(c) && |d| == 137
         case Increase(b) => d == [0x04] + MarshalIncrease(b)
  {
    assert [e][1..] == [] && MarshalBody([e][1..]) == [];
  }

  lemma MarshalBodyStep(body: seq<ECEntry>, i: nat)
    requires i < |body|
    ensures MarshalBody(body[i..]) == [ECID(body[i])] + MarshalECEntry(body[i]) + MarshalBody(body[i + 1..])
  {
    assert body[i..][1..] == body[i + 1..];
  }

  /** common/ecblock.go:138-151 */
  method MarshalBodyBinary(body: seq<ECEntry>) returns (buf: Bytes)
    ensures buf == MarshalBody(body)
  {
    hide ECID, MarshalECEntry;
    buf := [];
    var i := 0;
    while i < |body|
      invariant 0 <= i <= |body|
      invariant buf + MarshalBody(body[i..]) == MarshalBody(body)
    {
      hide MarshalBody;
      MarshalBodyStep(body, i);
      var p := MarshalECEntry(body[i]);
      buf := buf + [ECID(body[i])];
      buf := buf + p;
      i := i + 1;
    }
  }

  lemma ResumeStep(entries: seq<ECEntry>, count: nat, buf: Bytes)
    ensures Resume([], UnmarshalBody(count, buf)) == UnmarshalBody(count, buf)
    ensures count == 0 ==> Resume(entries, UnmarshalBody(count, buf)) == Ok((entries, buf))
    ensures count > 0 && buf == [] ==> UnmarshalBody(count, buf) == Err(EOF)
    ensures count > 0 && buf != [] ==>
      Resume(entries, UnmarshalBody(count, buf)) ==
        match UnmarshalRecord(buf[0], buf[1..])
        case Err(e) => Err(e)
        case Ok((x, rest)) => Resume(entries + [x], UnmarshalBody(count - 1, rest))
  {
    if UnmarshalBody(count, buf).Ok? {
      var xs := UnmarshalBody(count, buf).value.0;
      assert [] + xs == xs;
    }
    assert entries + [] == entries;
    if count > 0 && buf != [] {
      match UnmarshalRecord(buf[0], buf[1..])
      case Err(_) =>
      case Ok((x, rest)) =>
        if UnmarshalBody(count - 1, rest).Ok? {
          var xs := UnmarshalBody(count - 1, rest).value.0;
          assert entries + ([x] + xs) == entries + [x] + xs;
        }
    }
  }

  /** common/ecblock.go:195-272 */
  method UnmarshalBodyBinary(count: u64, data: Bytes) returns (r: Result<(seq<ECEntry>, Bytes)>)
    ensures r == UnmarshalBody(count, data)
  {
    hide UnmarshalBody, UnmarshalRecord;
    var entries: seq<ECEntry> := [];
    var buf := data;
    var i := 0;
    ResumeStep([], count, data);
    while i < count
      invariant 0 <= i <= count
      invariant UnmarshalBody(count, data) == Resume(entries, UnmarshalBody(count - i, buf))
    {
      ResumeStep(entries, count - i, buf);
      if buf == [] {
        return Err(EOF);
      }
      var record := UnmarshalRecord(buf[0], buf[1..]);
      match record {
        case Err(e) =>
          return Err(e);
        case Ok((x, rest)) =>
          entries := entries + [x];
          buf := rest;
          i := i + 1;
      }
    }
    ResumeStep(entries, 0, buf);
    return Ok((entries, buf));
  }

  lemma RecordRoundTrip(e: ECEntry, rest: Bytes)
    ensures UnmarshalRecord(ECID(e), MarshalECEntry(e) + rest) == Ok((e, rest))
  {
    match e
    case ServerIndex(n) => assert ([n] + rest)[1..] == rest;
    case Minute(n) => assert ([n] + rest)[1..] == rest;
    case ChainCommit(c) => CommitChainRoundTrip(c, rest);
    case EntryCommit(c) => CommitEntryRoundTrip(c, rest);
    case Increase(b) => IncreaseRoundTrip(b, rest);
  }

  /** Tagged records of different lengths: the reader finds every boundary again. */
  lemma {:induction false} BodyRoundTrip(body: seq<ECEntry>, rest: Bytes)
    ensures UnmarshalBody(|body|, MarshalBody(body) + rest) == Ok((body, rest))
    decreases |body|
  {
    hide ECID, MarshalECEntry, UnmarshalRecord;
    if body == [] {
      assert MarshalBody(body) + rest == rest;
    } else {
      hide MarshalBody;
      var more := MarshalBody(body[1..]) + rest;
      var d := MarshalBody(body) + rest;
      BodyLayout(body, rest);
      RecordRoundTrip(body[0], more);
      BodyRoundTrip(body[1..], rest);
      assert [body[0]] + body[1..] == body;
    }
  }

  lemma TagFirst(id: byte, p: Bytes, more: Bytes, rest: Bytes)
    ensures var d := [id] + p + more + rest; d[0] == id && d[1..] == p + (more + rest)
  {
  }

  lemma BodyLayout(body: seq<ECEntry>, rest: Bytes)
    requires body != []
    ensures var d := MarshalBody(body) + rest;
      && d != [] && d[0] == ECID(body[0])
      && d[1..] == MarshalECEntry(body[0]) + (MarshalBody(body[1..]) + rest)
  {
    hide ECID, MarshalECEntry;
    TagFirst(ECID(body[0]), MarshalECEntry(body[0]), MarshalBody(body[1..]), rest);
  }

  // ---------------------------------------------------------------- the header

  function FourHashes(a: Digest, b: Digest, c: Digest, d: Digest): (r: Bytes)
    ensures |r| == 128
    ensures r[..32] == a && r[32..64] == b && r[64..96] == c && r[96..128] == d
  {
    var x: Bytes, y: Bytes, z: Bytes, w: Bytes := a, b, c, d;
    x + y + z + w
  }

  /** common/ecblock.go:153-193 */
  function MarshalHeader(hd: ECHeader): Bytes
    requires |hd.expansion| < TWO_64
  {
    FourHashes(hd.ecChainID, hd.bodyHash, hd.prevHeaderHash, hd.prevLedgerKeyMR) + U32(hd.ebHeight)
      + VarInt.Encoded(|hd.expansion|) + hd.expansion + U64(hd.objectCount) + U64(hd.bodySize)
  }

  /** common/ecblock.go:279-329. A truncated hash is read short, and the next read fails; so does the
      object count after a short expansion area. */
  function UnmarshalHeader(d: Bytes): Result<(ECHeader, Bytes)> {
    if |d| < 132 then Err(EOF)
    else
      match VarInt.Decoded(d[132..])
      case Err(e) => Err(e)
      case Ok((hesize, tmp)) =>
        if |tmp| < hesize + 16 then Err(EOF)
        else
          var t := tmp[hesize..];
          BEValueBound(d[128..132]); BEValueBound(t[..8]); BEValueBound(t[8..16]); Pow256Values();
          Ok((ECHeader(d[..32], d[32..64], d[64..96], d[96..128], BEValue(d[128..132]), tmp[..hesize],
                       BEValue(t[..8]), BEValue(t[8..16])), t[16..]))
  }

  /** Where each part of the header lies. */
  lemma HeaderLayout(hd: ECHeader, rest: Bytes)
    requires |hd.expansion| < TWO_64
    ensures var (d, t) := (MarshalHeader(hd) + rest, U64(hd.objectCount) + U64(hd.bodySize) + rest);
      && |d| >= 132
      && d[..128] == FourHashes(hd.ecChainID, hd.bodyHash, hd.prevHeaderHash, hd.prevLedgerKeyMR)
      && d[128..132] == U32(hd.ebHeight)
      && d[132..] == VarInt.Encoded(|hd.expansion|) + (hd.expansion + t)
  {
    hide FourHashes, U32, U64, VarInt.Encoded;
  }

  lemma FirstHashes(d: Bytes, a: Digest, b: Digest, c: Digest, e: Digest)
    requires |d| >= 128 && d[..128] == FourHashes(a, b, c, e)
    ensures d[..32] == a && d[32..64] == b && d[64..96] == c && d[96..128] == e
  {
    var f := FourHashes(a, b, c, e);
    assert d[..32] == f[..32] && d[32..64] == f[32..64];
    assert d[64..96] == f[64..96] && d[96..128] == f[96..128];
  }

  lemma HeaderRoundTrip(hd: ECHeader, rest: Bytes)
    requires |hd.expansion| < TWO_64
    ensures UnmarshalHeader(MarshalHeader(hd) + rest) == Ok((hd, rest))
  {
    hide MarshalHeader, FourHashes, U32, U64, VarInt.Encoded, VarInt.Decoded, BEValue;
    var d := MarshalHeader(hd) + rest;
    var t := U64(hd.objectCount) + U64(hd.bodySize) + rest;
    var tmp := hd.expansion + t;
    HeaderLayout(hd, rest);
    FirstHashes(d, hd.ecChainID, hd.bodyHash, hd.prevHeaderHash, hd.prevLedgerKeyMR);
    VarInt.RoundTrip(|hd.expansion|, tmp);
    assert tmp[..|hd.expansion|] == hd.expansion && tmp[|hd.expansion|..] == t;
    assert t[..8] == U64(hd.objectCount) && t[8..16] == U64(hd.bodySize) && t[16..] == rest;
    U32RoundTrip(hd.ebHeight);
    U64RoundTrip(hd.objectCount);
    U64RoundTrip(hd.bodySize);
  }

  // ---------------------------------------------------------------- blocks

  /** A block whose lengths the header's 64-bit fields can hold. */
  predicate Sizable(b: Block) {
    |b.header.expansion| < TWO_64 && |b.body| < TWO_64 && |MarshalBody(b.body)| < TWO_64
  }

  /** common/ecblock.go:103-115 */
  function Built(h: Hashing, b: Block): (r: Block)
    requires Sizable(b)
    ensures r.body == b.body && Sizable(r)
  {
    var p := MarshalBody(b.body);
    b.(header := b.header.(bodyHash := h.sha256(p), objectCount := |b.body|, bodySize := |p|))
  }

  /** The header says what the body is. */
  predicate HeaderMatches(h: Hashing, b: Block) {
    Sizable(b) && Built(h, b) == b
  }

  lemma BuiltMatches(h: Hashing, open: Block)
    requires Sizable(open)
    ensures HeaderMatches(h, Built(h, open))
  {
    hide MarshalBody;
  }

  /** common/ecblock.go:80-101: writing a block also builds its header. */
  function Marshal(h: Hashing, b: Block): Bytes
    requires Sizable(b)
  {
    MarshalHeader(Built(h, b).header) + MarshalBody(b.body)
  }

  function Unmarshal(d: Bytes): Result<(Block, Bytes)> {
    match UnmarshalHeader(d)
    case Err(e) => Err(e)
    case Ok((hd, tail)) =>
      match UnmarshalBody(hd.objectCount, tail)
      case Err(e) => Err(e)
      case Ok((body, rest)) => Ok((Block(hd, body), rest))
  }

  function HeaderHash(h: Hashing, b: Block): Digest
    requires |b.header.expansion| < TWO_64
  {
    h.sha256(MarshalHeader(b.header))
  }

  function FullHash(h: Hashing, b: Block): Digest
    requires Sizable(b)
  {
    h.sha256(Marshal(h, b))
  }

  function NewECBlock(): Block {
    Block(ECHeader(EC_CHAINID, ZERO_HASH, ZERO_HASH, ZERO_HASH, 0, [], 0, 0), [])
  }

  /** common/ecblock.go:45-58 */
  function NextECBlock(h: Hashing, prev: Block): Block
    requires Sizable(prev)
  {
    var e := NewECBlock();
    e.(header := e.header.(prevHeaderHash := HeaderHash(h, prev), prevLedgerKeyMR := FullHash(h, prev),
                           ebHeight := (prev.header.ebHeight + 1) % TWO_32))
  }

  /** The reader trusts the header: a body of as many records as it counts comes back with it. */
  lemma PartsRoundTrip(hd: ECHeader, body: seq<ECEntry>, rest: Bytes)
    requires |hd.expansion| < TWO_64 && |body| == hd.objectCount
    ensures Unmarshal(MarshalHeader(hd) + (MarshalBody(body) + rest)) == Ok((Block(hd, body), rest))
  {
    hide MarshalHeader, MarshalBody, UnmarshalHeader, UnmarshalBody;
    HeaderRoundTrip(hd, MarshalBody(body) + rest);
    BodyRoundTrip(body, rest);
  }

  /** Header, tagged entries and whatever follows all come back, for every block. */
  lemma RoundTrip(h: Hashing, b: Block, rest: Bytes)
    requires Sizable(b)
    ensures Unmarshal(Marshal(h, b) + rest) == Ok((Built(h, b), rest))
  {
    var hd, body := Built(h, b).header, MarshalBody(b.body);
    assert Marshal(h, b) + rest == MarshalHeader(hd) + (body + rest);
    PartsRoundTrip(hd, b.body, rest);
  }

  /** So two blocks with the same bytes are the same block, up to what building a header sets. */
  lemma MarshalInjective(h: Hashing, a: Block, b: Block)
    requires Sizable(a) && Sizable(b) && Marshal(h, a) == Marshal(h, b)
    ensures Built(h, a) == Built(h, b)
  {
    RoundTrip(h, a, []);
    RoundTrip(h, b, []);
    assert Marshal(h, a) + [] == Marshal(h, a) && Marshal(h, b) + [] == Marshal(h, b);
  }

  // ---------------------------------------------------------------- chains of blocks

  /** The header leads to the block before it, by the hash of that block's header and the hash of all its
      bytes. */
  predicate LinksTo(h: Hashing, hd: ECHeader, prev: Block) {
    && |prev.header.expansion| < TWO_64
    && hd.prevHeaderHash == h.sha256(MarshalHeader(prev.header))
    && hd.prevLedgerKeyMR == h.sha256(MarshalHeader(prev.header) + MarshalBody(prev.body))
  }

  /** A header that can stand on top of these blocks. */
  predicate Follows(h: Hashing, hd: ECHeader, blocks: seq<Block>) {
    && hd.ecChainID == EC_CHAINID
    && if blocks == [] then hd.prevHeaderHash == ZERO_HASH && hd.prevLedgerKeyMR == ZERO_HASH
       else LinksTo(h, hd, blocks[|blocks| - 1])
  }

  predicate Linked(h: Hashing, blocks: seq<Block>) {
    forall i :: 0 <= i < |blocks| ==> Follows(h, blocks[i].header, blocks[..i])
  }

  lemma LinkedSnoc(h: Hashing, blocks: seq<Block>, b: Block)
    requires Linked(h, blocks) && Follows(h, b.header, blocks)
    ensures Linked(h, blocks + [b])
  {
    hide Follows;
    var all := blocks + [b];
    forall i | 0 <= i < |all|
      ensures Follows(h, all[i].header, all[..i])
    {
      assert all[..i] == blocks[..i];
      if i == |blocks| {
        assert blocks[..i] == blocks;
      }
    }
  }

  /** Building a header leaves its links. */
  lemma BuiltKeepsLinks(h: Hashing, open: Block, blocks: seq<Block>)
    requires Sizable(open) && Follows(h, open.header, blocks)
    ensures Follows(h, Built(h, open).header, blocks)
  {
    hide LinksTo, Sizable;
    if blocks != [] {
      SameLinks(h, open.header, Built(h, open).header, blocks[|blocks| - 1]);
    }
  }

  lemma SameLinks(h: Hashing, a: ECHeader, b: ECHeader, prev: Block)
    requires LinksTo(h, a, prev) && b.prevHeaderHash == a.prevHeaderHash && b.prevLedgerKeyMR == a.prevLedgerKeyMR
    ensures LinksTo(h, b, prev)
  {
    hide MarshalHeader, MarshalBody;
  }

  /** The next open block links to a block whose header says what its body is. */
  lemma NextFollows(h: Hashing, blocks: seq<Block>)
    requires blocks != [] && HeaderMatches(h, blocks[|blocks| - 1])
    ensures Sizable(blocks[|blocks| - 1])
    ensures Follows(h, NextECBlock(h, blocks[|blocks| - 1]).header, blocks)
  {
    hide MarshalHeader, MarshalBody;
  }

  /** Blocks whose headers say what their bodies are, at their heights. */
  predicate Numbered(h: Hashing, blocks: seq<Block>) {
    forall i :: 0 <= i < |blocks| ==> HeaderMatches(h, blocks[i]) && blocks[i].header.ebHeight == i
  }

  /** The strings hashed for one block. */
  function BlockInputs(b: Block): set<Bytes> {
    if |b.header.expansion| < TWO_64 then {MarshalHeader(b.header), MarshalBody(b.body)} else {}
  }

  function ChainInputs(blocks: seq<Block>): set<Bytes> {
    if blocks == [] then {} else ChainInputs(blocks[..|blocks| - 1]) + BlockInputs(blocks[|blocks| - 1])
  }

  /** Two headers with one hash are the same, and so are their bodies, or something collides. */
  lemma EqualHeaderHash(h: Hashing, a: Block, b: Block)
    requires HeaderMatches(h, a) && HeaderMatches(h, b)
    requires h.sha256(MarshalHeader(a.header)) == h.sha256(MarshalHeader(b.header))
    ensures a == b || CollisionBetween(h, BlockInputs(a), BlockInputs(b))
  {
    hide MarshalHeader, MarshalBody, UnmarshalHeader, UnmarshalBody;
    var x, y := MarshalHeader(a.header), MarshalHeader(b.header);
    assert x in BlockInputs(a) && y in BlockInputs(b);
    if x != y {
      assert Collides(h, x, y);
    } else {
      HeaderRoundTrip(a.header, []);
      HeaderRoundTrip(b.header, []);
      EqualBodyHash(h, a, b);
    }
  }

  lemma EqualBodyHash(h: Hashing, a: Block, b: Block)
    requires HeaderMatches(h, a) && HeaderMatches(h, b) && a.header == b.header
    ensures a == b || CollisionBetween(h, BlockInputs(a), BlockInputs(b))
  {
    hide MarshalHeader, MarshalBody, UnmarshalBody;
    var x, y := MarshalBody(a.body), MarshalBody(b.body);
    assert x in BlockInputs(a) && y in BlockInputs(b);
    assert h.sha256(x) == a.header.bodyHash == h.sha256(y) && |a.body| == a.header.objectCount == |b.body|;
    if x != y {
      assert Collides(h, x, y);
    } else {
      BodyRoundTrip(a.body, []);
      BodyRoundTrip(b.body, []);
    }
  }

  lemma LastFollows(h: Hashing, blocks: seq<Block>)
    requires |blocks| > 1 && Linked(h, blocks) && Numbered(h, blocks)
    ensures var n := |blocks| - 1;
      && Linked(h, blocks[..n]) && Numbered(h, blocks[..n]) && |blocks[n - 1].header.expansion| < TWO_64
      && blocks[n].header.prevHeaderHash == h.sha256(MarshalHeader(blocks[n - 1].header))
  {
    hide HeaderMatches, MarshalHeader, MarshalBody;
    var n := |blocks| - 1;
    assert Follows(h, blocks[n].header, blocks[..n]);
    forall i | 0 <= i < n
      ensures Follows(h, blocks[..n][i].header, blocks[..n][..i])
    {
      assert blocks[..n][..i] == blocks[..i];
    }
  }

  lemma MatchesFits(h: Hashing, b: Block)
    requires HeaderMatches(h, b)
    ensures |b.header.expansion| < TWO_64
  {
  }

  /** The hash of the newest header commits to the whole chain: two linked and numbered chains with one are
      equal block for block, or two strings hashed for them collide. */
  lemma {:induction false} HistoryBinding(h: Hashing, a: seq<Block>, b: seq<Block>)
    requires a != [] && b != [] && Linked(h, a) && Linked(h, b) && Numbered(h, a) && Numbered(h, b)
    requires |a[|a| - 1].header.expansion| < TWO_64 && |b[|b| - 1].header.expansion| < TWO_64
    requires h.sha256(MarshalHeader(a[|a| - 1].header)) == h.sha256(MarshalHeader(b[|b| - 1].header))
    ensures a == b || CollisionBetween(h, ChainInputs(a), ChainInputs(b))
    decreases |a|
  {
    hide HeaderMatches, Linked, BlockInputs, MarshalHeader, CollisionBetween;
    var m, n := |a| - 1, |b| - 1;
    EqualHeaderHash(h, a[m], b[n]);
    if a[m] != b[n] {
      CollisionGrows(h, BlockInputs(a[m]), BlockInputs(b[n]), ChainInputs(a), ChainInputs(b));
    } else if m > 0 {
      LastFollows(h, a);
      LastFollows(h, b);
      HistoryBinding(h, a[..m], b[..n]);
      if a[..m] == b[..n] {
        assert a == a[..m] + [a[m]] && b == b[..n] + [b[n]];
      } else {
        CollisionGrows(h, ChainInputs(a[..m]), ChainInputs(b[..n]), ChainInputs(a), ChainInputs(b));
      }
    } else {
      assert a == [a[0]] && b == [b[0]];
    }
  }
}
