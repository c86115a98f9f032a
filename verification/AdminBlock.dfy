/** Administrative blocks (common/adminBlock.go): the signature over the previous directory block
    and minute markers. */
module AdminBlock {
  import opened Basics
  import opened Entries
  import VarInt

  /** Entry types 1 and 0 of common/constants.go:59-69. */
  datatype ABEntry =
    | DBSignature(identity: Digest, pubKey: Digest, sig: Signature)
    | EndOfMinute(minute: byte)

  datatype Header = Header(adminChainID: Digest, prevLedgerKeyMR: Digest, dbHeight: u32,
                           expansionSize: u64, expansion: Bytes, messageCount: u32, bodySize: u32)

  datatype Block = Block(header: Header, entries: seq<ABEntry>)

  function TypeOf(e: ABEntry): byte {
    if e.DBSignature? then 1 else 0
  }

  function MarshalEntry(e: ABEntry): (b: Bytes)
    ensures b != [] && b[0] == TypeOf(e)
  {
    match e
    case DBSignature(id, pub, sig) => [1] + id + pub + sig
    case EndOfMinute(m) => [0, m]
  }

  /** The type of each kind of entry, and how many bytes it takes with it. */
  lemma EntryFormat(e: ABEntry)
    ensures var d := MarshalEntry(e);
      match e
      case DBSignature(identity, pubKey, sig) => |d| == 129 && d[0] == 0x01 && d[1..33] == identity
          && d[33..65] == pubKey && d[65..] == sig
      case EndOfMinute(m) => d == [0x00, m]
  {
  }

  function MarshalEntries(es: seq<ABEntry>): Bytes {
    if es == [] then [] else MarshalEntry(es[0]) + MarshalEntries(es[1..])
  }

  function MarshalHeader(hd: Header): Bytes {
    var cid: Bytes, prev: Bytes := hd.adminChainID, hd.prevLedgerKeyMR;
    cid + prev + U32(hd.dbHeight) + VarInt.Encoded(hd.expansionSize) + hd.expansion
      + U32(hd.messageCount) + U32(hd.bodySize)
  }

  /** A block whose header counts match what it holds. */
  predicate Consistent(b: Block) {
    |b.header.expansion| == b.header.expansionSize && |b.entries| == b.header.messageCount
  }

  /** common/adminBlock.go:133-144 */
  function Marshal(b: Block): Bytes
    requires Consistent(b)
  {
    MarshalHeader(b.header) + MarshalEntries(b.entries)
  }

  // ---------------------------------------------------------------- sizes

  /** common/adminBlock.go:265-277, 405-413 and 502-508 */
  function HeaderSize(hd: Header): nat {
    32 + 32 + 4 + |VarInt.Encoded(hd.expansionSize)| + hd.expansionSize + 4 + 4
  }

  function EntriesSize(es: seq<ABEntry>): nat {
    if es == [] then 0 else (if es[0].DBSignature? then 1 + 32 + 32 + 64 else 1 + 1) + EntriesSize(es[1..])
  }

  /** The sizes computed without writing are the sizes written. */
  lemma {:induction false} EntriesSizeIsLength(es: seq<ABEntry>)
    ensures EntriesSize(es) == |MarshalEntries(es)|
  {
    if es != [] {
      EntriesSizeIsLength(es[1..]);
    }
  }

  lemma HeaderSizeIsLength(hd: Header)
    requires |hd.expansion| == hd.expansionSize
    ensures HeaderSize(hd) == |MarshalHeader(hd)|
  {
  }

  // ---------------------------------------------------------------- reading

  /** Every panic in here is recovered into an error (common/adminBlock.go:160-164, 280-284). */
  function UnmarshalEntry(d: Bytes): Result<(ABEntry, Bytes)> {
    if d == [] then Err(BadData)
    else if d[0] == 1 then
      if |d| < 129 then Err(BadData)
      else Ok((DBSignature(d[1..33], d[33..65], d[65..129]), d[129..]))
    else if d[0] == 0 then
      if |d| < 2 then Err(BadData) else Ok((EndOfMinute(d[1]), d[2..]))
    else Err(BadData)
  }

  function UnmarshalEntries(count: nat, d: Bytes): Result<(seq<ABEntry>, Bytes)>
    decreases count
  {
    if count == 0 then Ok(([], d))
    else
      match UnmarshalEntry(d)
      case Err(e) => Err(e)
      case Ok((x, rest)) =>
        match UnmarshalEntries(count - 1, rest)
        case Err(e) => Err(e)
        case Ok((xs, end)) => Ok(([x] + xs, end))
  }

  function UnmarshalHeader(d: Bytes): Result<(Header, Bytes)> {
    if |d| < 69 then Err(BadData)
    else
      match VarInt.Decoded(d[68..])
      case Err(e) => Err(BadData)
      case Ok((size, tmp)) =>
        if |tmp| < size + 8 then Err(BadData)
        else
          var t := tmp[size..];
          BEValueBound(d[64..68]); BEValueBound(t[..4]); BEValueBound(t[4..8]); Pow256Values();
          Ok((Header(d[..32], d[32..64], BEValue(d[64..68]), size, tmp[..size],
                     BEValue(t[..4]), BEValue(t[4..8])), t[8..]))
  }

  /** common/adminBlock.go:159-186 */
  function Unmarshal(d: Bytes): Result<(Block, Bytes)> {
    match UnmarshalHeader(d)
    case Err(e) => Err(e)
    case Ok((hd, tail)) =>
      match UnmarshalEntries(hd.messageCount, tail)
      case Err(e) => Err(e)
      case Ok((es, rest)) => Ok((Block(hd, es), rest))
  }

  /** common/adminBlock.go:139-142 */
  method MarshalEntriesBinary(es: seq<ABEntry>) returns (buf: Bytes)
    ensures buf == MarshalEntries(es)
  {
    hide MarshalEntry;
    buf := [];
    for i := 0 to |es|
      invariant buf + MarshalEntries(es[i..]) == MarshalEntries(es)
    {
      assert es[i..][1..] == es[i + 1..];
      buf := buf + MarshalEntry(es[i]);
    }
  }

  lemma AddModulo(a: nat, b: nat)
    ensures (a % TWO_64 + b) % TWO_64 == (a + b) % TWO_64
  {
  }

  /** common/adminBlock.go:147-157, in 64-bit arithmetic. */
  method MarshalledSize(b: Block) returns (size: u64)
    ensures size == (HeaderSize(b.header) + |MarshalEntries(b.entries)|) % TWO_64
    ensures Consistent(b) && |Marshal(b)| < TWO_64 ==> size == |Marshal(b)|
  {
    hide HeaderSize, MarshalHeader, MarshalEntries;
    size := HeaderSize(b.header) % TWO_64;
    for i := 0 to |b.entries|
      invariant size == (HeaderSize(b.header) + EntriesSize(b.entries[..i])) % TWO_64
    {
      var one := if b.entries[i].DBSignature? then 1 + 32 + 32 + 64 else 1 + 1;
      SizeSnoc(b.entries, i);
      AddModulo(HeaderSize(b.header) + EntriesSize(b.entries[..i]), one);
      size := (size + one) % TWO_64;
    }
    assert b.entries[..|b.entries|] == b.entries;
    EntriesSizeIsLength(b.entries);
    if Consistent(b) {
      HeaderSizeIsLength(b.header);
    }
  }

  lemma {:induction false} SizeSnoc(es: seq<ABEntry>, i: nat)
    requires i < |es|
    ensures EntriesSize(es[..i + 1]) == EntriesSize(es[..i]) + if es[i].DBSignature? then 1 + 32 + 32 + 64 else 1 + 1
    decreases i
  {
    if i == 0 {
      assert es[..1] == [es[0]] && es[..0] == [] && [es[0]][1..] == [];
    } else {
      assert es[..i + 1][1..] == es[1..][..i] && es[..i][1..] == es[1..][..i - 1];
      SizeSnoc(es[1..], i - 1);
    }
  }

  /** common/adminBlock.go:173-184 */
  method UnmarshalEntriesBinary(count: u32, data: Bytes) returns (r: Result<(seq<ABEntry>, Bytes)>)
    ensures r == UnmarshalEntries(count, data)
  {
    hide UnmarshalEntry;
    var es: seq<ABEntry>, newData := [], data;
    ResumeNothing(UnmarshalEntries(count, data));
    for i := 0 to count
      invariant UnmarshalEntries(count, data) == Resume(es, UnmarshalEntries(count - i, newData))
    {
      var one := UnmarshalEntry(newData);
      if one.Err? {
        return Err(one.error);
      }
      var (e, rest) := one.value;
      assert UnmarshalEntries(count - i, newData) == Resume([e], UnmarshalEntries(count - i - 1, rest));
      ResumeOneMore(es, e, UnmarshalEntries(count - i - 1, rest));
      newData := rest;
      es := es + [e];
    }
    assert es + [] == es;
    return Ok((es, newData));
  }

  lemma EntryRoundTrip(e: ABEntry, rest: Bytes)
    ensures UnmarshalEntry(MarshalEntry(e) + rest) == Ok((e, rest))
  {
    var d := MarshalEntry(e) + rest;
    match e
    case DBSignature(id, pub, sig) =>
      assert d[1..33] == id && d[33..65] == pub && d[65..129] == sig && d[129..] == rest;
    case EndOfMinute(m) =>
      assert d[2..] == rest;
  }

  lemma {:induction false} EntriesRoundTrip(es: seq<ABEntry>, rest: Bytes)
    ensures UnmarshalEntries(|es|, MarshalEntries(es) + rest) == Ok((es, rest))
    decreases |es|
  {
    hide UnmarshalEntry, MarshalEntry;
    if es == [] {
      assert MarshalEntries(es) + rest == rest;
    } else {
      var more := MarshalEntries(es[1..]) + rest;
      assert MarshalEntries(es) + rest == MarshalEntry(es[0]) + more;
      EntryRoundTrip(es[0], more);
      EntriesRoundTrip(es[1..], rest);
      assert [es[0]] + es[1..] == es;
    }
  }

  lemma HeaderLayout(hd: Header, rest: Bytes)
    ensures var (d, t) := (MarshalHeader(hd) + rest, U32(hd.messageCount) + U32(hd.bodySize) + rest);
      && |d| >= 69
      && d[..32] == hd.adminChainID && d[32..64] == hd.prevLedgerKeyMR && d[64..68] == U32(hd.dbHeight)
      && d[68..] == VarInt.Encoded(hd.expansionSize) + (hd.expansion + t)
  {
    hide U32;
  }

  lemma HeaderRoundTrip(hd: Header, rest: Bytes)
    requires |hd.expansion| == hd.expansionSize
    ensures UnmarshalHeader(MarshalHeader(hd) + rest) == Ok((hd, rest))
  {
    hide MarshalHeader, U32, VarInt.Encoded, VarInt.Decoded, BEValue;
    var t := U32(hd.messageCount) + U32(hd.bodySize) + rest;
    var tmp := hd.expansion + t;
    HeaderLayout(hd, rest);
    VarInt.RoundTrip(hd.expansionSize, tmp);
    assert tmp[..hd.expansionSize] == hd.expansion && tmp[hd.expansionSize..] == t;
    assert t[..4] == U32(hd.messageCount) && t[4..8] == U32(hd.bodySize) && t[8..] == rest;
    U32RoundTrip(hd.dbHeight);
    U32RoundTrip(hd.messageCount);
    U32RoundTrip(hd.bodySize);
  }

  lemma RoundTrip(b: Block, rest: Bytes)
    requires Consistent(b)
    ensures Unmarshal(Marshal(b) + rest) == Ok((b, rest))
  {
    var es := MarshalEntries(b.entries);
    assert Marshal(b) + rest == MarshalHeader(b.header) + (es + rest);
    HeaderRoundTrip(b.header, es + rest);
    EntriesRoundTrip(b.entries, rest);
  }

  // ---------------------------------------------------------------- blocks

  /** common/adminBlock.go:66-91 */
  function CreateAdminBlock(h: Hashing, height: u32, prev: Option<Block>): (b: Block)
    requires prev.Some? ==> Consistent(prev.value)
  {
    var link := match prev
      case None => ZERO_HASH
      case Some(p) => Sha512Half(h, Marshal(p));
    Block(Header(ADMIN_CHAINID, link, height, 0, [], 0, 0), [])
  }

  /** The first 32 bytes of SHA-512 (common/hash.go:124-131). */
  function Sha512Half(h: Hashing, p: Bytes): Digest {
    h.sha512(p)[..32]
  }

  function PartialHash(h: Hashing, b: Block): Digest
    requires Consistent(b)
  {
    h.sha256(Marshal(b))
  }

  /** What newAdminBlock (process/processor.go:1120-1121) fills in before hashing. */
  function Sealed(b: Block): (r: Block)
    requires |b.header.expansion| == b.header.expansionSize && |b.entries| < TWO_32
    ensures Consistent(r) && r.entries == b.entries
  {
    b.(header := b.header.(messageCount := |b.entries|, bodySize := EntriesSize(b.entries) % TWO_32))
  }

  /** The recorded body size is the number of bytes after the header. */
  lemma SealedBodySize(b: Block)
    requires |b.header.expansion| == b.header.expansionSize && |b.entries| < TWO_32
    requires EntriesSize(b.entries) < TWO_32
    ensures |Marshal(Sealed(b))| == HeaderSize(Sealed(b).header) + Sealed(b).header.bodySize
  {
    EntriesSizeIsLength(b.entries);
    HeaderSizeIsLength(Sealed(b).header);
  }

  // ---------------------------------------------------------------- chains of blocks

  /** A header that can stand on top of these blocks: it leads to the last of them by the first half of the
      SHA-512 of all its bytes. */
  predicate Follows(h: Hashing, hd: Header, blocks: seq<Block>) {
    && hd.adminChainID == ADMIN_CHAINID
    && if blocks == [] then hd.prevLedgerKeyMR == ZERO_HASH
       else Consistent(blocks[|blocks| - 1]) && hd.prevLedgerKeyMR == h.sha512(Marshal(blocks[|blocks| - 1]))[..32]
  }

  predicate Linked(h: Hashing, blocks: seq<Block>) {
    forall i :: 0 <= i < |blocks| ==> Follows(h, blocks[i].header, blocks[..i])
  }

  lemma LinkedSnoc(h: Hashing, blocks: seq<Block>, b: Block)
    requires Linked(h, blocks) && Follows(h, b.header, blocks)
    ensures Linked(h, blocks + [b])
  {
    hide Follows;
    var all := blocks + [b];
    forall i | 0 <= i < |all|
      ensures Follows(h, all[i].header, all[..i])
    {
      assert all[..i] == blocks[..i];
      if i == |blocks| {
        assert blocks[..i] == blocks;
      }
    }
  }

  lemma SealedKeepsLink(h: Hashing, open: Block, blocks: seq<Block>)
    requires |open.header.expansion| == open.header.expansionSize && |open.entries| < TWO_32
    requires Follows(h, open.header, blocks)
    ensures Follows(h, Sealed(open).header, blocks)
  {
    hide Marshal, Consistent, EntriesSize;
  }

  lemma NextFollows(h: Hashing, height: u32, blocks: seq<Block>)
    requires blocks != [] && Consistent(blocks[|blocks| - 1])
    ensures Follows(h, CreateAdminBlock(h, height, Some(blocks[|blocks| - 1])).header, blocks)
  {
    hide Marshal, Consistent;
  }

  /** Blocks with right counts, at their heights. */
  predicate Numbered(blocks: seq<Block>) {
    forall i :: 0 <= i < |blocks| ==> Consistent(blocks[i]) && blocks[i].header.dbHeight == i
  }

  /** Two blocks of these chains whose bytes differ and have one half of SHA-512. */
  ghost predicate HalvesCollide(h: Hashing, a: seq<Block>, b: seq<Block>) {
    exists i, j :: 0 <= i < |a| && 0 <= j < |b| && HalfCollides(h, a[i], b[j])
  }

  ghost predicate HalfCollides(h: Hashing, x: Block, y: Block) {
    Consistent(x) && Consistent(y) && Marshal(x) != Marshal(y) && h.sha512(Marshal(x))[..32] == h.sha512(Marshal(y))[..32]
  }

  lemma EqualBytes(a: Block, b: Block)
    requires Consistent(a) && Consistent(b) && Marshal(a) == Marshal(b)
    ensures a == b
  {
    RoundTrip(a, []);
    RoundTrip(b, []);
    hide Marshal, Unmarshal;
  }

  lemma HalvesGrow(h: Hashing, a: seq<Block>, b: seq<Block>)
    requires a != [] && b != [] && HalvesCollide(h, a[..|a| - 1], b[..|b| - 1])
    ensures HalvesCollide(h, a, b)
  {
    hide HalfCollides;
    var i, j :| 0 <= i < |a| - 1 && 0 <= j < |b| - 1 && HalfCollides(h, a[..|a| - 1][i], b[..|b| - 1][j]);
    assert HalfCollides(h, a[i], b[j]);
  }

  /** The newest block commits to the whole chain: linked and numbered chains that end in the same block are
      equal, or two of their blocks have one half of SHA-512. */
  lemma {:induction false} HistoryBinding(h: Hashing, a: seq<Block>, b: seq<Block>)
    requires a != [] && b != [] && Linked(h, a) && Linked(h, b) && Numbered(a) && Numbered(b)
    requires a[|a| - 1] == b[|b| - 1]
    ensures a == b || HalvesCollide(h, a, b)
    decreases |a|
  {
    hide Marshal, Consistent, HalvesCollide, Linked;
    var n := |a| - 1;
    assert |b| == |a|;
    if n == 0 {
      assert a == [a[0]] && b == [b[0]];
    } else {
      LastFollows(h, a);
      LastFollows(h, b);
      OneBack(h, a, b);
      if a[n - 1] == b[n - 1] {
        HistoryBinding(h, a[..n], b[..n]);
        if a[..n] == b[..n] {
          assert a == a[..n] + [a[n]] && b == b[..n] + [b[n]];
        } else {
          HalvesGrow(h, a, b);
        }
      }
    }
  }

  lemma OneBack(h: Hashing, a: seq<Block>, b: seq<Block>)
    requires |a| == |b| > 1 && Consistent(a[|a| - 2]) && Consistent(b[|a| - 2])
    requires h.sha512(Marshal(a[|a| - 2]))[..32] == h.sha512(Marshal(b[|a| - 2]))[..32]
    ensures a[|a| - 2] == b[|a| - 2] || HalvesCollide(h, a, b)
  {
    hide Marshal, Consistent;
    var n := |a| - 2;
    if Marshal(a[n]) == Marshal(b[n]) {
      EqualBytes(a[n], b[n]);
    } else {
      assert HalfCollides(h, a[n], b[n]);
    }
  }

  lemma LastFollows(h: Hashing, blocks: seq<Block>)
    requires |blocks| > 1 && Linked(h, blocks) && Numbered(blocks)
    ensures var n := |blocks| - 1;
      && Linked(h, blocks[..n]) && Numbered(blocks[..n]) && Consistent(blocks[n - 1])
      && blocks[n].header.prevLedgerKeyMR == h.sha512(Marshal(blocks[n - 1]))[..32]
  {
    hide Consistent, Marshal;
    var n := |blocks| - 1;
    assert Follows(h, blocks[n].header, blocks[..n]);
    forall i | 0 <= i < n
      ensures Follows(h, blocks[..n][i].header, blocks[..n][..i])
    {
      assert blocks[..n][..i] == blocks[..i];
    }
  }
}
