/** Entry blocks (common/eblock.go): the hashes of one chain's entries over ten minutes, with a
    marker after the entries of each minute. */
module EBlock {
  import opened Basics
  import opened Entries
  import Merkle

  datatype Header = Header(chainID: Digest, bodyMR: Digest, prevKeyMR: Digest, prevLedgerKeyMR: Digest,
                           ebSequence: u32, ebHeight: u32, entryCount: u32)

  datatype Block = Block(header: Header, body: seq<Digest>)

  function NewEBlock(): Block {
    Block(Header(ZERO_HASH, ZERO_HASH, ZERO_HASH, ZERO_HASH, 0, 0, 0), [])
  }

  /** common/eblock.go:73-79 */
  function MinuteMarker(m: byte): (d: Digest)
    ensures d[31] == m
  {
    Zeros(31) + [m]
  }

  /** common/hash.go:178-185: the last byte is not looked at. */
  predicate IsMinuteMarker(d: Digest) {
    d[..31] == Zeros(31)
  }

  lemma MarkerFacts(m: byte)
    ensures IsMinuteMarker(MinuteMarker(m))
    ensures forall d: Digest :: IsMinuteMarker(d) && d[31] == m ==> d == MinuteMarker(m)
  {
    assert MinuteMarker(m)[..31] == Zeros(31);
    forall d: Digest | IsMinuteMarker(d) && d[31] == m
      ensures d == MinuteMarker(m)
    {
      assert d == d[..31] + [d[31]];
    }
  }

  // ---------------------------------------------------------------- header and hashes

  function MarshalHeader(hd: Header): (b: Bytes)
    ensures |b| == 140
  {
    var cid: Bytes, mr: Bytes, prev: Bytes, full: Bytes := hd.chainID, hd.bodyMR, hd.prevKeyMR, hd.prevLedgerKeyMR;
    cid + mr + prev + full + U32(hd.ebSequence) + U32(hd.ebHeight) + U32(hd.entryCount)
  }

  function MarshalBody(body: seq<Digest>): (b: Bytes)
    ensures |b| == 32 * |body|
  {
    if body == [] then [] else body[0] + MarshalBody(body[1..])
  }

  /** common/eblock.go:84-88. Marker included, an empty body has no Merkle root. */
  function Built(h: Hashing, b: Block): (r: Block)
    requires b.body != []
    ensures r.body == b.body
  {
    b.(header := b.header.(bodyMR := Merkle.Root(h, b.body), entryCount := |b.body| % TWO_32))
  }

  function Marshal(h: Hashing, b: Block): Bytes
    requires b.body != []
  {
    MarshalHeader(Built(h, b).header) + MarshalBody(b.body)
  }

  /** common/eblock.go:92-98 */
  function FullHash(h: Hashing, b: Block): Digest
    requires b.body != []
  {
    h.sha256(Marshal(h, b))
  }

  /** common/eblock.go:104-113 */
  function KeyMR(h: Hashing, b: Block): Digest
    requires b.body != []
  {
    h.sha256(h.sha256(MarshalHeader(Built(h, b).header)) + Merkle.Root(h, b.body))
  }

  // ---------------------------------------------------------------- reading

  /** One buf.Read into a 32-byte slice: a short read leaves the slice's old tail in place. */
  function ReadHash(hash: Digest, d: Bytes): (Digest, Bytes)
    requires d != []
  {
    if |d| >= 32 then (d[..32], d[32..]) else (d + hash[|d|..], [])
  }

  /** common/eblock.go:203-219 */
  function ReadBody(count: nat, hash: Digest, d: Bytes): Result<(seq<Digest>, Bytes)>
    decreases count
  {
    if count == 0 then Ok(([], d))
    else if d == [] then Err(EOF)
    else
      var (x, rest) := ReadHash(hash, d);
      match ReadBody(count - 1, x, rest)
      case Err(e) => Err(e)
      case Ok((xs, end)) => Ok(([x] + xs, end))
  }

  /** common/eblock.go:161-169 */
  method MarshalBodyBinary(body: seq<Digest>) returns (buf: Bytes)
    ensures buf == MarshalBody(body)
  {
    buf := [];
    for i := 0 to |body|
      invariant buf + MarshalBody(body[i..]) == MarshalBody(body)
    {
      assert body[i..][1..] == body[i + 1..];
      buf := buf + body[i];
    }
  }

  /** common/eblock.go:203-219: the one buffer that every hash is read into. */
  method UnmarshalBodyBinary(count: u32, data: Bytes) returns (r: Result<(seq<Digest>, Bytes)>)
    ensures r == ReadBody(count, ZERO_HASH, data)
  {
    var body: seq<Digest>, hash: Digest, buf := [], ZERO_HASH, data;
    ResumeNothing(ReadBody(count, ZERO_HASH, data));
    for i := 0 to count
      invariant ReadBody(count, ZERO_HASH, data) == Resume(body, ReadBody(count - i, hash, buf))
    {
      if buf == [] {
        return Err(EOF);
      }
      ReadBodyStep(count - i, hash, buf);
      var (x, rest) := ReadHash(hash, buf);
      ResumeOneMore(body, x, ReadBody(count - i - 1, x, rest));
      hash, buf := x, rest;
      body := body + [x];
    }
    assert body + [] == body;
    return Ok((body, buf));
  }

  lemma ReadBodyStep(count: nat, hash: Digest, d: Bytes)
    requires count > 0 && d != []
    ensures var (x, rest) := ReadHash(hash, d); ReadBody(count, hash, d) == Resume([x], ReadBody(count - 1, x, rest))
  {
  }

  /** common/eblock.go:227-271: a short hash makes the next read fail. */
  function UnmarshalHeader(d: Bytes): Result<(Header, Bytes)> {
    if |d| < 140 then Err(EOF)
    else
      BEValueBound(d[128..132]); BEValueBound(d[132..136]); BEValueBound(d[136..140]); Pow256Values();
      Ok((Header(d[..32], d[32..64], d[64..96], d[96..128],
                 BEValue(d[128..132]), BEValue(d[132..136]), BEValue(d[136..140])), d[140..]))
  }

  function Unmarshal(d: Bytes): Result<(Block, Bytes)> {
    match UnmarshalHeader(d)
    case Err(e) => Err(e)
    case Ok((hd, tail)) =>
      match ReadBody(hd.entryCount, ZERO_HASH, tail)
      case Err(e) => Err(e)
      case Ok((body, rest)) => Ok((Block(hd, body), rest))
  }

  /** Where the fields of the header lie. */
  lemma HeaderLayout(hd: Header)
    ensures var d := MarshalHeader(hd);
      && d[..32] == hd.chainID && d[32..64] == hd.bodyMR && d[64..96] == hd.prevKeyMR && d[96..128] == hd.prevLedgerKeyMR
      && d[128..132] == U32(hd.ebSequence) && d[132..136] == U32(hd.ebHeight) && d[136..140] == U32(hd.entryCount)
  {
    hide U32;
  }

  lemma HeaderRoundTrip(hd: Header, rest: Bytes)
    ensures UnmarshalHeader(MarshalHeader(hd) + rest) == Ok((hd, rest))
  {
    hide BEValue, U32, MarshalHeader;
    var m, d := MarshalHeader(hd), MarshalHeader(hd) + rest;
    HeaderLayout(hd);
    assert d[..32] == m[..32] && d[32..64] == m[32..64] && d[64..96] == m[64..96] && d[96..128] == m[96..128];
    assert d[128..132] == m[128..132] && d[132..136] == m[132..136] && d[136..140] == m[136..140] && d[140..] == rest;
    U32RoundTrip(hd.ebSequence);
    U32RoundTrip(hd.ebHeight);
    U32RoundTrip(hd.entryCount);
  }

  lemma {:induction false} BodyRoundTrip(body: seq<Digest>, hash: Digest, rest: Bytes)
    ensures ReadBody(|body|, hash, MarshalBody(body) + rest) == Ok((body, rest))
    decreases |body|
  {
    if body == [] {
      assert MarshalBody(body) + rest == rest;
    } else {
      var more := MarshalBody(body[1..]) + rest;
      var d := MarshalBody(body) + rest;
      assert d == body[0] + more;
      assert d[..32] == body[0] && d[32..] == more;
      BodyRoundTrip(body[1..], body[0], rest);
      assert [body[0]] + body[1..] == body;
    }
  }

  /** Header, entries and markers, and whatever follows, all come back. */
  lemma RoundTrip(h: Hashing, b: Block, rest: Bytes)
    requires 0 < |b.body| < TWO_32
    ensures Unmarshal(Marshal(h, b) + rest) == Ok((Built(h, b), rest))
  {
    hide MarshalHeader, MarshalBody, UnmarshalHeader, ReadBody, Merkle.Root;
    var hd, body := Built(h, b).header, MarshalBody(b.body);
    assert Marshal(h, b) + rest == MarshalHeader(hd) + (body + rest);
    HeaderRoundTrip(hd, body + rest);
    BodyRoundTrip(b.body, ZERO_HASH, rest);
  }

  lemma MarshalInjective(h: Hashing, a: Block, b: Block)
    requires 0 < |a.body| < TWO_32 && 0 < |b.body| < TWO_32
    requires Marshal(h, a) == Marshal(h, b)
    ensures Built(h, a) == Built(h, b)
  {
    RoundTrip(h, a, []);
    RoundTrip(h, b, []);
    assert Marshal(h, a) + [] == Marshal(h, a) && Marshal(h, b) + [] == Marshal(h, b);
  }

  // ---------------------------------------------------------------- chains

  /** The part of an entry chain (common/echain.go) that the server keeps in memory. */
  datatype EChain = EChain(chainID: Digest, firstEntry: Entry, nextBlock: Block, nextBlockHeight: nat)

  /** A chain just revealed, before it is initialised from the database. */
  function NewChain(e: Entry): EChain {
    EChain(e.chainID, e, NewEBlock(), 0)
  }

  /** common/eblock.go:36-52 */
  function MakeEBlock(h: Hashing, chainID: Digest, height: nat, prev: Option<Block>): Block
    requires prev.Some? ==> prev.value.body != []
  {
    var e := NewEBlock();
    var linked := match prev
      case None => e.header
      case Some(p) => e.header.(prevKeyMR := KeyMR(h, p), prevLedgerKeyMR := FullHash(h, p));
    e.(header := linked.(chainID := chainID, ebSequence := height % TWO_32))
  }

  /** A header that can stand on top of these blocks of its chain: it leads to the last of them by its key
      and by the hash of its bytes. */
  predicate Follows(h: Hashing, hd: Header, blocks: seq<Block>) {
    if blocks == [] then hd.prevKeyMR == ZERO_HASH && hd.prevLedgerKeyMR == ZERO_HASH
    else
      var last := blocks[|blocks| - 1];
      last.body != [] && hd.prevKeyMR == KeyMR(h, last) && hd.prevLedgerKeyMR == FullHash(h, last)
  }

  predicate Linked(h: Hashing, blocks: seq<Block>) {
    forall i :: 0 <= i < |blocks| ==> Follows(h, blocks[i].header, blocks[..i])
  }

  lemma LinkedSnoc(h: Hashing, blocks: seq<Block>, b: Block)
    requires Linked(h, blocks) && Follows(h, b.header, blocks)
    ensures Linked(h, blocks + [b])
  {
    hide Follows;
    var all := blocks + [b];
    forall i | 0 <= i < |all|
      ensures Follows(h, all[i].header, all[..i])
    {
      assert all[..i] == blocks[..i];
      if i == |blocks| {
        assert blocks[..i] == blocks;
      }
    }
  }

  /** Only the links matter. */
  lemma SameLinks(h: Hashing, a: Header, b: Header, blocks: seq<Block>)
    requires Follows(h, a, blocks) && b.prevKeyMR == a.prevKeyMR && b.prevLedgerKeyMR == a.prevLedgerKeyMR
    ensures Follows(h, b, blocks)
  {
    hide KeyMR, FullHash;
  }

  /** What the two links of a block with a built header lead to, in bytes. */
  lemma LinksInBytes(h: Hashing, b: Block)
    requires b.body != [] && Built(h, b) == b
    ensures var head: Bytes := h.sha256(MarshalHeader(b.header));
      && KeyMR(h, b) == h.sha256(head + Merkle.Root(h, b.body))
      && FullHash(h, b) == h.sha256(MarshalHeader(b.header) + MarshalBody(b.body))
  {
  }

  // ---------------------------------------------------------------- what a key commits to

  /** Every string hashed for the key of an entry block. */
  function KeyInputs(h: Hashing, b: Block): set<Bytes>
    requires b.body != []
  {
    {MarshalHeader(Built(h, b).header), LastInput(h, b)} + Merkle.BranchInputs(h, b.body)
  }

  function LastInput(h: Hashing, b: Block): (x: Bytes)
    requires b.body != []
    ensures |x| == 64 && x[..32] == h.sha256(MarshalHeader(Built(h, b).header))
    ensures x[32..] == Merkle.Root(h, b.body)
  {
    var x: Bytes, y: Bytes := h.sha256(MarshalHeader(Built(h, b).header)), Merkle.Root(h, b.body);
    x + y
  }

  /** Entry blocks with one key are equal, or two strings hashed for it collide. */
  lemma EqualKeyMR(h: Hashing, a: Block, b: Block)
    requires 0 < |a.body| < TWO_32 && 0 < |b.body| < TWO_32 && Built(h, a) == a && Built(h, b) == b
    requires KeyMR(h, a) == KeyMR(h, b)
    ensures a == b || CollisionBetween(h, KeyInputs(h, a), KeyInputs(h, b))
  {
    hide Merkle.Root, Merkle.BranchInputs, MarshalHeader;
    var x, y := LastInput(h, a), LastInput(h, b);
    assert x in KeyInputs(h, a) && y in KeyInputs(h, b);
    var u, v := MarshalHeader(a.header), MarshalHeader(b.header);
    assert u in KeyInputs(h, a) && v in KeyInputs(h, b);
    if x != y {
      assert Collides(h, x, y);
    } else if u != v {
      assert h.sha256(u) == x[..32] && h.sha256(v) == y[..32];
      assert Collides(h, u, v);
    } else {
      HeaderRoundTrip(a.header, []);
      HeaderRoundTrip(b.header, []);
      assert Merkle.Root(h, a.body) == x[32..] && Merkle.Root(h, b.body) == y[32..];
      SameBody(h, a, b);
    }
  }

  lemma SameBody(h: Hashing, a: Block, b: Block)
    requires 0 < |a.body| < TWO_32 && 0 < |b.body| < TWO_32 && Built(h, a) == a && Built(h, b) == b
    requires a.header == b.header && Merkle.Root(h, a.body) == Merkle.Root(h, b.body)
    ensures a == b || CollisionBetween(h, KeyInputs(h, a), KeyInputs(h, b))
  {
    hide Merkle.Root, Merkle.BranchInputs, MarshalHeader, LastInput;
    assert |a.body| == a.header.entryCount && |b.body| == b.header.entryCount;
    Merkle.RootCommits(h, a.body, b.body);
    if a.body != b.body {
      CollisionGrows(h, Merkle.BranchInputs(h, a.body), Merkle.BranchInputs(h, b.body), KeyInputs(h, a), KeyInputs(h, b));
    }
  }

  /** Blocks with built headers, numbered by position. */
  predicate Numbered(h: Hashing, blocks: seq<Block>) {
    forall i :: 0 <= i < |blocks| ==>
        0 < |blocks[i].body| < TWO_32 && Built(h, blocks[i]) == blocks[i] && blocks[i].header.ebSequence == i
  }

  /** Some block of one chain and some block of the other give a collision. */
  ghost predicate KeysCollide(h: Hashing, a: seq<Block>, b: seq<Block>) {
    exists i, j :: 0 <= i < |a| && 0 <= j < |b| && TwoCollide(h, a[i], b[j])
  }

  ghost predicate TwoCollide(h: Hashing, x: Block, y: Block) {
    x.body != [] && y.body != [] && CollisionBetween(h, KeyInputs(h, x), KeyInputs(h, y))
  }

  lemma KeysGrow(h: Hashing, a: seq<Block>, b: seq<Block>)
    requires a != [] && b != [] && KeysCollide(h, a[..|a| - 1], b[..|b| - 1])
    ensures KeysCollide(h, a, b)
  {
    hide TwoCollide;
    var i, j :| 0 <= i < |a| - 1 && 0 <= j < |b| - 1 && TwoCollide(h, a[..|a| - 1][i], b[..|b| - 1][j]);
    assert TwoCollide(h, a[i], b[j]);
  }

  lemma LastFollows(h: Hashing, blocks: seq<Block>)
    requires |blocks| > 1 && Linked(h, blocks) && Numbered(h, blocks)
    ensures var n := |blocks| - 1;
      && Linked(h, blocks[..n]) && Numbered(h, blocks[..n]) && blocks[n - 1].body != []
      && blocks[n].header.prevKeyMR == KeyMR(h, blocks[n - 1])
  {
    hide Built, KeyMR, FullHash;
    var n := |blocks| - 1;
    assert Follows(h, blocks[n].header, blocks[..n]);
    forall i | 0 <= i < n
      ensures Follows(h, blocks[..n][i].header, blocks[..n][..i])
    {
      assert blocks[..n][..i] == blocks[..i];
    }
  }

  /** The key of the newest block commits to its whole chain: linked and numbered chains of entry blocks with
      one key are equal block for block, or two strings hashed for keys collide. */
  lemma {:induction false} HistoryBinding(h: Hashing, a: seq<Block>, b: seq<Block>)
    requires a != [] && b != [] && Linked(h, a) && Linked(h, b) && Numbered(h, a) && Numbered(h, b)
    requires a[|a| - 1].body != [] && b[|b| - 1].body != [] && KeyMR(h, a[|a| - 1]) == KeyMR(h, b[|b| - 1])
    ensures a == b || KeysCollide(h, a, b)
    decreases |a|
  {
    hide Built, KeyMR, Linked, KeysCollide, KeyInputs, CollisionBetween;
    var m, n := |a| - 1, |b| - 1;
    EqualKeyMR(h, a[m], b[n]);
    if a[m] != b[n] {
      HeadsCollide(h, a, b);
    } else if m > 0 {
      LastFollows(h, a);
      LastFollows(h, b);
      HistoryBinding(h, a[..m], b[..n]);
      if a[..m] == b[..n] {
        assert a == a[..m] + [a[m]] && b == b[..n] + [b[n]];
      } else {
        KeysGrow(h, a, b);
      }
    } else {
      assert a == [a[0]] && b == [b[0]];
    }
  }

  lemma HeadsCollide(h: Hashing, a: seq<Block>, b: seq<Block>)
    requires a != [] && b != [] && a[|a| - 1].body != [] && b[|b| - 1].body != []
    requires CollisionBetween(h, KeyInputs(h, a[|a| - 1]), KeyInputs(h, b[|b| - 1]))
    ensures KeysCollide(h, a, b)
  {
    hide KeyInputs, CollisionBetween;
    assert TwoCollide(h, a[|a| - 1], b[|b| - 1]);
  }
}
