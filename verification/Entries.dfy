/** Entries, commits and balance increases: their binary forms (common/entry.go, commitentry.go,
    commitchain.go, increasebalance.go) and what an entry costs (util/misc.go). */
module Entries {
  import opened Basics
  import VarInt

  type MilliTime = b: Bytes | |b| == 6 witness Zeros(6)
  type Signature = b: Bytes | |b| == 64 witness Zeros(64)

  datatype CommitEntry = CommitEntry(version: byte, milliTime: MilliTime, entryHash: Digest,
                                     credits: byte, ecPubKey: Digest, sig: Signature)

  datatype CommitChain = CommitChain(version: byte, milliTime: MilliTime, chainIDHash: Digest, weld: Digest,
                                     entryHash: Digest, credits: byte, ecPubKey: Digest, sig: Signature)

  datatype IncreaseBalance = IncreaseBalance(ecPubKey: Digest, txid: Digest, index: u64, numEC: u64)

  datatype Entry = Entry(version: byte, chainID: Digest, extIDs: seq<Bytes>, content: Bytes)

  // ---------------------------------------------------------------- commits

  /** The part of a commit that its signature covers (common/commitentry.go:69-75). */
  function CommitEntryMsg(c: CommitEntry): (b: Bytes)
    ensures |b| == 40
  {
    var milli: Bytes, hash: Bytes := c.milliTime, c.entryHash;
    [c.version] + milli + hash + [c.credits]
  }

  function CommitChainMsg(c: CommitChain): (b: Bytes)
    ensures |b| == 104
  {
    var milli: Bytes, cid: Bytes, weld: Bytes, hash: Bytes := c.milliTime, c.chainIDHash, c.weld, c.entryHash;
    [c.version] + milli + cid + weld + hash + [c.credits]
  }

  function MarshalCommitEntry(c: CommitEntry): (b: Bytes)
    ensures |b| == 136
  {
    CommitEntryMsg(c) + c.ecPubKey + c.sig
  }

  function MarshalCommitChain(c: CommitChain): (b: Bytes)
    ensures |b| == 200
  {
    CommitChainMsg(c) + c.ecPubKey + c.sig
  }

  /** common/commitentry.go:147-216: any shortage ends in an error before a field is missing. */
  function UnmarshalCommitEntry(d: Bytes): Result<(CommitEntry, Bytes)> {
    if |d| < 136 then Err(EOF)
    else Ok((CommitEntry(d[0], d[1..7], d[7..39], d[39], d[40..72], d[72..136]), d[136..]))
  }

  /** common/commitchain.go:158-246 */
  function UnmarshalCommitChain(d: Bytes): Result<(CommitChain, Bytes)> {
    if |d| < 200 then Err(EOF)
    else Ok((CommitChain(d[0], d[1..7], d[7..39], d[39..71], d[71..103], d[103], d[104..136], d[136..200]), d[200..]))
  }

  /** Where the fields of a commit lie. */
  lemma CommitEntryLayout(c: CommitEntry)
    ensures var d := MarshalCommitEntry(c);
      && d[0] == c.version && d[1..7] == c.milliTime && d[7..39] == c.entryHash && d[39] == c.credits
      && d[40..72] == c.ecPubKey && d[72..136] == c.sig && d[..40] == CommitEntryMsg(c)
  {
  }

  lemma CommitChainLayout(c: CommitChain)
    ensures var d := MarshalCommitChain(c);
      && d[0] == c.version && d[1..7] == c.milliTime && d[7..39] == c.chainIDHash && d[39..71] == c.weld
      && d[71..103] == c.entryHash && d[103] == c.credits
      && d[104..136] == c.ecPubKey && d[136..200] == c.sig && d[..104] == CommitChainMsg(c)
  {
  }

  /** What follows does not move the fields. */
  lemma SameFields(d: Bytes, rest: Bytes)
    ensures (d + rest)[|d|..] == rest
    ensures forall i, j :: 0 <= i <= j <= |d| ==> (d + rest)[i..j] == d[i..j]
  {
  }

  lemma CommitEntryRoundTrip(c: CommitEntry, rest: Bytes)
    ensures UnmarshalCommitEntry(MarshalCommitEntry(c) + rest) == Ok((c, rest))
  {
    hide MarshalCommitEntry;
    CommitEntryLayout(c);
    SameFields(MarshalCommitEntry(c), rest);
  }

  lemma CommitChainRoundTrip(c: CommitChain, rest: Bytes)
    ensures UnmarshalCommitChain(MarshalCommitChain(c) + rest) == Ok((c, rest))
  {
    hide MarshalCommitChain;
    CommitChainLayout(c);
    SameFields(MarshalCommitChain(c), rest);
  }

  /** The time in a commit, in milliseconds: 48 bits, big-endian. */
  function GetMilliTime(milliTime: MilliTime): nat {
    BEValue(milliTime)
  }

  /** The signed part decides the time, so a replayed message always asks for the same hour. */
  lemma SignedPartFixesTime(c: CommitEntry, d: CommitEntry)
    requires CommitEntryMsg(c) == CommitEntryMsg(d)
    ensures c.milliTime == d.milliTime && c.entryHash == d.entryHash && c.credits == d.credits
  {
    assert CommitEntryMsg(c)[1..7] == c.milliTime && CommitEntryMsg(d)[1..7] == d.milliTime;
    assert CommitEntryMsg(c)[7..39] == c.entryHash && CommitEntryMsg(d)[7..39] == d.entryHash;
    assert CommitEntryMsg(c)[39] == c.credits && CommitEntryMsg(d)[39] == d.credits;
  }

  lemma SignedChainPartFixesTime(c: CommitChain, d: CommitChain)
    requires CommitChainMsg(c) == CommitChainMsg(d)
    ensures c.milliTime == d.milliTime && c.chainIDHash == d.chainIDHash && c.weld == d.weld
    ensures c.entryHash == d.entryHash && c.credits == d.credits
  {
    assert CommitChainMsg(c)[7..39] == c.chainIDHash && CommitChainMsg(d)[7..39] == d.chainIDHash;
    assert CommitChainMsg(c)[39..71] == c.weld && CommitChainMsg(d)[39..71] == d.weld;
    assert CommitChainMsg(c)[1..7] == c.milliTime && CommitChainMsg(d)[1..7] == d.milliTime;
    assert CommitChainMsg(c)[71..103] == c.entryHash && CommitChainMsg(d)[71..103] == d.entryHash;
    assert CommitChainMsg(c)[103] == c.credits && CommitChainMsg(d)[103] == d.credits;
  }

  // ---------------------------------------------------------------- balance increases

  function MarshalIncrease(b: IncreaseBalance): Bytes {
    var pub: Bytes, txid: Bytes := b.ecPubKey, b.txid;
    pub + txid + VarInt.Encoded(b.index) + VarInt.Encoded(b.numEC)
  }

  /** common/increasebalance.go:70-97. A short key makes the next read fail; a short or missing tail
      makes DecodeVarInt run on an empty buffer. */
  function UnmarshalIncrease(d: Bytes): Result<(IncreaseBalance, Bytes)> {
    if |d| <= 32 then Err(EOF)
    else if |d| <= 64 then Err(Panic)
    else
      match VarInt.Decoded(d[64..])
      case Err(e) => Err(e)
      case Ok((index, tail)) =>
        match VarInt.Decoded(tail)
        case Err(e) => Err(e)
        case Ok((numEC, rest)) => Ok((IncreaseBalance(d[..32], d[32..64], index, numEC), rest))
  }

  /** A balance increase is its two keys and then its two numbers. */
  lemma IncreaseLayout(b: IncreaseBalance)
    ensures var d := MarshalIncrease(b);
      |d| > 64 && d[..32] == b.ecPubKey && d[32..64] == b.txid
          && d[64..] == VarInt.Encoded(b.index) + VarInt.Encoded(b.numEC)
  {
  }

  lemma IncreaseRoundTrip(b: IncreaseBalance, rest: Bytes)
    ensures UnmarshalIncrease(MarshalIncrease(b) + rest) == Ok((b, rest))
  {
    hide MarshalIncrease;
    var d := MarshalIncrease(b);
    var tail := VarInt.Encoded(b.numEC) + rest;
    IncreaseLayout(b);
    assert (d + rest)[..32] == d[..32] && (d + rest)[32..64] == d[32..64];
    assert (d + rest)[64..] == VarInt.Encoded(b.index) + tail;
    VarInt.RoundTrip(b.index, tail);
    VarInt.RoundTrip(b.numEC, rest);
  }

  // ---------------------------------------------------------------- entries

  /** common/entry.go:109-123 */
  function MarshalExtIDs(extIDs: seq<Bytes>): Bytes {
    if extIDs == [] then [] else U16(|extIDs[0]|) + extIDs[0] + MarshalExtIDs(extIDs[1..])
  }

  function MarshalEntry(e: Entry): (b: Bytes)
    ensures |b| >= 35
  {
    var cid: Bytes := e.chainID;
    [e.version] + cid + U16(|MarshalExtIDs(e.extIDs)|) + MarshalExtIDs(e.extIDs) + e.content
  }

  /** common/entry.go:64-75 */
  function EntryHash(h: Hashing, e: Entry): Digest {
    var bin := MarshalEntry(e);
    h.sha256(h.sha512(bin) + bin)
  }

  /** common/entry.go:42-52 */
  function NewChainID(h: Hashing, e: Entry): Digest {
    h.sha256(ExtIDHashes(h, e.extIDs))
  }

  function ExtIDHashes(h: Hashing, extIDs: seq<Bytes>): Bytes {
    if extIDs == [] then [] else ExtIDHashes(h, extIDs[..|extIDs| - 1]) + h.sha256(extIDs[|extIDs| - 1])
  }

  function DoubleSha(h: Hashing, data: Bytes): Digest {
    h.sha256(h.sha256(data))
  }

  /** Two big-endian bytes read as an int16. */
  function Int16(high: byte, low: byte): int {
    var a: int, b: int := high, low;
    var n := 256 * a + b;
    if n < 0x8000 then n else n - 0x1_0000
  }

  /** The countdown loop of common/entry.go:152-176: i bytes of external ids left to read from d. A
      length that cannot be read counts as 0; a negative one makes `make` panic. */
  function ReadExtIDs(i: int, d: Bytes): Result<(seq<Bytes>, Bytes)>
    requires i < 0x8000
    decreases i
  {
    if i <= 0 then Ok(([], d))
    else
      var xsize := if |d| < 2 then 0 else Int16(d[0], d[1]);
      var d' := if |d| < 2 then [] else d[2..];
      if i - 2 < 0 then Err(BadData)
      else if xsize < 0 then Err(Panic)
      else if xsize > |d'| then Err(if d' == [] then EOF else BadData)
      else if i - 2 - xsize < 0 then Err(BadData)
      else
        match ReadExtIDs(i - 2 - xsize, d'[xsize..])
        case Err(e) => Err(e)
        case Ok((xs, rest)) => Ok(([d'[..xsize]] + xs, rest))
  }

  /** common/entry.go:109-123 */
  method MarshalExtIDsBinary(extIDs: seq<Bytes>) returns (buf: Bytes)
    ensures buf == MarshalExtIDs(extIDs)
  {
    hide U16;
    buf := [];
    for i := 0 to |extIDs|
      invariant buf + MarshalExtIDs(extIDs[i..]) == MarshalExtIDs(extIDs)
    {
      assert extIDs[i..][1..] == extIDs[i + 1..];
      var x := extIDs[i];
      ghost var more := MarshalExtIDs(extIDs[i + 1..]);
      assert buf + (U16(|x|) + x + more) == buf + U16(|x|) + x + more;
      buf := buf + U16(|x|);
      buf := buf + x;
    }
  }

  /** The countdown of common/entry.go:152-176. */
  method UnmarshalExtIDsBinary(extSize: int, data: Bytes) returns (r: Result<(seq<Bytes>, Bytes)>)
    requires -0x8000 <= extSize < 0x8000
    ensures r == ReadExtIDs(extSize, data)
  {
    var i, buf := extSize, data;
    var extIDs: seq<Bytes> := [];
    ResumeNothing(ReadExtIDs(extSize, data));
    while i > 0
      invariant i < 0x8000 && ReadExtIDs(extSize, data) == Resume(extIDs, ReadExtIDs(i, buf))
    {
      var xsize := if |buf| < 2 then 0 else Int16(buf[0], buf[1]);
      var rest := if |buf| < 2 then [] else buf[2..];
      if i - 2 < 0 {
        return Err(BadData);
      }
      if xsize < 0 {
        return Err(Panic);
      }
      if xsize > |rest| {
        return Err(if rest == [] then EOF else BadData);
      }
      if i - 2 - xsize < 0 {
        return Err(BadData);
      }
      var x := rest[..xsize];
      assert ReadExtIDs(i, buf) == Resume([x], ReadExtIDs(i - 2 - xsize, rest[xsize..]));
      ResumeOneMore(extIDs, x, ReadExtIDs(i - 2 - xsize, rest[xsize..]));
      i, buf := i - 2 - xsize, rest[xsize..];
      extIDs := extIDs + [x];
    }
    assert extIDs + [] == extIDs;
    return Ok((extIDs, buf));
  }

  /** common/entry.go:125-182 */
  function UnmarshalEntry(d: Bytes): Result<Entry> {
    if |d| < 35 then Err(EOF)
    else
      match ReadExtIDs(Int16(d[33], d[34]), d[35..])
      case Err(e) => Err(e)
      case Ok((xs, rest)) => Ok(Entry(d[0], d[1..33], xs, rest))
  }

  lemma U16Bytes(n: nat)
    requires n < 0x1_0000
    ensures U16(n)[0] == n / 256 && U16(n)[1] == n % 256
  {
    assert BE(n / 256, 1) == BE(n / 256 / 256, 0) + [(n / 256) % 256];
  }

  lemma SmallLengthReadsBack(n: nat)
    requires n < 0x8000
    ensures Int16(U16(n)[0], U16(n)[1]) == n
  {
    U16Bytes(n);
  }

  lemma PrefixedBytes(x: Bytes, tail: Bytes)
    ensures var d := U16(|x|) + x + tail;
      && |d| >= 2 && d[0] == U16(|x|)[0] && d[1] == U16(|x|)[1]
      && |d[2..]| >= |x| && d[2..][..|x|] == x && d[2..][|x|..] == tail
  {
    hide U16;
  }

  /** One external id is read, and then the rest. */
  lemma ReadStep(x: Bytes, tail: Bytes, j: nat)
    requires 2 + |x| + j < 0x8000
    ensures ReadExtIDs(2 + |x| + j, U16(|x|) + x + tail) == Resume([x], ReadExtIDs(j, tail))
  {
    hide U16, Int16;
    PrefixedBytes(x, tail);
    SmallLengthReadsBack(|x|);
  }

  lemma {:induction false} ReadWhatWasWritten(extIDs: seq<Bytes>, rest: Bytes)
    requires |MarshalExtIDs(extIDs)| < 0x8000
    ensures ReadExtIDs(|MarshalExtIDs(extIDs)|, MarshalExtIDs(extIDs) + rest) == Ok((extIDs, rest))
    decreases |extIDs|
  {
    hide U16;
    if extIDs == [] {
      assert MarshalExtIDs(extIDs) + rest == rest;
    } else {
      hide ReadExtIDs;
      var x, more := extIDs[0], MarshalExtIDs(extIDs[1..]);
      assert MarshalExtIDs(extIDs) + rest == U16(|x|) + x + (more + rest);
      ReadStep(x, more + rest, |more|);
      ReadWhatWasWritten(extIDs[1..], rest);
      assert [x] + extIDs[1..] == extIDs;
    }
  }

  /** What is parsed never takes more bytes than the countdown allows. */
  lemma {:induction false} ReadSize(i: int, d: Bytes)
    requires i < 0x8000 && ReadExtIDs(i, d).Ok?
    ensures |MarshalExtIDs(ReadExtIDs(i, d).value.0)| <= if i <= 0 then 0 else i
    decreases i
  {
    if i > 0 {
      var xsize := if |d| < 2 then 0 else Int16(d[0], d[1]);
      var d' := if |d| < 2 then [] else d[2..];
      ReadSize(i - 2 - xsize, d'[xsize..]);
      var xs := ReadExtIDs(i - 2 - xsize, d'[xsize..]).value.0;
      var all := [d'[..xsize]] + xs;
      assert all[1..] == xs && |all[0]| == xsize;
    }
  }

  /** An entry survives being written and read exactly when its external ids take less than 2^15
      bytes: their size is written in 16 bits and read back as a signed number. */
  lemma EntryRoundTrip(e: Entry)
    ensures UnmarshalEntry(MarshalEntry(e)) == Ok(e) <==> |MarshalExtIDs(e.extIDs)| < 0x8000
  {
    var ext := MarshalExtIDs(e.extIDs);
    var d := MarshalEntry(e);
    EntryLayout(e);
    if |ext| < 0x8000 {
      SmallLengthReadsBack(|ext|);
      ReadWhatWasWritten(e.extIDs, e.content);
    } else if UnmarshalEntry(d) == Ok(e) {
      ReadSize(Int16(d[33], d[34]), d[35..]);
    }
  }

  lemma EntryLayout(e: Entry)
    ensures var (d, ext) := (MarshalEntry(e), MarshalExtIDs(e.extIDs));
      && d[0] == e.version && d[1..33] == e.chainID
      && d[33] == U16(|ext|)[0] && d[34] == U16(|ext|)[1] && d[35..] == ext + e.content
  {
    var d, ext := MarshalEntry(e), MarshalExtIDs(e.extIDs);
    assert d[33..35] == U16(|ext|);
    assert d[33] == d[33..35][0] && d[34] == d[33..35][1];
  }

  // ---------------------------------------------------------------- what an entry costs

  /** util/misc.go:34-56 */
  function EntryCost(bin: Bytes): Result<nat> {
    var l := |bin| - 35;
    if l > 10240 then Err(BadData)
    else
      var r := l - 1024 * TruncDiv(l, 1024);
      var n := TruncDiv(l, 1024) + if r > 0 then 1 else 0;
      Ok(if n < 1 then 1 else n)
  }

  /** One credit for each started kilobyte, at least one, at most ten. */
  lemma EntryCostMeaning(bin: Bytes)
    requires |bin| >= 35
    ensures EntryCost(bin).Ok? <==> |bin| <= 35 + 10240
    ensures EntryCost(bin).Ok? ==>
      var n := EntryCost(bin).value;
      && 1 <= n <= 10
      && |bin| - 35 <= 1024 * n
      && (n > 1 ==> 1024 * (n - 1) < |bin| - 35)
  {
  }

  /** These credits pay for the entry: at least one, and one for each started kilobyte of at most ten. */
  predicate Pays(credits: int, e: Entry) {
    var size := |MarshalEntry(e)| - 35;
    1 <= credits && size <= 10240 && size <= 1024 * credits
  }

  lemma PaysMeans(credits: int, e: Entry)
    ensures Pays(credits, e) <==> EntryCost(MarshalEntry(e)).Ok? && EntryCost(MarshalEntry(e)).value <= credits
  {
    hide MarshalEntry, EntryCost;
    EntryCostMeaning(MarshalEntry(e));
  }

  /** The joined hashes of the external ids. */
  function Joined(h: Hashing, extIDs: seq<Bytes>): Bytes {
    if extIDs == [] then [] else h.sha256(extIDs[0]) + Joined(h, extIDs[1..])
  }

  lemma {:induction false} JoinedSnoc(h: Hashing, extIDs: seq<Bytes>, x: Bytes)
    ensures Joined(h, extIDs + [x]) == Joined(h, extIDs) + h.sha256(x)
    decreases |extIDs|
  {
    if extIDs == [] {
      assert [x][1..] == [];
    } else {
      JoinedSnoc(h, extIDs[1..], x);
      assert (extIDs + [x])[1..] == extIDs[1..] + [x];
    }
  }

  lemma {:induction false} HashesAreJoined(h: Hashing, extIDs: seq<Bytes>)
    ensures ExtIDHashes(h, extIDs) == Joined(h, extIDs)
    decreases |extIDs|
  {
    if extIDs != [] {
      var n := |extIDs| - 1;
      HashesAreJoined(h, extIDs[..n]);
      JoinedSnoc(h, extIDs[..n], extIDs[n]);
      assert extIDs == extIDs[..n] + [extIDs[n]];
    }
  }

  /** The commit fits the first entry of a chain: it pays for the entry and ten credits more, the chain's
      id is the hash of the joined hashes of the entry's external ids, and the commit holds the double
      hashes of that id and of the entry hash with that id. */
  predicate Founds(h: Hashing, c: CommitChain, e: Entry) {
    var cid: Bytes, x: Bytes := e.chainID, c.entryHash;
    && Pays(c.credits - 10, e)
    && e.chainID == h.sha256(Joined(h, e.extIDs))
    && c.chainIDHash == h.sha256(h.sha256(cid)) && c.weld == h.sha256(h.sha256(x + cid))
  }

  /** So an entry that can be paid for can also be stored and read back. */
  lemma PayableEntryRoundTrips(e: Entry)
    requires EntryCost(MarshalEntry(e)).Ok?
    ensures UnmarshalEntry(MarshalEntry(e)) == Ok(e)
  {
    EntryRoundTrip(e);
  }
}
