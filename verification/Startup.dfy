/** Start-up on a filled database (process/processor.go, initProcessor; process/init.go): the tables are
    fetched, sorted by height and checked, balances are replayed, every chain is read back, the newest
    directory block is signed, and the directory chain is validated. */
module Startup {
  import opened Basics
  import opened Entries
  import opened Ledger
  import opened ECLedger
  import opened EntryStore
  import opened Builder
  import opened Signatures
  import opened TableScan
  import V = Validator
  import EBlock
  import ECBlock
  import AdminBlock
  import DirectoryBlock

  /** The server's keys, and the hash of its first block. */
  datatype Config = Config(trust: Trust, sign: Bytes -> Signature)

  /** The keys of each table, in the order in which leveldb's iterator delivers them. */
  datatype Cursor = Cursor(d: seq<Digest>, ec: seq<Digest>, a: seq<Digest>, f: seq<Digest>)

  /** What start-up builds in memory. */
  datatype Started = Started(front: Front, ecNext: ECBlock.Block, aNext: AdminBlock.Block, dNext: DirectoryBlock.Block,
                             dBlocks: seq<DirectoryBlock.Block>)

  /** .001 / .15 * 100000000 (process/processor.go:125) */
  const FACTOSHIS_PER_CREDIT: u64 := 666666

  // The heights that the tables are sorted by (util/sorting.go).
  function DHeight(b: DirectoryBlock.Block): int { b.header.dbHeight }
  function ECHeight(b: ECBlock.Block): int { b.header.ebHeight }
  function AHeight(b: AdminBlock.Block): int { b.header.dbHeight }
  function FHeight(b: FBlock): int { b.dbHeight }

  // ---------------------------------------------------------------- the chains of the server

  /** Each block's height is its position. */
  predicate HeightsRight<T>(height: T -> int, xs: seq<T>) {
    forall i :: 0 <= i < |xs| ==> height(xs[i]) == i % TWO_32
  }

  function LoadByHeight<T>(height: T -> int, table: map<Digest, T>, keys: seq<Digest>): (r: Result<seq<T>>)
    requires forall k :: k in keys ==> k in table
  {
    var xs := SortByHeight(height, Fetch(table, keys));
    if HeightsRight(height, xs) then Ok(xs) else Err(Panic)
  }

  /** process/init.go:28-74 */
  function InitDChain(h: Hashing, table: map<Digest, DirectoryBlock.Block>,
                      keys: seq<Digest>): Result<(seq<DirectoryBlock.Block>, DirectoryBlock.Block)>
    requires forall k :: k in keys ==> k in table
  {
    match LoadByHeight(DHeight, table, keys)
    case Err(e) => Err(e)
    case Ok(blocks) =>
      Ok((blocks, DirectoryBlock.CreateDBlock(h, |blocks| % TWO_32, if blocks == [] then None
          else Some(blocks[|blocks| - 1]))))
  }

  /** The minute markers of the first entry credit block. */
  function TenMinutes(n: nat): seq<ECBlock.ECEntry>
    requires n <= 10
  {
    if n == 0 then [] else TenMinutes(n - 1) + [ECBlock.Minute(n)]
  }

  predicate AllSizable(table: map<Digest, ECBlock.Block>) {
    forall k :: k in table ==> ECBlock.Sizable(table[k])
  }

  predicate AllConsistent(table: map<Digest, AdminBlock.Block>) {
    forall k :: k in table ==> AdminBlock.Consistent(table[k])
  }

  lemma {:induction false} SortMembers<T>(height: T -> int, s: seq<T>, i: nat)
    requires i < |s|
    ensures SortByHeight(height, s)[i] in s
    decreases |s|
  {
    var t, x := SortByHeight(height, s[1..]), SortByHeight(height, s)[i];
    InsertMembers(height, s[0], t, x);
    if x != s[0] {
      var j :| 0 <= j < |t| && t[j] == x;
      SortMembers(height, s[1..], j);
    }
  }

  /** What is sorted comes out of the table. */
  lemma SortedFrom<T>(height: T -> int, table: map<Digest, T>, keys: seq<Digest>, i: nat)
    requires (forall k :: k in keys ==> k in table) && i < |keys|
    ensures exists k :: k in table && SortByHeight(height, Fetch(table, keys))[i] == table[k]
  {
    SortMembers(height, Fetch(table, keys), i);
    var j :| 0 <= j < |keys| && Fetch(table, keys)[j] == SortByHeight(height, Fetch(table, keys))[i];
    assert keys[j] in table;
  }

  /** process/init.go:80-125: the balances, and the open block. */
  function InitECChain(h: Hashing, table: map<Digest, ECBlock.Block>, keys: seq<Digest>,
                       nextDBHeight: u32): Result<(map<Digest, int>, ECBlock.Block)>
    requires (forall k :: k in keys ==> k in table) && AllSizable(table)
  {
    var blocks := SortByHeight(ECHeight, Fetch(table, keys));
    var credits := ReplayBlocks(blocks);
    if blocks == [] || nextDBHeight == 0 then
      Ok((credits, ECBlock.NewECBlock().(body := [ECBlock.ServerIndex(SERVER_INDEX)] + TenMinutes(10))))
    else if |blocks| < nextDBHeight then Err(Panic)
    else
      SortedFrom(ECHeight, table, keys, nextDBHeight - 1);
      Ok((credits, ECBlock.NextECBlock(h, blocks[nextDBHeight - 1])))
  }

  function Present(blocks: seq<DirectoryBlock.Block>): seq<Option<DirectoryBlock.Block>> {
    seq(|blocks|, i requires 0 <= i < |blocks| => Some(blocks[i]))
  }

  /** Every admin block carries the server's signature of the directory block before it. */
  predicate AllSigned(t: Trust, dBlocks: seq<DirectoryBlock.Block>, aBlocks: seq<AdminBlock.Block>) {
    forall i :: 0 <= i < |aBlocks| ==> SignatureAnswer(t, Present(dBlocks), aBlocks[i]) == Yes
  }

  lemma {:induction false} SortKeeps<T>(height: T -> int, s: seq<T>, x: T)
    requires x in s
    ensures x in SortByHeight(height, s)
    decreases |s|
  {
    InsertMembers(height, s[0], SortByHeight(height, s[1..]), x);
    if x != s[0] {
      assert x in s[1..];
      SortKeeps(height, s[1..], x);
    }
  }

  /** What the check of the signatures comes to, block by block of the table. */
  lemma AllSignedMeans(t: Trust, dBlocks: seq<DirectoryBlock.Block>, table: map<Digest, AdminBlock.Block>,
      keys: seq<Digest>)
    requires forall k :: k in keys ==> k in table
    ensures AllSigned(t, dBlocks, SortByHeight(AHeight, Fetch(table, keys)))
       <==> forall k :: k in keys ==> Signed(t, Present(dBlocks), table[k])
  {
    hide SignatureAnswer, Signed, SortByHeight;
    var blocks := SortByHeight(AHeight, Fetch(table, keys));
    forall i | 0 <= i < |blocks|
      ensures SignatureAnswer(t, Present(dBlocks), blocks[i]) == Yes <==> Signed(t, Present(dBlocks), blocks[i])
    {
      AnswerMeans(t, Present(dBlocks), blocks[i]);
    }
    if AllSigned(t, dBlocks, blocks) {
      forall k | k in keys
        ensures Signed(t, Present(dBlocks), table[k])
      {
        FetchedIn(table, keys, k);
        SortKeeps(AHeight, Fetch(table, keys), table[k]);
        var i :| 0 <= i < |blocks| && blocks[i] == table[k];
      }
    }
    if forall k :: k in keys ==> Signed(t, Present(dBlocks), table[k]) {
      forall i | 0 <= i < |blocks|
        ensures Signed(t, Present(dBlocks), blocks[i])
      {
        SortMembers(AHeight, Fetch(table, keys), i);
        var j :| 0 <= j < |keys| && Fetch(table, keys)[j] == blocks[i];
        assert keys[j] in keys;
      }
    }
  }

  lemma FetchedIn<T>(table: map<Digest, T>, keys: seq<Digest>, k: Digest)
    requires (forall j :: j in keys ==> j in table) && k in keys
    ensures table[k] in Fetch(table, keys)
  {
    var j :| 0 <= j < |keys| && keys[j] == k;
    assert Fetch(table, keys)[j] == table[k];
  }

  /** process/init.go:128-162 */
  function InitAChain(h: Hashing, t: Trust, table: map<Digest, AdminBlock.Block>, keys: seq<Digest>,
                      dBlocks: seq<DirectoryBlock.Block>): Result<AdminBlock.Block>
    requires (forall k :: k in keys ==> k in table) && AllConsistent(table)
  {
    var next := |dBlocks| % TWO_32;
    match LoadByHeight(AHeight, table, keys)
    case Err(e) => Err(e)
    case Ok(blocks) =>
      if !AllSigned(t, dBlocks, blocks) then Err(Panic)
      else if blocks == [] || next == 0 then Ok(AdminBlock.CreateAdminBlock(h, 0, None))
      else if |blocks| < next then Err(Panic)
      else
        SortedFrom(AHeight, table, keys, next - 1);
        Ok(AdminBlock.CreateAdminBlock(h, next, Some(blocks[next - 1])))
  }

  /** process/init.go:165-217: the exchange rate of the newest block. */
  function InitFctChain(table: map<Digest, FBlock>, keys: seq<Digest>): Result<u64>
    requires forall k :: k in keys ==> k in table
  {
    match LoadByHeight(FHeight, table, keys)
    case Err(e) => Err(e)
    case Ok(blocks) => Ok(if blocks == [] then FACTOSHIS_PER_CREDIT else blocks[|blocks| - 1].rate)
  }

  // ---------------------------------------------------------------- the entry chains

  predicate AllReadable(h: Hashing, t: Tables, table: map<Digest, Entry>) {
    forall cid :: cid in table ==> InitEChainFromDB(h, t, cid).Ok?
  }

  function ReadChain(h: Hashing, t: Tables, cid: Digest, first: Entry): EBlock.EChain
    requires InitEChainFromDB(h, t, cid).Ok?
  {
    var (height, block) := InitEChainFromDB(h, t, cid).value;
    EBlock.EChain(cid, first, block, height)
  }

  /** process/init.go:221-236 and process/processor.go:160-165 */
  function InitEChains(h: Hashing, t: Tables, table: map<Digest, Entry>): Result<map<Digest, EBlock.EChain>> {
    if AllReadable(h, t, table) then Ok(map cid | cid in table :: ReadChain(h, t, cid, table[cid])) else Err(Panic)
  }

  // ---------------------------------------------------------------- all of it

  /** The iterators deliver every key of every table once. */
  ghost predicate Enumerated(db: Db, dTable: map<Digest, DirectoryBlock.Block>, cursor: Cursor) {
    && Enumerates(cursor.d, dTable) && Enumerates(cursor.ec, db.ecBlocks)
    && Enumerates(cursor.a, db.aBlocks) && Enumerates(cursor.f, db.fBlocks)
  }

  /** What the readers give besides: blocks whose counts fit. */
  ghost predicate Readable(db: Db, dTable: map<Digest, DirectoryBlock.Block>, cursor: Cursor) {
    Enumerated(db, dTable, cursor) && AllSizable(db.ecBlocks) && AllConsistent(db.aBlocks)
  }

  /** process/processor.go:1243-1254: the signature of the newest directory block. */
  function SignDirectoryBlock(cfg: Config, dBlocks: seq<DirectoryBlock.Block>,
      aNext: AdminBlock.Block): AdminBlock.Block {
    if dBlocks == [] then aNext
    else
      var sig := cfg.sign(DirectoryBlock.MarshalHeader(dBlocks[|dBlocks| - 1].header));
      aNext.(entries := aNext.entries + [AdminBlock.DBSignature(ZERO_HASH, cfg.trust.serverPubKey, sig)])
  }

  function NewFront(rate: u64, credits: map<Digest, int>, chains: map<Digest, EBlock.EChain>): Front {
    Front(rate, credits, map[], map[], chains, map[], 0, [], {}, [])
  }

  /** process/processor.go:110-177 on a server whose database is not empty: what is in memory afterwards,
      or the panic that stops it. */
  function StartUp(h: Hashing, cfg: Config, db: Db, dTable: map<Digest, DirectoryBlock.Block>,
                   cursor: Cursor): Result<Started>
    requires Readable(db, dTable, cursor) && dTable != map[]
  {
    match InitDChain(h, dTable, cursor.d)
    case Err(e) => Err(e)
    case Ok((dBlocks, dNext)) =>
      match InitECChain(h, db.ecBlocks, cursor.ec, |dBlocks| % TWO_32)
      case Err(e) => Err(e)
      case Ok((credits, ecNext)) =>
        match InitAChain(h, cfg.trust, db.aBlocks, cursor.a, dBlocks)
        case Err(e) => Err(e)
        case Ok(aNext) =>
          match InitFctChain(db.fBlocks, cursor.f)
          case Err(e) => Err(e)
          case Ok(rate) =>
            match InitEChains(h, db.eTables, db.chains)
            case Err(e) => Err(e)
            case Ok(chains) =>
              if V.ChainVerdict(h, db, cfg.trust.genesis, dBlocks, |dBlocks| % TWO_32) != V.Valid then Err(Panic)
              else Ok(Started(NewFront(rate, credits, chains), ecNext, SignDirectoryBlock(cfg, dBlocks, aNext), dNext,
                  dBlocks))
  }

  /** What start-up asks of the database: the heights of the directory, admin and factoid blocks count from 0,
      there are as many entry credit and admin blocks as directory blocks or none, every admin block is signed
      as its height asks over the directory block below, every chain of the chain table can be read, and the
      directory chain is valid. */
  ghost predicate Sound(h: Hashing, cfg: Config, db: Db, dTable: map<Digest, DirectoryBlock.Block>, cursor: Cursor)
    requires Readable(db, dTable, cursor)
  {
    var dBlocks := SortByHeight(DHeight, Fetch(dTable, cursor.d));
    var n := |dBlocks| % 0x1_0000_0000;
    && HeightsRight(DHeight, dBlocks) && HeightsRight(AHeight, SortByHeight(AHeight, Fetch(db.aBlocks, cursor.a)))
    && HeightsRight(FHeight, SortByHeight(FHeight, Fetch(db.fBlocks, cursor.f)))
    && (db.ecBlocks != map[] ==> |cursor.ec| >= n) && (db.aBlocks != map[] ==> |cursor.a| >= n)
    && (forall k :: k in db.aBlocks ==> Signed(cfg.trust, Present(dBlocks), db.aBlocks[k]))
    && (forall cid :: cid in db.chains ==> InitEChainFromDB(h, db.eTables, cid).Ok?)
    && V.ChainVerdict(h, db, cfg.trust.genesis, dBlocks, n) == V.Valid
  }

  lemma DSound(h: Hashing, table: map<Digest, DirectoryBlock.Block>, keys: seq<Digest>)
    requires forall k :: k in keys ==> k in table
    ensures InitDChain(h, table, keys).Ok? <==> HeightsRight(DHeight, SortByHeight(DHeight, Fetch(table, keys)))
    ensures InitDChain(h, table, keys).Ok? ==>
        InitDChain(h, table, keys).value.0 == SortByHeight(DHeight, Fetch(table, keys))
  {
    hide HeightsRight, SortByHeight, Fetch, DirectoryBlock.CreateDBlock;
  }

  lemma EmptyKeys<T>(keys: seq<Digest>, table: map<Digest, T>)
    requires Enumerates(keys, table)
    ensures table == map[] <==> keys == []
    ensures forall k :: k in keys <==> k in table
  {
    if keys != [] {
      assert keys[0] in table;
    } else {
      assert forall k :: k in table ==> k in keys;
    }
  }

  lemma ECSound(h: Hashing, table: map<Digest, ECBlock.Block>, keys: seq<Digest>, n: u32)
    requires Enumerates(keys, table) && AllSizable(table)
    ensures forall k :: k in keys ==> k in table
    ensures InitECChain(h, table, keys, n).Ok? <==> (table != map[] ==> |keys| >= n)
  {
    hide SortByHeight, ReplayBlocks, ECBlock.NextECBlock, AllSizable;
    EmptyKeys(keys, table);
  }

  lemma ASound(h: Hashing, t: Trust, table: map<Digest, AdminBlock.Block>, keys: seq<Digest>,
      dBlocks: seq<DirectoryBlock.Block>)
    requires Enumerates(keys, table) && AllConsistent(table)
    ensures forall k :: k in keys ==> k in table
    ensures InitAChain(h, t, table, keys, dBlocks).Ok?
       <==> (HeightsRight(AHeight, SortByHeight(AHeight, Fetch(table, keys)))
           && (table != map[] ==> |keys| >= |dBlocks| % TWO_32)
             && forall k :: k in table ==> Signed(t, Present(dBlocks), table[k]))
  {
    hide SortByHeight, HeightsRight, AllSigned, Signed, AdminBlock.CreateAdminBlock, AllConsistent;
    EmptyKeys(keys, table);
    AllSignedMeans(t, dBlocks, table, keys);
  }

  lemma FSound(table: map<Digest, FBlock>, keys: seq<Digest>)
    requires forall k :: k in keys ==> k in table
    ensures InitFctChain(table, keys).Ok? <==> HeightsRight(FHeight, SortByHeight(FHeight, Fetch(table, keys)))
  {
    hide HeightsRight, SortByHeight, Fetch;
  }

  lemma KeysAreThere(db: Db, dTable: map<Digest, DirectoryBlock.Block>, cursor: Cursor)
    requires Readable(db, dTable, cursor)
    ensures (forall k :: k in cursor.d ==> k in dTable) && (forall k :: k in cursor.f ==> k in db.fBlocks)
    ensures Enumerates(cursor.ec, db.ecBlocks) && Enumerates(cursor.a, db.aBlocks)
    ensures AllSizable(db.ecBlocks) && AllConsistent(db.aBlocks)
  {
    hide AllSizable, AllConsistent;
  }

  lemma StartUpParts(h: Hashing, cfg: Config, db: Db, dTable: map<Digest, DirectoryBlock.Block>, cursor: Cursor)
    requires Readable(db, dTable, cursor) && dTable != map[]
    ensures (forall k :: k in cursor.d ==> k in dTable) && (forall k :: k in cursor.f ==> k in db.fBlocks)
    ensures (forall k :: k in cursor.ec ==> k in db.ecBlocks) && (forall k :: k in cursor.a ==> k in db.aBlocks)
    ensures AllSizable(db.ecBlocks) && AllConsistent(db.aBlocks)
    ensures var (d, r) := (InitDChain(h, dTable, cursor.d), StartUp(h, cfg, db, dTable, cursor));
      && (r.Ok? <==>
            && d.Ok?
            && InitECChain(h, db.ecBlocks, cursor.ec, |d.value.0| % TWO_32).Ok?
            && InitAChain(h, cfg.trust, db.aBlocks, cursor.a, d.value.0).Ok?
            && InitFctChain(db.fBlocks, cursor.f).Ok? && InitEChains(h, db.eTables, db.chains).Ok?
            && V.ChainVerdict(h, db, cfg.trust.genesis, d.value.0, |d.value.0| % TWO_32) == V.Valid)
      && (r.Ok? ==> r.value.dBlocks == d.value.0)
  {
    KeysAreThere(db, dTable, cursor);
    hide InitDChain, InitECChain, InitAChain, InitFctChain, InitEChains, V.ChainVerdict, SignDirectoryBlock, AllSizable,
        AllConsistent;
  }

  lemma ESound(h: Hashing, t: Tables, table: map<Digest, Entry>)
    ensures InitEChains(h, t, table).Ok? <==> forall cid :: cid in table ==> InitEChainFromDB(h, t, cid).Ok?
  {
    hide InitEChainFromDB, ReadChain;
  }

  lemma SoundParts(h: Hashing, cfg: Config, db: Db, dTable: map<Digest, DirectoryBlock.Block>, cursor: Cursor)
    requires Readable(db, dTable, cursor)
    ensures (forall k :: k in cursor.d ==> k in dTable) && (forall k :: k in cursor.f ==> k in db.fBlocks)
    ensures (forall k :: k in cursor.ec ==> k in db.ecBlocks) && (forall k :: k in cursor.a ==> k in db.aBlocks)
    ensures AllSizable(db.ecBlocks) && AllConsistent(db.aBlocks)
    ensures var dBlocks := SortByHeight(DHeight, Fetch(dTable, cursor.d));
      Sound(h, cfg, db, dTable, cursor) <==>
        && HeightsRight(DHeight, dBlocks)
        && InitECChain(h, db.ecBlocks, cursor.ec, |dBlocks| % TWO_32).Ok?
        && InitAChain(h, cfg.trust, db.aBlocks, cursor.a, dBlocks).Ok?
        && InitFctChain(db.fBlocks, cursor.f).Ok? && InitEChains(h, db.eTables, db.chains).Ok?
        && V.ChainVerdict(h, db, cfg.trust.genesis, dBlocks, |dBlocks| % TWO_32) == V.Valid
  {
    KeysAreThere(db, dTable, cursor);
    var dBlocks := SortByHeight(DHeight, Fetch(dTable, cursor.d));
    ECSound(h, db.ecBlocks, cursor.ec, |dBlocks| % TWO_32);
    ASound(h, cfg.trust, db.aBlocks, cursor.a, dBlocks);
    FSound(db.fBlocks, cursor.f);
    ESound(h, db.eTables, db.chains);
    hide Readable, Enumerates, AllSizable, AllConsistent, InitECChain, InitAChain, InitFctChain, InitEChains,
      HeightsRight, SortByHeight, Fetch, Signed, Present, InitEChainFromDB, V.ChainVerdict;
  }

  /** Start-up succeeds exactly on a sound database; the directory chain in memory is then the stored one. */
  lemma StartsIff(h: Hashing, cfg: Config, db: Db, dTable: map<Digest, DirectoryBlock.Block>, cursor: Cursor)
    requires Readable(db, dTable, cursor) && dTable != map[]
    ensures StartUp(h, cfg, db, dTable, cursor).Ok? <==> Sound(h, cfg, db, dTable, cursor)
    ensures StartUp(h, cfg, db, dTable, cursor).Ok? ==>
      StartUp(h, cfg, db, dTable, cursor).value.dBlocks == SortByHeight(DHeight, Fetch(dTable, cursor.d))
  {
    hide *;
    KeysAreThere(db, dTable, cursor);
    DSound(h, dTable, cursor.d);
    SoundParts(h, cfg, db, dTable, cursor);
    StartUpParts(h, cfg, db, dTable, cursor);
  }

  /** So whatever start-up takes is signed: every admin block above height 0 by the server, over the header of
      the loaded directory block below. */
  lemma WhatStartsIsSigned(h: Hashing, cfg: Config, db: Db, dTable: map<Digest, DirectoryBlock.Block>, cursor: Cursor,
      k: Digest)
    requires Readable(db, dTable, cursor) && dTable != map[] && StartUp(h, cfg, db, dTable, cursor).Ok?
    requires k in db.aBlocks && db.aBlocks[k].header.dbHeight > 0
    ensures var (blocks, a) := (StartUp(h, cfg, db, dTable, cursor).value.dBlocks, db.aBlocks[k]);
      && a.header.dbHeight - 1 < |blocks|
      && SignsFor(cfg.trust, a, DirectoryBlock.MarshalHeader(blocks[a.header.dbHeight - 1].header))
  {
    hide *;
    StartsIff(h, cfg, db, dTable, cursor);
    KeysAreThere(db, dTable, cursor);
    SoundMeans(h, cfg, db, dTable, cursor, k);
    SignedAbove(cfg.trust, SortByHeight(DHeight, Fetch(dTable, cursor.d)), db.aBlocks[k]);
  }

  lemma SoundMeans(h: Hashing, cfg: Config, db: Db, dTable: map<Digest, DirectoryBlock.Block>, cursor: Cursor, k: Digest)
    requires Readable(db, dTable, cursor) && Sound(h, cfg, db, dTable, cursor) && k in db.aBlocks
    requires forall j :: j in cursor.d ==> j in dTable
    ensures Signed(cfg.trust, Present(SortByHeight(DHeight, Fetch(dTable, cursor.d))), db.aBlocks[k])
  {
    hide HeightsRight, SortByHeight, Fetch, Signed, Present, InitEChainFromDB, V.ChainVerdict, Readable;
  }

  lemma SignedAbove(t: Trust, dBlocks: seq<DirectoryBlock.Block>, a: AdminBlock.Block)
    requires Signed(t, Present(dBlocks), a) && a.header.dbHeight > 0
    ensures a.header.dbHeight - 1 < |dBlocks|
    ensures SignsFor(t, a, DirectoryBlock.MarshalHeader(dBlocks[a.header.dbHeight - 1].header))
  {
    hide SignsFor, Unsigned, DirectoryBlock.MarshalHeader;
  }

  // ---------------------------------------------------------------- the loops

  /** The server's index and the ten minutes. */
  predicate TenMinutesAhead(body: seq<ECBlock.ECEntry>) {
    && |body| == 11 && body[0] == ECBlock.ServerIndex(0)
    && forall i :: 1 <= i <= 10 ==> body[i] == ECBlock.Minute(i)
  }

  lemma {:induction false} TenMinutesAre(n: nat)
    requires n <= 10
    ensures |TenMinutes(n)| == n && forall i :: 0 <= i < n ==> TenMinutes(n)[i] == ECBlock.Minute(i + 1)
  {
    if n > 0 {
      TenMinutesAre(n - 1);
    }
  }

  lemma TenAre()
    ensures TenMinutesAhead([ECBlock.ServerIndex(SERVER_INDEX)] + TenMinutes(10))
  {
    hide TenMinutes;
    TenMinutesAre(10);
  }

  lemma StartsLinked(h: Hashing, table: map<Digest, ECBlock.Block>, keys: seq<Digest>, nextDBHeight: u32)
    requires (forall k :: k in keys ==> k in table) && AllSizable(table)
    ensures InitECChain(h, table, keys, nextDBHeight).Ok? ==>
      var blocks := SortByHeight(ECHeight, Fetch(table, keys));
      var (credits, open) := InitECChain(h, table, keys, nextDBHeight).value;
      && credits == ReplayBlocks(blocks)
      && if blocks == [] || nextDBHeight == 0 then ECBlock.Follows(h, open.header, []) && TenMinutesAhead(open.body)
         else
           && nextDBHeight <= |blocks| && open.body == []
           && (ECBlock.HeaderMatches(h, blocks[nextDBHeight - 1]) ==>
               ECBlock.Follows(h, open.header, blocks[..nextDBHeight]))
  {
    TenAre();
    hide SortByHeight, ReplayBlocks, Fetch, ECBlock.LinksTo, ECBlock.HeaderMatches, ECBlock.Sizable, AllSizable,
      ECBlock.HeaderHash, ECBlock.FullHash;
    var blocks := SortByHeight(ECHeight, Fetch(table, keys));
    if 0 < nextDBHeight <= |blocks| {
      var some := blocks[..nextDBHeight];
      assert some[|some| - 1] == blocks[nextDBHeight - 1];
      if ECBlock.HeaderMatches(h, blocks[nextDBHeight - 1]) {
        ECBlock.NextFollows(h, some);
      }
    }
  }

  lemma StartsSigned(h: Hashing, t: Trust, table: map<Digest, AdminBlock.Block>, keys: seq<Digest>,
      dBlocks: seq<DirectoryBlock.Block>)
    requires (forall k :: k in keys ==> k in table) && AllConsistent(table)
    ensures InitAChain(h, t, table, keys, dBlocks).Ok? ==> forall k :: k in keys ==> Signed(t, Present(dBlocks), table[k])
  {
    hide SortByHeight, HeightsRight, AllSigned, Signed, AdminBlock.CreateAdminBlock, AllConsistent;
    AllSignedMeans(t, dBlocks, table, keys);
  }

  method LoadAll<T>(height: T -> int, table: map<Digest, T>, keys: seq<Digest>) returns (r: Result<seq<T>>)
    requires forall k :: k in keys ==> k in table
    ensures r == LoadByHeight(height, table, keys)
  {
    var slice := FetchAll(table, keys);
    var xs := SortByHeight(height, slice);
    for i := 0 to |xs|
      invariant forall j :: 0 <= j < i ==> height(xs[j]) == j % TWO_32
    {
      if height(xs[i]) != i % TWO_32 {
        return Err(Panic);
      }
    }
    return Ok(xs);
  }

  /** process/init.go:80-125 */
  method InitializeECChain(h: Hashing, table: map<Digest, ECBlock.Block>, keys: seq<Digest>,
                           nextDBHeight: u32) returns (r: Result<(map<Digest, int>, ECBlock.Block)>)
    requires (forall k :: k in keys ==> k in table) && AllSizable(table)
    ensures r == InitECChain(h, table, keys, nextDBHeight)
    ensures r.Ok? ==>
      var (blocks, credits, open) := (SortByHeight(ECHeight, Fetch(table, keys)), r.value.0, r.value.1);
      && credits == ReplayBlocks(blocks)
      && if blocks == [] || nextDBHeight == 0 then ECBlock.Follows(h, open.header, []) && TenMinutesAhead(open.body)
         else
           && nextDBHeight <= |blocks| && open.body == []
           && (ECBlock.HeaderMatches(h, blocks[nextDBHeight - 1]) ==>
               ECBlock.Follows(h, open.header, blocks[..nextDBHeight]))
  {
    hide TenMinutesAhead, ECBlock.Follows, ECBlock.HeaderMatches, ECBlock.NextECBlock, ReplayBlocks, SortByHeight,
        ECBlock.Sizable;
    StartsLinked(h, table, keys, nextDBHeight);
    var slice := FetchAll(table, keys);
    var blocks := SortByHeight(ECHeight, slice);
    var credits := BalancesFromBlocks(blocks);
    if blocks == [] || nextDBHeight == 0 {
      var open := ECBlock.NewECBlock();
      open := open.(body := open.body + [ECBlock.ServerIndex(SERVER_INDEX)]);
      for i := 0 to 10
        invariant open == ECBlock.NewECBlock().(body := [ECBlock.ServerIndex(SERVER_INDEX)] + TenMinutes(i))
      {
        assert TenMinutes(i + 1) == TenMinutes(i) + [ECBlock.Minute(i + 1)];
        open := open.(body := open.body + [ECBlock.Minute(i + 1)]);
      }
      return Ok((credits, open));
    }
    if |blocks| < nextDBHeight {
      return Err(Panic);
    }
    SortedFrom(ECHeight, table, keys, nextDBHeight - 1);
    return Ok((credits, ECBlock.NextECBlock(h, blocks[nextDBHeight - 1])));
  }

  /** process/init.go:128-162 */
  method InitializeAChain(h: Hashing, t: Trust, table: map<Digest, AdminBlock.Block>, keys: seq<Digest>,
                          dBlocks: seq<DirectoryBlock.Block>) returns (r: Result<AdminBlock.Block>)
    requires (forall k :: k in keys ==> k in table) && AllConsistent(table)
    ensures r == InitAChain(h, t, table, keys, dBlocks)
    ensures r.Ok? ==> forall k :: k in keys ==> Signed(t, Present(dBlocks), table[k])
  {
    hide Signed, SignatureAnswer, AdminBlock.CreateAdminBlock;
    StartsSigned(h, t, table, keys, dBlocks);
    var slice := FetchAll(table, keys);
    var blocks := SortByHeight(AHeight, slice);
    for i := 0 to |blocks|
      invariant forall j :: 0 <= j < i ==> AHeight(blocks[j]) == j % TWO_32
      invariant forall j :: 0 <= j < i ==> SignatureAnswer(t, Present(dBlocks), blocks[j]) == Yes
    {
      if AHeight(blocks[i]) != i % TWO_32 || SignatureAnswer(t, Present(dBlocks), blocks[i]) != Yes {
        return Err(Panic);
      }
    }
    var next := |dBlocks| % TWO_32;
    if blocks == [] || next == 0 {
      return Ok(AdminBlock.CreateAdminBlock(h, 0, None));
    }
    if |blocks| < next {
      return Err(Panic);
    }
    SortedFrom(AHeight, table, keys, next - 1);
    return Ok(AdminBlock.CreateAdminBlock(h, next, Some(blocks[next - 1])));
  }

  /** process/processor.go:160-165: the chains in whatever order the map delivers them. */
  method InitializeEChains(h: Hashing, t: Tables, table: map<Digest, Entry>) returns (r: Result<map<Digest,
      EBlock.EChain>>)
    ensures r == InitEChains(h, t, table)
  {
    hide InitEChainFromDB;
    var chains: map<Digest, EBlock.EChain> := map[];
    var todo := table.Keys;
    while todo != {}
      invariant todo <= table.Keys && chains.Keys == table.Keys - todo
      invariant forall cid :: cid in chains ==>
          InitEChainFromDB(h, t, cid).Ok? && chains[cid] == ReadChain(h, t, cid, table[cid])
    {
      var cid :| cid in todo;
      if InitEChainFromDB(h, t, cid).Err? {
        return Err(Panic);
      }
      chains := chains[cid := ReadChain(h, t, cid, table[cid])];
      todo := todo - {cid};
    }
    assert forall cid :: cid in table ==> cid in chains;
    assert chains == map cid | cid in table :: ReadChain(h, t, cid, table[cid]);
    return Ok(chains);
  }

  /** The rate of the highest factoid block. */
  function NewestRate(table: map<Digest, FBlock>, keys: seq<Digest>): u64
    requires (forall k :: k in keys ==> k in table) && keys != []
  {
    var blocks := SortByHeight(FHeight, Fetch(table, keys));
    blocks[|blocks| - 1].rate
  }

  lemma RateLoaded(table: map<Digest, FBlock>, keys: seq<Digest>, xs: seq<FBlock>)
    requires (forall k :: k in keys ==> k in table) && LoadByHeight(FHeight, table, keys) == Ok(xs)
    ensures |xs| == |keys| && (keys != [] ==> NewestRate(table, keys) == xs[|xs| - 1].rate)
  {
    hide SortByHeight, HeightsRight;
  }

  /** process/init.go:165-217: every block sets the rate again. */
  method InitializeFctChain(table: map<Digest, FBlock>, keys: seq<Digest>) returns (r: Result<u64>)
    requires forall k :: k in keys ==> k in table
    ensures r == InitFctChain(table, keys)
    ensures r.Ok? ==> r.value == if keys == [] then 666666 else NewestRate(table, keys)
  {
    hide LoadByHeight, NewestRate;
    var f := LoadAll(FHeight, table, keys);
    if f.Err? {
      return Err(f.error);
    }
    RateLoaded(table, keys, f.value);
    var rate := FACTOSHIS_PER_CREDIT;
    for i := 0 to |f.value|
      invariant rate == if i == 0 then FACTOSHIS_PER_CREDIT else f.value[i - 1].rate
    {
      rate := f.value[i].rate;
    }
    return Ok(rate);
  }

  /** process/processor.go:110-177 */
  method InitProcessor(h: Hashing, cfg: Config, db: Db, dTable: map<Digest, DirectoryBlock.Block>,
                       cursor: Cursor) returns (r: Result<Started>)
    requires Readable(db, dTable, cursor) && dTable != map[]
    ensures r == StartUp(h, cfg, db, dTable, cursor)
  {
    hide InitFctChain, InitECChain, InitAChain, LoadByHeight, InitEChains, V.ChainVerdict, DirectoryBlock.CreateDBlock,
      SignDirectoryBlock, AllSizable, AllConsistent, SortByHeight, Fetch, ReplayBlocks, ECBlock.Follows,
          ECBlock.HeaderMatches,
      Signed, Present, NewestRate;
    var d := LoadAll(DHeight, dTable, cursor.d);
    if d.Err? {
      return Err(d.error);
    }
    var dBlocks := d.value;
    var dNext := DirectoryBlock.CreateDBlock(h, |dBlocks| % TWO_32, if dBlocks == [] then None
        else Some(dBlocks[|dBlocks| - 1]));
    var ec := InitializeECChain(h, db.ecBlocks, cursor.ec, |dBlocks| % TWO_32);
    if ec.Err? {
      return Err(ec.error);
    }
    var a := InitializeAChain(h, cfg.trust, db.aBlocks, cursor.a, dBlocks);
    if a.Err? {
      return Err(a.error);
    }
    var rate := InitializeFctChain(db.fBlocks, cursor.f);
    if rate.Err? {
      return Err(rate.error);
    }
    var aNext := SignDirectoryBlock(cfg, dBlocks, a.value);
    var chains := InitializeEChains(h, db.eTables, db.chains);
    if chains.Err? {
      return Err(chains.error);
    }
    var verdict := V.ValidateDChain(h, db, cfg.trust.genesis, dBlocks, |dBlocks| % TWO_32);
    if verdict != V.Valid {
      return Err(Panic);
    }
    var (credits, ecNext) := ec.value;
    return Ok(Started(NewFront(rate.value, credits, chains.value), ecNext, aNext, dNext, dBlocks));
  }
}
