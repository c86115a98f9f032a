/** The server's invariant across block boundaries: chains, tables and the directory chain. */
module ServerBlocks {
  import opened Basics
  import opened Entries
  import opened Messages
  import opened Ledger
  import opened ReplayFilter
  import opened ECLedger
  import opened Balances
  import opened Commits
  import opened ChargedOnce
  import opened ChainOrder
  import opened EntryStore
  import opened Builder
  import opened BuildProofs
  import opened Server
  import opened Minutes
  import opened TableScan
  import EBlock
  import ECBlock
  import AdminBlock
  import DirectoryBlock

  // ---------------------------------------------------------------- how the in-memory half moves

  /** Between two blocks the process list and the chain map only grow, and a chain is created only if
      it was unknown. */
  predicate Grows(f: Front, g: Front) {
    && g.rate == f.rate
    && |f.items| <= |g.items| && g.items[..|f.items|] == f.items
    && |f.log| <= |g.log| && g.log[..|f.log|] == f.log && |g.log| - |g.items| == |f.log| - |f.items|
    && (forall cid :: cid in f.chains ==> cid in g.chains && g.chains[cid] == f.chains[cid])
    && (forall cid :: cid in g.chains && cid !in f.chains ==>
          g.chains[cid].nextBlockHeight == 0 && g.chains[cid].nextBlock == EBlock.NewEBlock())
    && (forall i :: |f.items| <= i < |g.items| && g.items[i].RevealChainItem? ==> g.items[i].first.chainID !in f.chains)
  }

  lemma GrowsReflexive(f: Front, g: Front)
    requires g.rate == f.rate && g.items == f.items && g.log == f.log && g.chains == f.chains
    ensures Grows(f, g)
  {
  }

  lemma GrowsByOther(f: Front, g: Front, i: Item)
    requires g.rate == f.rate && g.chains == f.chains && !IsReveal(i)
    requires (g.items == f.items && g.log == f.log) || (g.items == f.items + [i] && g.log == f.log + [i])
    ensures Grows(f, g)
  {
  }

  lemma GrowsTransitive(f: Front, g: Front, k: Front)
    requires Grows(f, g) && Grows(g, k)
    ensures Grows(f, k)
  {
    assert k.items[..|f.items|] == k.items[..|g.items|][..|f.items|];
    assert k.log[..|f.log|] == k.log[..|g.log|][..|f.log|];
    forall i | |f.items| <= i < |k.items| && k.items[i].RevealChainItem?
      ensures k.items[i].first.chainID !in f.chains
    {
      if i < |g.items| {
        assert k.items[i] == k.items[..|g.items|][i];
      }
    }
  }

  lemma GrowsByReveal(env: Env, f: Front, e: Entry)
    ensures Grows(f, ProcessRevealEntry(env, f, e).0)
  {
    hide ProcessRevealEntry, Reserved, EntryHash;
    var g := ProcessRevealEntry(env, f, e).0;
    RevealShape(env, f, e);
    RevealChains(env, f, e);
    var more := g.items[|f.items|..];
    assert g.items == f.items + more && g.log == f.log + more;
  }

  lemma GrowsByServe(env: Env, f: Front, ev: Event)
    requires f.rate > 0 && f.totalItems == 0
    ensures Grows(f, Serve(env, f, ev).0)
  {
    if ev.OnRevealEntry? {
      hide ProcessRevealEntry, Grows;
      GrowsByReveal(env, f, ev.entry);
      GrowsReflexive(f, f);
    } else {
      hide Serve, Grows;
      var i := OtherItem(env, f, ev);
      GrowsByOther(f, Serve(env, f, ev).0, i);
    }
  }

  /** What a message that is no reveal can do: put one other item on the list. */
  lemma OtherItem(env: Env, f: Front, ev: Event) returns (i: Item)
    requires f.rate > 0 && f.totalItems == 0 && !ev.OnRevealEntry?
    ensures var g := Serve(env, f, ev).0;
      && !IsReveal(i) && (i.MinuteItem? ==> 1 <= i.minute < 10) && g.rate == f.rate && g.chains == f.chains
      && ((g.items == f.items && g.log == f.log) || (g.items == f.items + [i] && g.log == f.log + [i]))
  {
    hide InTime, AddTo, AddOutputs, Fresh, Record, GetMilliTime;
    match ev
    case OnCommitChain(c, _, _, _) => i := CommitChainItem(c);
    case OnCommitEntry(c, _, _, _) => i := CommitEntryItem(c);
    case OnFactoidTX(tx, _, _, _) => i := FactoidItem(tx);
    case OnMinute(m) => i := if 1 <= m < 10 then MinuteItem(m) else MinuteItem(1);
  }

  lemma GrowsByRetry(env: Env, f: Front, k: Digest, clock: int)
    requires Limits(f) && k in f.orphans
    ensures Grows(f, RetryOrphan(env, f, k, clock))
  {
    hide ProcessRevealEntry, Grows;
    var e := f.orphans[k].entry;
    var g := ProcessRevealEntry(env, f, e).0;
    GrowsByReveal(env, f, e);
    GrowsReflexive(g, g);
    GrowsReflexive(g, g.(orphans := g.orphans - {k}));
    GrowsTransitive(f, g, RetryOrphan(env, f, k, clock));
  }

  lemma {:induction false} GrowsByDrain(env: Env, loaded: set<Digest>, base: map<Digest, int>, f: Front,
                                        order: seq<Digest>, clock: int)
    requires FrontInv(env, loaded, base, f)
    ensures Grows(f, ProcessFromOrphanPool(env, f, order, clock))
    decreases |order|
  {
    hide FrontInv, RetryOrphan, Grows;
    if order == [] {
      GrowsReflexive(f, f);
    } else {
      var n := |order| - 1;
      GrowsByDrain(env, loaded, base, f, order[..n], clock);
      DrainKeepsFrontInv(env, loaded, base, f, order[..n], clock);
      var g := ProcessFromOrphanPool(env, f, order[..n], clock);
      if order[n] in g.orphans {
        FrontInvLimits(env, loaded, base, g);
        GrowsByRetry(env, g, order[n], clock);
        GrowsTransitive(f, g, RetryOrphan(env, g, order[n], clock));
      }
    }
  }

  lemma FrontInvLimits(env: Env, loaded: set<Digest>, base: map<Digest, int>, f: Front)
    requires FrontInv(env, loaded, base, f)
    ensures Limits(f)
  {
  }

  lemma GrowsByCloseList(env: Env, loaded: set<Digest>, base: map<Digest, int>, f: Front, order: seq<Digest>,
                         clock: int)
    requires FrontInv(env, loaded, base, f)
    ensures Grows(f, CloseList(env, f, order, clock))
  {
    hide FrontInv, ProcessFromOrphanPool, Grows;
    var g := ProcessFromOrphanPool(env, f, order, clock);
    GrowsByDrain(env, loaded, base, f, order, clock);
    GrowsByOther(g, Accept(g, MinuteItem(10)), MinuteItem(10));
    GrowsTransitive(f, g, Accept(g, MinuteItem(10)));
  }

  // ---------------------------------------------------------------- chains and their stored blocks

  /** The history before the current process list. */
  function Settled(f: Front): seq<Item>
    requires |f.items| <= |f.log|
  {
    f.log[..|f.log| - |f.items|]
  }

  /** The live chain is what its stored blocks make it, and these are linked. */
  predicate LiveAt(h: Hashing, eSealed: seq<EBlock.Block>, cid: Digest, chain: EBlock.EChain) {
    var blocks := ChainBlocks(eSealed, cid);
    && Consecutive(eSealed, cid) && NonEmptyBodies(blocks) && EBlock.Linked(h, blocks)
    && LiveChain(h, cid, blocks) == (chain.nextBlockHeight, chain.nextBlock)
  }

  /** Loaded at start-up, or created by an accepted reveal in a sealed block. */
  predicate Owned(loaded: set<Digest>, f: Front, cid: Digest)
    requires |f.items| <= |f.log|
  {
    cid in loaded || CreatedIn(Settled(f), cid)
  }

  /** A chain that was registered but not created: its first block is filed under no chain, and from
      then on its blocks have numbers above 0. */
  predicate Stranger(chain: EBlock.EChain) {
    if chain.nextBlockHeight == 0 then
      chain.nextBlock.header.chainID == ZERO_HASH
    else
      && chain.nextBlock.header.chainID == chain.chainID
      && chain.nextBlock.header.ebSequence == chain.nextBlockHeight % TWO_32
  }

  predicate ChainRight(h: Hashing, loaded: set<Digest>, f: Front, eSealed: seq<EBlock.Block>, height: nat, cid: Digest)
    requires |f.items| <= |f.log| && cid in f.chains
  {
    && f.chains[cid].nextBlockHeight <= height
    && (Owned(loaded, f, cid) && cid[31] < 255 ==> LiveAt(h, eSealed, cid, f.chains[cid]))
  }

  /** Only chains that were created have a block number 0 under their own id. */
  predicate ZerosOwned(loaded: set<Digest>, f: Front, eSealed: seq<EBlock.Block>)
    requires |f.items| <= |f.log|
  {
    forall j :: 0 <= j < |eSealed| && eSealed[j].header.ebSequence == 0 && eSealed[j].header.chainID != ZERO_HASH ==>
      Owned(loaded, f, eSealed[j].header.chainID)
  }

  /** What every chain is, as far as its stored blocks decide it. */
  predicate ChainsRight(h: Hashing, loaded: set<Digest>, f: Front, eSealed: seq<EBlock.Block>, height: nat) {
    && |f.items| <= |f.log|
    && (forall cid :: cid in f.chains ==> ChainRight(h, loaded, f, eSealed, height, cid))
    && ZerosOwned(loaded, f, eSealed)
  }

  /** The open block of an owned chain carries its id; the other chains are strangers. */
  predicate OpensRight(h: Hashing, loaded: set<Digest>, f: Front) {
    && |f.items| <= |f.log|
    && forall cid :: cid in f.chains ==>
      if Owned(loaded, f, cid) then OpenOwned(h, cid, f.chains[cid]) else Stranger(f.chains[cid])
  }

  predicate OpenOwned(h: Hashing, cid: Digest, chain: EBlock.EChain) {
    && chain.nextBlock.header.chainID == cid
    && (chain.nextBlockHeight == 0 ==> chain.nextBlock == EBlock.MakeEBlock(h, cid, 0, None))
  }

  /** The chain table holds exactly the owned chains, each with its first entry. */
  predicate TableRight(loaded: set<Digest>, f: Front, table: map<Digest, Entry>) {
    && |f.items| <= |f.log|
    && (forall cid :: cid in table ==> Owned(loaded, f, cid) && cid in f.chains && table[cid] == f.chains[cid].firstEntry)
    && (forall cid :: cid in f.chains && Owned(loaded, f, cid) ==> cid in table)
  }

  lemma ReservedZero()
    ensures Reserved(ZERO_HASH)
  {
  }

  lemma OwnedIsKnown(loaded: set<Digest>, f: Front, cid: Digest)
    requires Ordered(loaded, f) && |f.items| <= |f.log| && Owned(loaded, f, cid)
    ensures cid in f.chains
  {
    if cid !in loaded {
      var k :| 0 <= k < |Settled(f)| && Settled(f)[k].RevealChainItem? && Settled(f)[k].first.chainID == cid;
      assert f.log[k] == Settled(f)[k] && IsReveal(f.log[k]);
    }
  }

  /** Between blocks nothing new is owned. */
  lemma OwnedStays(loaded: set<Digest>, f: Front, g: Front, cid: Digest)
    requires Grows(f, g) && |f.items| <= |f.log|
    ensures |g.items| <= |g.log| && (Owned(loaded, g, cid) <==> Owned(loaded, f, cid))
  {
    assert Settled(g) == Settled(f) by {
      assert g.log[..|f.log|][..|f.log| - |f.items|] == g.log[..|g.log| - |g.items|];
    }
  }

  lemma RightGrows(h: Hashing, loaded: set<Digest>, f: Front, g: Front, eSealed: seq<EBlock.Block>, height: nat)
    requires Grows(f, g) && ChainsRight(h, loaded, f, eSealed, height) && Ordered(loaded, f)
    ensures ChainsRight(h, loaded, g, eSealed, height)
  {
    hide LiveAt, Owned, EBlock.MakeEBlock;
    forall cid
      ensures |g.items| <= |g.log| && (Owned(loaded, g, cid) <==> Owned(loaded, f, cid))
    {
      OwnedStays(loaded, f, g, cid);
    }
    forall cid | cid in g.chains
      ensures ChainRight(h, loaded, g, eSealed, height, cid)
    {
      if cid in f.chains {
        assert ChainRight(h, loaded, f, eSealed, height, cid);
      } else if Owned(loaded, f, cid) {
        OwnedIsKnown(loaded, f, cid);
      }
    }
  }

  lemma NamesGrow(h: Hashing, loaded: set<Digest>, f: Front, g: Front, table: map<Digest, Entry>)
    requires Grows(f, g) && Ordered(loaded, f) && OpensRight(h, loaded, f) && TableRight(loaded, f, table)
    ensures OpensRight(h, loaded, g) && TableRight(loaded, g, table)
  {
    hide Owned, OpenOwned;
    forall cid
      ensures |g.items| <= |g.log| && (Owned(loaded, g, cid) <==> Owned(loaded, f, cid))
      ensures Owned(loaded, f, cid) ==> cid in f.chains
    {
      OwnedStays(loaded, f, g, cid);
      if Owned(loaded, f, cid) {
        OwnedIsKnown(loaded, f, cid);
      }
    }
  }

  // ---------------------------------------------------------------- creations on the list

  lemma CreationsAreFresh(env: Env, loaded: set<Digest>, f: Front, t: Tables)
    requires Ordered(loaded, f) && Suffix(f) && NewChainsWait(f) && CreationsReadable(env.h, t, f.items)
    ensures CreationsFresh(env.h, t, f.chains, f.items) && ChainsKnown(f.items, f.chains)
  {
    hide InitEChainFromDB, EBlock.NewChain;
    var off := |f.log| - |f.items|;
    forall i | 0 <= i < |f.items|
      ensures f.items[i] == f.log[off + i]
    {
    }
    forall i | 0 <= i < |f.items| && f.items[i].RevealChainItem?
      ensures forall j :: 0 <= j < i && IsReveal(f.items[j]) ==> Revealed(f.items[j]).chainID != f.items[i].first.chainID
    {
      forall j | 0 <= j < i && IsReveal(f.items[j])
        ensures Revealed(f.items[j]).chainID != f.items[i].first.chainID
      {
        assert IsReveal(f.log[off + j]) && f.log[off + i].RevealChainItem?;
      }
    }
  }

  // ---------------------------------------------------------------- the tables and the directory chain

  /** Everything about the sealed half that does not mention the in-memory half. */
  predicate Tidy(h: Hashing, b: Back) {
    && b.aHeight == b.fHeight == b.nextDBHeight == |b.dBlocks|
    && b.dNext.entries == [] && b.dNext.header.dbHeight == b.nextDBHeight % TWO_32
    && (b.dBlocks != [] ==>
          && b.dNext.header.prevKeyMR == DirectoryBlock.KeyMR(h, b.dBlocks[|b.dBlocks| - 1])
          && b.dNext.header.prevLedgerKeyMR == DirectoryBlock.DBHash(h, b.dBlocks[|b.dBlocks| - 1]))
    && DirectoryBlock.Linked(h, b.dBlocks) && DirectoryBlock.Numbered(b.dBlocks)
    && (forall i :: 0 <= i < |b.ecNext.body| ==> b.ecNext.body[i].ServerIndex? || b.ecNext.body[i].Minute?)
    && |b.aNext.header.expansion| == b.aNext.header.expansionSize
    && Storable(h, b.eSealed) && b.db.eTables == StoreAll(h, b.eSealed)
    && EntriesStored(b.eSealed, b.db.entries) && Named(h, b.db.entries)
  }

  /** Every hash in a stored entry block is a marker or the key of a stored entry. */
  predicate EntriesStored(eSealed: seq<EBlock.Block>, entries: map<Digest, Entry>) {
    forall j :: 0 <= j < |eSealed| ==> BodyStored(eSealed[j].body, entries)
  }

  predicate BodyStored(body: seq<Digest>, entries: map<Digest, Entry>) {
    forall k :: 0 <= k < |body| ==> EBlock.IsMinuteMarker(body[k]) || body[k] in entries
  }

  /** What a directory entry points at, with the entry blocks stored so far. */
  predicate Listed(h: Hashing, db: Db, eSealed: seq<EBlock.Block>, e: DirectoryBlock.DBEntry) {
    if e.chainID == EC_CHAINID then e.keyMR in db.ecBlocks
    else if e.chainID == ADMIN_CHAINID then e.keyMR in db.aBlocks
    else if e.chainID == FACTOID_CHAINID then e.keyMR in db.fBlocks
    else exists j :: 0 <= j < |eSealed| && eSealed[j].body != [] && EBlock.KeyMR(h, eSealed[j]) == e.keyMR
  }

  lemma ListedStays(h: Hashing, db: Db, bs: seq<EBlock.Block>, db': Db, bs': seq<EBlock.Block>,
                    e: DirectoryBlock.DBEntry)
    requires Listed(h, db, bs, e)
    requires db.ecBlocks.Keys <= db'.ecBlocks.Keys && db.aBlocks.Keys <= db'.aBlocks.Keys
    requires db.fBlocks.Keys <= db'.fBlocks.Keys
    requires |bs| <= |bs'| && bs'[..|bs|] == bs
    ensures Listed(h, db', bs', e)
  {
    hide EBlock.KeyMR;
    if e.chainID != EC_CHAINID && e.chainID != ADMIN_CHAINID && e.chainID != FACTOID_CHAINID {
      var j :| 0 <= j < |bs| && bs[j].body != [] && EBlock.KeyMR(h, bs[j]) == e.keyMR;
      assert bs'[j] == bs[j];
    }
  }

  /** Every entry of every directory block points at a stored block. */
  predicate AllListed(h: Hashing, b: Back) {
    forall i :: 0 <= i < |b.dBlocks| ==> forall j :: 0 <= j < |b.dBlocks[i].entries| ==>
        Listed(h, b.db, b.eSealed, b.dBlocks[i].entries[j])
  }

  // ---------------------------------------------------------------- the records of every period

  function ECRows(h: Hashing, ecs: seq<ECBlock.Block>): seq<(Digest, ECBlock.Block)>
    requires forall i :: 0 <= i < |ecs| ==> |ecs[i].header.expansion| < TWO_64
  {
    seq(|ecs|, i requires 0 <= i < |ecs| => (ECBlock.HeaderHash(h, ecs[i]), ecs[i]))
  }

  function ARows(h: Hashing, as_: seq<AdminBlock.Block>): seq<(Digest, AdminBlock.Block)>
    requires forall i :: 0 <= i < |as_| ==> AdminBlock.Consistent(as_[i])
  {
    seq(|as_|, i requires 0 <= i < |as_| => (AdminBlock.PartialHash(h, as_[i]), as_[i]))
  }

  function FRows(fs: seq<FBlock>): seq<(Digest, FBlock)> {
    seq(|fs|, i requires 0 <= i < |fs| => (fs[i].hash, fs[i]))
  }

  function DRows(h: Hashing, ds: seq<DirectoryBlock.Block>): seq<(Digest, DirectoryBlock.Block)> {
    seq(|ds|, i requires 0 <= i < |ds| => (DirectoryBlock.DBHash(h, ds[i]), ds[i]))
  }

  /** The directory block starts with the three blocks of the server's own chains, and lists no others
      of them. */
  predicate Heads(h: Hashing, d: DirectoryBlock.Block, a: AdminBlock.Block, ec: ECBlock.Block, f: FBlock)
    requires AdminBlock.Consistent(a) && |ec.header.expansion| < TWO_64
  {
    && |d.entries| >= 3
    && d.entries[0] == DirectoryBlock.DBEntry(ADMIN_CHAINID, AdminBlock.PartialHash(h, a))
    && d.entries[1] == DirectoryBlock.DBEntry(EC_CHAINID, ECBlock.HeaderHash(h, ec))
    && d.entries[2] == DirectoryBlock.DBEntry(FACTOID_CHAINID, f.hash)
    && forall j :: 3 <= j < |d.entries| ==> !OwnChain(d.entries[j].chainID)
  }

  /** Period i left one block of each of the server's own chains, at its height. */
  predicate RecordedAt(h: Hashing, b: Back, i: nat)
    requires i < |b.dBlocks| && |b.ecSealed| == |b.aSealed| == |b.fSealed| == |b.dBlocks|
  {
    && ECBlock.HeaderMatches(h, b.ecSealed[i]) && b.ecSealed[i].header.ebHeight == i
    && AdminBlock.Consistent(b.aSealed[i]) && b.aSealed[i].header.dbHeight == i
    && Heads(h, b.dBlocks[i], b.aSealed[i], b.ecSealed[i], b.fSealed[i])
  }

  predicate AllRecorded(h: Hashing, b: Back) {
    && |b.ecSealed| == |b.aSealed| == |b.fSealed| == |b.dBlocks|
    && forall i :: 0 <= i < |b.dBlocks| ==> RecordedAt(h, b, i)
  }

  /** The tables are what these blocks have written. */
  predicate TablesRight(h: Hashing, b: Back)
    requires AllRecorded(h, b)
  {
    RecordsFit(h, b);
    && b.db.ecBlocks == TableOf(ECRows(h, b.ecSealed)) && b.db.aBlocks == TableOf(ARows(h, b.aSealed))
    && b.db.fBlocks == TableOf(FRows(b.fSealed)) && b.dTable == TableOf(DRows(h, b.dBlocks))
  }

  lemma RecordsFit(h: Hashing, b: Back)
    requires AllRecorded(h, b)
    ensures forall i :: 0 <= i < |b.ecSealed| ==> |b.ecSealed[i].header.expansion| < TWO_64
    ensures forall i :: 0 <= i < |b.aSealed| ==> AdminBlock.Consistent(b.aSealed[i])
  {
    hide Heads, ECBlock.Built;
    forall i | 0 <= i < |b.dBlocks|
      ensures |b.ecSealed[i].header.expansion| < TWO_64 && AdminBlock.Consistent(b.aSealed[i])
    {
      assert RecordedAt(h, b, i);
    }
  }

  /** Each block of the entry credit chain and of the admin chain leads to the one before it, and so do the
      open ones. */
  predicate OwnLinked(h: Hashing, b: Back) {
    && ECBlock.Linked(h, b.ecSealed) && ECBlock.Follows(h, b.ecNext.header, b.ecSealed)
    && AdminBlock.Linked(h, b.aSealed) && AdminBlock.Follows(h, b.aNext.header, b.aSealed)
  }

  predicate Recorded(h: Hashing, b: Back) {
    && AllRecorded(h, b) && TablesRight(h, b) && OwnLinked(h, b)
    && b.ecNext.header.ebHeight == |b.dBlocks| % TWO_32 && b.aNext.header.dbHeight == |b.dBlocks| % TWO_32
  }

  /** The whole invariant. What it says of single chains may be undone by a hash collision between
      stored entry blocks. */
  ghost predicate Inv(env: Env, loaded: set<Digest>, s: State) {
    && FrontInv(env, loaded, ReplayBlocks(s.back.ecSealed), s.front)
    && OpensRight(env.h, loaded, s.front) && TableRight(loaded, s.front, s.back.db.chains)
    && (BlocksCollide(env.h, s.back.eSealed) || ChainsRight(env.h, loaded, s.front, s.back.eSealed, s.back.nextDBHeight))
    && Tidy(env.h, s.back) && AllListed(env.h, s.back) && Recorded(env.h, s.back)
  }
}
