/** Closing a block keeps the server's invariant, and so does every step: the invariant over runs. */
module CloseProofs {
  import opened Basics
  import opened Entries
  import opened Messages
  import opened Ledger
  import opened ECLedger
  import opened Balances
  import opened Commits
  import opened ChargedOnce
  import opened ChainOrder
  import opened EntryStore
  import opened ChainNumbers
  import opened Builder
  import opened BuildProofs
  import opened Server
  import opened ServerBlocks
  import opened Minutes
  import opened TableScan
  import EBlock
  import ECBlock
  import AdminBlock
  import DirectoryBlock

  // ---------------------------------------------------------------- what sealing produced

  /** The state in which a period is closed: the list is complete, nothing is sealed yet. */
  ghost predicate Ready(env: Env, loaded: set<Digest>, f: Front, b: Back, c: Closing) {
    Inv(env, loaded, State(f, b)) && CanBuild(env, f, b, c) && c.rate > 0 && c.fBlock.chainID == FACTOID_CHAINID
  }

  /** The parts of readiness that speak about chains. */
  ghost predicate ChainsReady(env: Env, f: Front, b: Back, c: Closing) {
    && CanBuild(env, f, b, c)
    && ChainsIdle(f.chains) && Storable(env.h, b.eSealed) && b.db.eTables == StoreAll(env.h, b.eSealed)
    && CreationsFresh(env.h, b.db.eTables, f.chains, f.items)
  }

  lemma ReadyChains(env: Env, loaded: set<Digest>, f: Front, b: Back, c: Closing)
    requires Ready(env, loaded, f, b, c)
    ensures ChainsReady(env, f, b, c)
  {
    hide Fits, CreationsReadable, ChainsIdle, Limits, Books, Balanced, Ordered, Suffix, NewChainsWait, Once,
      OpensRight, TableRight, ChainsRight, BlocksCollide, Recorded, AllListed, CreationsFresh, Storable,
      DirectoryBlock.Linked, DirectoryBlock.Numbered;
    CreationsAreFresh(env, loaded, f, b.db.eTables);
  }

  lemma KeysDistinct(keys: seq<Digest>, chains: map<Digest, EBlock.EChain>)
    requires KeysMatch(keys, chains)
    ensures Distinct(keys)
  {
    forall i, j | 0 <= i < j < |keys|
      ensures keys[i] != keys[j]
    {
      assert Less(keys[i], keys[j]);
      LessIrreflexive(keys[i]);
    }
  }

  lemma SealedBasics(env: Env, f: Front, b: Back, c: Closing)
    requires CanBuild(env, f, b, c)
    ensures var s := SealAll(env, f, b, c);
      && AdminBlock.Consistent(s.admin) && |s.ec.header.expansion| < TWO_64
      && s.work == BuildFromProcessList(env.h, b.db.eTables, f.rate, WorkOf(f, b), f.items)
      && (forall k :: k in c.keys ==> k in s.work.chains)
      && s.seal == SealChains(env.h, b.nextDBHeight,
          Sealing(s.work.chains, FirstEntries(env, s, c), b.db.eTables, b.eSealed), c.keys)
      && s.work.ecBody == b.ecNext.body + ECEntries(f.rate, f.items)
      && s.ec.body == s.work.ecBody
  {
    hide BuildFromProcessList, SealChains, ECBlock.HeaderHash, AdminBlock.PartialHash, ECBlock.MarshalBody,
      SealDBlock, ECEntries, ChainsKnown;
    BuildGrowsBodies(env.h, b.db.eTables, f.rate, WorkOf(f, b), f.items);
  }

  lemma SealedChains(env: Env, f: Front, b: Back, c: Closing)
    requires ChainsReady(env, f, b, c)
    ensures var s := SealAll(env, f, b, c); var h := env.h;
      && s.work.chains.Keys == f.chains.Keys && s.seal.chains.Keys == f.chains.Keys
      && (forall cid :: cid in f.chains ==>
          s.work.chains[cid] == ChainAfter(h, b.db.eTables, f.chains[cid], f.items, cid))
      && (forall cid :: cid in f.chains ==> s.seal.chains[cid] == NextOf(h, b.nextDBHeight, s.work.chains[cid]))
      && (forall k :: k in c.keys ==> k in s.work.chains) && Distinct(c.keys)
      && NonEmptyBodies(NewBlocks(h, b.nextDBHeight, s.work.chains, c.keys))
      && s.seal.eSealed == b.eSealed + NewBlocks(h, b.nextDBHeight, s.work.chains, c.keys)
      && s.seal.eTables == StoreAll(h, s.seal.eSealed)
  {
    hide SealAll, BuildFromProcessList, SealChains, ChainAfter, NextOf, NewBlocks, StoreAll, CreationsFresh, Storable;
    var s, h := SealAll(env, f, b, c), env.h;
    SealedBasics(env, f, b, c);
    assert KeysMatch(c.keys, f.chains);
    KeysDistinct(c.keys, f.chains);
    forall cid | cid in f.chains
      ensures s.work.chains[cid] == ChainAfter(h, b.db.eTables, f.chains[cid], f.items, cid)
    {
      ListOnChains(h, b.db.eTables, f.rate, WorkOf(f, b), f.items, cid);
    }
    var first := Sealing(s.work.chains, FirstEntries(env, s, c), b.db.eTables, b.eSealed);
    SealChainsIs(h, b.nextDBHeight, first, c.keys);
    assert forall cid :: cid in f.chains ==> cid in c.keys;
  }

  // ---------------------------------------------------------------- chains

  lemma AfterKeepsNames(h: Hashing, t: Tables, chains: map<Digest, EBlock.EChain>, items: seq<Item>, cid: Digest)
    requires ChainsIdle(chains) && cid in chains
    ensures var w := ChainAfter(h, t, chains[cid], items, cid);
      && w.chainID == cid && w.nextBlock.body == ChainBody(h, items, cid)
      && (w.nextBlock.header.chainID == cid || w.nextBlock.header.chainID == ZERO_HASH)
  {
    hide ChainBody, CreatedIn, InitEChainFromDB;
    if InitEChainFromDB(h, t, cid).Ok? {
      ReadIsOpen(h, t, cid);
    }
  }

  lemma NextKeepsNames(h: Hashing, height: nat, w: EBlock.EChain)
    ensures var n := NextOf(h, height, w);
      && n.chainID == w.chainID && n.nextBlock.body == []
      && (n.nextBlock.header.chainID == w.chainID || n.nextBlock.header.chainID == w.nextBlock.header.chainID)
      && n.nextBlockHeight <= w.nextBlockHeight + 1
  {
    hide EBlock.Built, EBlock.KeyMR, EBlock.FullHash;
  }

  lemma NewChainsIdle(env: Env, f: Front, b: Back, c: Closing)
    requires ChainsReady(env, f, b, c)
    ensures var s := SealAll(env, f, b, c);
      ChainsIdle(s.seal.chains) && HeadersOwn(s.work.chains)
  {
    hide SealAll, ChainAfter, NextOf, NewBlocks, StoreAll, CanBuild, CreationsFresh, Storable, Reserved;
    var s, h := SealAll(env, f, b, c), env.h;
    SealedChains(env, f, b, c);
    forall cid | cid in f.chains
      ensures s.work.chains[cid].nextBlock.header.chainID == cid
          || s.work.chains[cid].nextBlock.header.chainID == ZERO_HASH
      ensures s.seal.chains[cid].nextBlock.body == [] && s.seal.chains[cid].chainID == cid && !Reserved(cid)
      ensures s.seal.chains[cid].nextBlock.header.chainID == cid
          || s.seal.chains[cid].nextBlock.header.chainID == ZERO_HASH
    {
      AfterKeepsNames(h, b.db.eTables, f.chains, f.items, cid);
      NextKeepsNames(h, b.nextDBHeight, s.work.chains[cid]);
    }
  }

  lemma LiveFacts(h: Hashing, eSealed: seq<EBlock.Block>, cid: Digest, chain: EBlock.EChain)
    requires LiveAt(h, eSealed, cid, chain)
    ensures chain.nextBlockHeight == |ChainBlocks(eSealed, cid)| && Consecutive(eSealed, cid)
    ensures NonEmptyBodies(ChainBlocks(eSealed, cid))
    ensures chain.nextBlock.header.chainID == cid && chain.nextBlock.body == []
    ensures chain.nextBlock.header.ebSequence == chain.nextBlockHeight % TWO_32
    ensures EBlock.Linked(h, ChainBlocks(eSealed, cid))
        && EBlock.Follows(h, chain.nextBlock.header, ChainBlocks(eSealed, cid))
  {
    hide EBlock.KeyMR, EBlock.FullHash, Consecutive, ChainBlocks, EBlock.Linked;
  }

  /** One more block of the right number makes the chain one longer. */
  lemma LiveByOneMore(h: Hashing, eSealed: seq<EBlock.Block>, more: seq<EBlock.Block>, cid: Digest,
                      block: EBlock.Block, next: EBlock.EChain)
    requires Consecutive(eSealed, cid) && NonEmptyBodies(ChainBlocks(eSealed, cid)) && ChainBlocks(more, cid) == [block]
    requires block.body != [] && block.header.ebSequence == |ChainBlocks(eSealed, cid)|
    requires next.nextBlockHeight == |ChainBlocks(eSealed, cid)| + 1
    requires next.nextBlock == EBlock.MakeEBlock(h, cid, next.nextBlockHeight, Some(block))
    requires EBlock.Linked(h, ChainBlocks(eSealed, cid)) && EBlock.Follows(h, block.header, ChainBlocks(eSealed, cid))
    ensures LiveAt(h, eSealed + more, cid, next)
  {
    hide EBlock.MakeEBlock, ChainBlocks, EBlock.Linked, EBlock.Follows;
    var blocks := ChainBlocks(eSealed, cid);
    EBlock.LinkedSnoc(h, blocks, block);
    ChainBlocksAppend(eSealed, more, cid);
    assert ChainBlocks(eSealed + more, cid) == blocks + [block];
    assert (blocks + [block])[|blocks|] == block;
  }

  /** Sealing a live chain leaves it live. */
  lemma SealKeepsLive(h: Hashing, eSealed: seq<EBlock.Block>, more: seq<EBlock.Block>, cid: Digest,
                      was: EBlock.EChain, w: EBlock.EChain, height: nat)
    requires LiveAt(h, eSealed, cid, was)
    requires w == was.(nextBlock := was.nextBlock.(body := w.nextBlock.body)) && was.chainID == cid
    requires was.nextBlockHeight < TWO_31
    requires ChainBlocks(more, cid) == if w.nextBlock.body == [] then [] else [BlockOf(h, height, w)]
    ensures LiveAt(h, eSealed + more, cid, NextOf(h, height, w))
  {
    hide EBlock.MakeEBlock, BlockOf, ChainBlocks, LiveAt, Consecutive, EBlock.Linked, EBlock.Follows;
    LiveFacts(h, eSealed, cid, was);
    if w.nextBlock.body == [] {
      assert w == was;
      LiveByNothing(h, eSealed, more, cid, was);
    } else {
      BlockHeader(h, height, w);
      EBlock.SameLinks(h, was.nextBlock.header, BlockOf(h, height, w).header, ChainBlocks(eSealed, cid));
      LiveByOneMore(h, eSealed, more, cid, BlockOf(h, height, w), NextOf(h, height, w));
    }
  }

  lemma LiveByNothing(h: Hashing, eSealed: seq<EBlock.Block>, more: seq<EBlock.Block>, cid: Digest,
                      chain: EBlock.EChain)
    requires LiveAt(h, eSealed, cid, chain) && ChainBlocks(more, cid) == []
    ensures LiveAt(h, eSealed + more, cid, chain)
  {
    hide LiveChain, ChainBlocks, EBlock.Linked;
    ChainBlocksAppend(eSealed, more, cid);
    assert ChainBlocks(eSealed, cid) + [] == ChainBlocks(eSealed, cid);
  }

  /** A chain created in this period starts its life with its first block. */
  lemma CreationIsLive(h: Hashing, eSealed: seq<EBlock.Block>, more: seq<EBlock.Block>, cid: Digest, w: EBlock.EChain,
                       height: nat)
    requires ChainBlocks(eSealed, cid) == [] && w.chainID == cid && w.nextBlockHeight == 0
    requires w.nextBlock.header == EBlock.MakeEBlock(h, cid, 0, None).header
    requires ChainBlocks(more, cid) == if w.nextBlock.body == [] then [] else [BlockOf(h, height, w)]
    ensures LiveAt(h, eSealed + more, cid, NextOf(h, height, w))
  {
    hide EBlock.Built, EBlock.KeyMR, EBlock.FullHash, BlockOf;
    ChainBlocksAppend(eSealed, more, cid);
    if w.nextBlock.body != [] {
      BlockHeader(h, height, w);
      assert [] + [BlockOf(h, height, w)] == [BlockOf(h, height, w)];
    } else {
      assert [] + ChainBlocks(more, cid) == [];
      assert w.nextBlock == EBlock.MakeEBlock(h, cid, 0, None);
    }
  }

  lemma CreatedSplits(f: Front, cid: Digest)
    requires Suffix(f)
    ensures CreatedIn(f.log, cid) <==> CreatedIn(Settled(f), cid) || CreatedIn(f.items, cid)
  {
    var off := |f.log| - |f.items|;
    if k :| 0 <= k < |f.log| && f.log[k].RevealChainItem? && f.log[k].first.chainID == cid {
      if k < off {
        assert Settled(f)[k] == f.log[k];
      } else {
        assert f.items[k - off] == f.log[k];
      }
    }
    if k :| 0 <= k < |f.items| && f.items[k].RevealChainItem? && f.items[k].first.chainID == cid {
      assert f.log[off + k] == f.items[k];
    }
    if k :| 0 <= k < |Settled(f)| && Settled(f)[k].RevealChainItem? && Settled(f)[k].first.chainID == cid {
      assert f.log[k] == Settled(f)[k];
    }
  }

  /** A chain that was settled before the period is not created in it. */
  lemma SettledNotCreated(loaded: set<Digest>, f: Front, cid: Digest)
    requires Ordered(loaded, f) && Suffix(f) && Owned(loaded, f, cid)
    ensures !CreatedIn(f.items, cid)
  {
    var off := |f.log| - |f.items|;
    forall i | 0 <= i < |f.items| && f.items[i].RevealChainItem?
      ensures f.items[i].first.chainID != cid
    {
      assert f.items[i] == f.log[off + i];
      if cid !in loaded {
        var k :| 0 <= k < |Settled(f)| && Settled(f)[k].RevealChainItem? && Settled(f)[k].first.chainID == cid;
        assert Settled(f)[k] == f.log[k] && IsReveal(f.log[k]);
      }
    }
  }

  /** Closing a block settles what its list created. */
  lemma OwnedAfter(loaded: set<Digest>, f: Front, chains: map<Digest, EBlock.EChain>, rate: u64, cid: Digest)
    requires Suffix(f)
    ensures Owned(loaded, Reopen(f, chains, rate), cid) <==> Owned(loaded, f, cid) || CreatedIn(f.items, cid)
  {
    var g := Reopen(f, chains, rate);
    assert Settled(g) == f.log;
    CreatedSplits(f, cid);
  }

  // ---------------------------------------------------------------- one chain over a period

  lemma FirstStored(eSealed: seq<EBlock.Block>, cid: Digest) returns (j: nat)
    requires ChainBlocks(eSealed, cid) != []
    ensures j < |eSealed| && eSealed[j].header.chainID == cid
  {
    hide ChainBlocks;
    ChainBlocksStored(eSealed, cid, 0);
    ChainBlocksNamed(eSealed, cid, 0);
    j :| 0 <= j < |eSealed| && eSealed[j] == ChainBlocks(eSealed, cid)[0];
  }

  /** Where no number is missing, the owner of number 0 owns the chain. */
  lemma StoredIsOwned(loaded: set<Digest>, f: Front, eSealed: seq<EBlock.Block>, cid: Digest, j: nat)
    requires |f.items| <= |f.log| && ZerosOwned(loaded, f, eSealed) && cid != ZERO_HASH
    requires NoGap(eSealed, cid) && j < |eSealed| && eSealed[j].header.chainID == cid
    ensures Owned(loaded, f, cid)
  {
    hide Owned;
    if eSealed[j].header.ebSequence > 0 {
      assert HasNumber(eSealed, cid, 0);
    }
  }

  lemma NothingStored(loaded: set<Digest>, f: Front, eSealed: seq<EBlock.Block>, cid: Digest)
    requires |f.items| <= |f.log| && ZerosOwned(loaded, f, eSealed) && !Owned(loaded, f, cid) && cid != ZERO_HASH
    requires NoGap(eSealed, cid)
    ensures ChainBlocks(eSealed, cid) == []
  {
    hide *;
    if ChainBlocks(eSealed, cid) != [] {
      var j := FirstStored(eSealed, cid);
      StoredIsOwned(loaded, f, eSealed, cid, j);
    }
  }

  /** Nobody but its creator has stored a block under the id of a chain that is being created. */
  lemma CreationFindsNothing(h: Hashing, loaded: set<Digest>, f: Front, eSealed: seq<EBlock.Block>, cid: Digest)
    requires Storable(h, eSealed) && !BlocksCollide(h, eSealed)
    requires |f.items| <= |f.log| && ZerosOwned(loaded, f, eSealed) && !Owned(loaded, f, cid) && cid != ZERO_HASH
    requires InitEChainFromDB(h, StoreAll(h, eSealed), cid).Ok?
    ensures InitEChainFromDB(h, StoreAll(h, eSealed), cid) == Ok((0, EBlock.MakeEBlock(h, cid, 0, None)))
    ensures cid[31] < 255 ==> ChainBlocks(eSealed, cid) == []
  {
    if cid[31] == 255 {
      hide *;
      Reads255(h, eSealed, cid);
    } else {
      hide StoreAll, Storable, InitEChainFromDB, EBlock.MakeEBlock, Owned, CollisionBetween, StoredInputs,
        LiveChain, ChainBlocks, NoGap, ZerosOwned;
      ReadsIff(h, eSealed, cid);
      NothingStored(loaded, f, eSealed, cid);
      assert Consecutive(eSealed, cid);
      RecoveryIsExact(h, eSealed, cid);
      NothingLive(h, cid);
    }
  }

  lemma NothingLive(h: Hashing, cid: Digest)
    ensures LiveChain(h, cid, []) == (0, EBlock.MakeEBlock(h, cid, 0, None))
  {
    hide EBlock.MakeEBlock;
  }

  lemma {:induction false} ChainBlocksNamed(bs: seq<EBlock.Block>, cid: Digest, i: nat)
    requires i < |ChainBlocks(bs, cid)|
    ensures ChainBlocks(bs, cid)[i].header.chainID == cid
    decreases |bs|
  {
    if i < |ChainBlocks(bs[..|bs| - 1], cid)| {
      ChainBlocksNamed(bs[..|bs| - 1], cid, i);
    }
  }

  /** A stranger stays one, and what it stores is no block number 0 under its own id. */
  lemma StrangerStays(h: Hashing, height: nat, w: EBlock.EChain)
    requires Stranger(w)
    ensures Stranger(NextOf(h, height, w))
    ensures w.nextBlockHeight < TWO_31 ==> w.nextBlock.header.chainID == ZERO_HASH || w.nextBlock.header.ebSequence > 0
  {
    hide EBlock.Built, EBlock.KeyMR, EBlock.FullHash;
  }

  /** The in-memory half after the block. */
  function ReopenedAs(env: Env, f: Front, b: Back, c: Closing): Front
    requires CanBuild(env, f, b, c)
  {
    Reopen(f, SealAll(env, f, b, c).seal.chains, c.rate)
  }

  lemma ReopenedMeans(env: Env, f: Front, b: Back, c: Closing)
    requires CanBuild(env, f, b, c)
    ensures var g := ReopenedAs(env, f, b, c);
      && g == Reopen(f, SealAll(env, f, b, c).seal.chains, c.rate)
      && g.chains == SealAll(env, f, b, c).seal.chains && g.items == [] && |g.items| <= |g.log| && g.log == f.log
  {
    hide SealAll, CanBuild;
  }

  /** A known chain at the end of its period. */
  ghost predicate Closes(env: Env, loaded: set<Digest>, f: Front, b: Back, c: Closing, cid: Digest) {
    && Ready(env, loaded, f, b, c) && ChainsReady(env, f, b, c) && cid in f.chains
    && !BlocksCollide(env.h, b.eSealed) && ChainRight(env.h, loaded, f, b.eSealed, b.nextDBHeight, cid)
    && ZerosOwned(loaded, f, b.eSealed)
  }

  lemma ClosesMeans(env: Env, loaded: set<Digest>, f: Front, b: Back, c: Closing, cid: Digest)
    requires Closes(env, loaded, f, b, c, cid)
    ensures CanBuild(env, f, b, c) && ChainsReady(env, f, b, c) && Suffix(f) && |f.items| <= |f.log|
    ensures Ordered(loaded, f)
    ensures Storable(env.h, b.eSealed) && b.db.eTables == StoreAll(env.h, b.eSealed)
    ensures !BlocksCollide(env.h, b.eSealed) && ZerosOwned(loaded, f, b.eSealed)
    ensures ChainsIdle(f.chains) && cid in f.chains && f.chains[cid].nextBlockHeight <= b.nextDBHeight < TWO_31
    ensures if Owned(loaded, f, cid) then cid[31] < 255 ==> LiveAt(env.h, b.eSealed, cid, f.chains[cid])
        else Stranger(f.chains[cid])
  {
    hide ChainsRight, TableRight, OpenOwned, Recorded, AllListed, Tidy, Books, Balanced, Once, NewChainsWait,
      Limits, LiveAt, Owned, Stranger, ZerosOwned, BlocksCollide, Storable, StoreAll, ChainsIdle,
      CreationsFresh, CreationsReadable, Ordered;
  }

  /** What a list without its creation does to a chain. */
  lemma AfterWithout(h: Hashing, t: Tables, chain: EBlock.EChain, items: seq<Item>, cid: Digest)
    requires !CreatedIn(items, cid)
    ensures ChainAfter(h, t, chain, items, cid) == chain.(nextBlock := chain.nextBlock.(body := ChainBody(h, items, cid)))
  {
    hide ChainBody, InitEChainFromDB, CreatedIn;
  }

  lemma AfterWith(h: Hashing, t: Tables, chain: EBlock.EChain, items: seq<Item>, cid: Digest)
    requires CreatedIn(items, cid) && InitEChainFromDB(h, t, cid).Ok?
    ensures var (n, block) := InitEChainFromDB(h, t, cid).value;
      ChainAfter(h, t, chain, items, cid) == chain.(nextBlock := block.(body := ChainBody(h, items, cid)),
          nextBlockHeight := n)
  {
    hide ChainBody, InitEChainFromDB, CreatedIn;
  }

  /** The blocks that the period adds to chain cid. */
  lemma AddedToChain(env: Env, f: Front, b: Back, c: Closing, cid: Digest) returns (more: seq<EBlock.Block>)
    requires ChainsReady(env, f, b, c) && cid in f.chains
    ensures cid != ZERO_HASH
    ensures var (s, g) := (SealAll(env, f, b, c), ReopenedAs(env, f, b, c));
      var w := ChainAfter(env.h, b.db.eTables, f.chains[cid], f.items, cid);
      && s.seal.eSealed == b.eSealed + more && cid in g.chains
      && g.chains[cid] == NextOf(env.h, b.nextDBHeight, w) && w.chainID == cid
      && (w.nextBlock.header.chainID == cid ==>
            ChainBlocks(more, cid) == if w.nextBlock.body == [] then [] else [BlockOf(env.h, b.nextDBHeight, w)])
  {
    hide SealAll, NextOf, NewBlocks, StoreAll, CreationsFresh, Storable, ChainBlocks, ChainAfter, BlockOf,
      Reserved, Fits, CreationsReadable;
    var s := SealAll(env, f, b, c);
    SealedChains(env, f, b, c);
    NewChainsIdle(env, f, b, c);
    AfterKeepsNames(env.h, b.db.eTables, f.chains, f.items, cid);
    assert cid != ZERO_HASH by {
      assert !Reserved(cid);
      ReservedZero();
    }
    more := NewBlocks(env.h, b.nextDBHeight, s.work.chains, c.keys);
    NewBlocksOfChain(env.h, b.nextDBHeight, s.work.chains, c.keys, cid);
    KeysCover(env, f, b, c, cid);
  }

  lemma KeysCover(env: Env, f: Front, b: Back, c: Closing, cid: Digest)
    requires CanBuild(env, f, b, c) && cid in f.chains
    ensures cid in c.keys
  {
  }

  lemma RightByParts(h: Hashing, loaded: set<Digest>, g: Front, eSealed: seq<EBlock.Block>, height: nat, cid: Digest)
    requires |g.items| <= |g.log| && cid in g.chains && g.chains[cid].nextBlockHeight <= height
    requires Owned(loaded, g, cid) && cid[31] < 255 ==> LiveAt(h, eSealed, cid, g.chains[cid])
    ensures ChainRight(h, loaded, g, eSealed, height, cid)
  {
    hide Owned, LiveAt;
  }

  /** A chain that was there before goes on as it was. */
  lemma OwnedGoesOn(env: Env, loaded: set<Digest>, f: Front, b: Back, c: Closing, cid: Digest)
    requires Closes(env, loaded, f, b, c, cid) && |f.items| <= |f.log| && Owned(loaded, f, cid)
    ensures var g := ReopenedAs(env, f, b, c);
      |g.items| <= |g.log| && cid in g.chains
          && ChainRight(env.h, loaded, g, SealAll(env, f, b, c).seal.eSealed, b.nextDBHeight + 1, cid)
  {
    hide *;
    ClosesMeans(env, loaded, f, b, c, cid);
    SettledNotCreated(loaded, f, cid);
    ReopenedMeans(env, f, b, c);
    var was, g := f.chains[cid], ReopenedAs(env, f, b, c);
    var w := ChainAfter(env.h, b.db.eTables, was, f.items, cid);
    var more := AddedToChain(env, f, b, c, cid);
    AfterWithout(env.h, b.db.eTables, was, f.items, cid);
    OwnedAfter(loaded, f, g.chains, c.rate, cid);
    NextKeepsNames(env.h, b.nextDBHeight, w);
    IdleHasNoBody(f.chains, cid);
    if cid[31] < 255 {
      LiveFacts(env.h, b.eSealed, cid, was);
      SealKeepsLive(env.h, b.eSealed, more, cid, was, w, b.nextDBHeight);
    }
    RightByParts(env.h, loaded, g, b.eSealed + more, b.nextDBHeight + 1, cid);
  }

  lemma IdleHasNoBody(chains: map<Digest, EBlock.EChain>, cid: Digest)
    requires ChainsIdle(chains) && cid in chains
    ensures chains[cid].nextBlock.(body := []) == chains[cid].nextBlock && chains[cid].chainID == cid
  {
  }

  lemma MadeHeader(h: Hashing, cid: Digest, height: nat, prev: Option<EBlock.Block>)
    requires prev.Some? ==> prev.value.body != []
    ensures EBlock.MakeEBlock(h, cid, height, prev).header.chainID == cid
        && EBlock.MakeEBlock(h, cid, height, prev).body == []
  {
    hide EBlock.KeyMR, EBlock.FullHash;
  }

  /** A chain created in the period begins. */
  lemma CreatedBegins(env: Env, loaded: set<Digest>, f: Front, b: Back, c: Closing, cid: Digest)
    requires Closes(env, loaded, f, b, c, cid) && |f.items| <= |f.log| && !Owned(loaded, f, cid)
    requires CreatedIn(f.items, cid)
    ensures var g := ReopenedAs(env, f, b, c);
      |g.items| <= |g.log| && cid in g.chains
          && ChainRight(env.h, loaded, g, SealAll(env, f, b, c).seal.eSealed, b.nextDBHeight + 1, cid)
  {
    hide *;
    ClosesMeans(env, loaded, f, b, c, cid);
    CreationReads(env, f, b, c, cid);
    ReopenedMeans(env, f, b, c);
    var was, g := f.chains[cid], ReopenedAs(env, f, b, c);
    var w := ChainAfter(env.h, b.db.eTables, was, f.items, cid);
    var more := AddedToChain(env, f, b, c, cid);
    CreationFindsNothing(env.h, loaded, f, b.eSealed, cid);
    AfterWith(env.h, b.db.eTables, was, f.items, cid);
    OwnedAfter(loaded, f, g.chains, c.rate, cid);
    NextKeepsNames(env.h, b.nextDBHeight, w);
    MadeHeader(env.h, cid, 0, None);
    if cid[31] < 255 {
      CreationIsLive(env.h, b.eSealed, more, cid, w, b.nextDBHeight);
    }
    RightByParts(env.h, loaded, g, b.eSealed + more, b.nextDBHeight + 1, cid);
  }

  lemma CreationReads(env: Env, f: Front, b: Back, c: Closing, cid: Digest)
    requires ChainsReady(env, f, b, c) && CreatedIn(f.items, cid)
    ensures b.db.eTables == StoreAll(env.h, b.eSealed) && InitEChainFromDB(env.h, b.db.eTables, cid).Ok?
  {
    hide InitEChainFromDB;
  }

  /** A chain that nobody created stays a stranger. */
  lemma StrangerGoesOn(env: Env, loaded: set<Digest>, f: Front, b: Back, c: Closing, cid: Digest)
    requires Closes(env, loaded, f, b, c, cid) && |f.items| <= |f.log| && !Owned(loaded, f, cid)
    requires !CreatedIn(f.items, cid)
    ensures var g := ReopenedAs(env, f, b, c);
      |g.items| <= |g.log| && cid in g.chains
          && ChainRight(env.h, loaded, g, SealAll(env, f, b, c).seal.eSealed, b.nextDBHeight + 1, cid)
  {
    hide *;
    ClosesMeans(env, loaded, f, b, c, cid);
    ReopenedMeans(env, f, b, c);
    var was, g := f.chains[cid], ReopenedAs(env, f, b, c);
    var w := ChainAfter(env.h, b.db.eTables, was, f.items, cid);
    var more := AddedToChain(env, f, b, c, cid);
    AfterWithout(env.h, b.db.eTables, was, f.items, cid);
    OwnedAfter(loaded, f, g.chains, c.rate, cid);
    NextKeepsNames(env.h, b.nextDBHeight, w);
    RightByParts(env.h, loaded, g, b.eSealed + more, b.nextDBHeight + 1, cid);
  }

  lemma StrangerIgnoresBody(was: EBlock.EChain, w: EBlock.EChain)
    requires Stranger(was) && w == was.(nextBlock := was.nextBlock.(body := w.nextBlock.body))
    ensures Stranger(w)
  {
  }

  /** Every number 0 that the period adds belongs to a chain that somebody created. */
  lemma NewZeroOwned(env: Env, loaded: set<Digest>, f: Front, b: Back, c: Closing, cid: Digest)
    requires Closes(env, loaded, f, b, c, cid)
    ensures |ReopenedAs(env, f, b, c).items| <= |ReopenedAs(env, f, b, c).log|
    ensures var w := ChainAfter(env.h, b.db.eTables, f.chains[cid], f.items, cid);
      w.nextBlock.header.ebSequence == 0 && w.nextBlock.header.chainID != ZERO_HASH ==>
        w.nextBlock.header.chainID == cid && Owned(loaded, ReopenedAs(env, f, b, c), cid)
  {
    hide *;
    ClosesMeans(env, loaded, f, b, c, cid);
    ReopenedMeans(env, f, b, c);
    OwnedAfter(loaded, f, ReopenedAs(env, f, b, c).chains, c.rate, cid);
    AfterKeepsNames(env.h, b.db.eTables, f.chains, f.items, cid);
    if !Owned(loaded, f, cid) && !CreatedIn(f.items, cid) {
      var was := f.chains[cid];
      var w := ChainAfter(env.h, b.db.eTables, was, f.items, cid);
      AfterWithout(env.h, b.db.eTables, was, f.items, cid);
      StrangerIgnoresBody(was, w);
      StrangerStays(env.h, b.nextDBHeight, w);
    }
  }

  lemma {:induction false} NewBlocksHome(h: Hashing, height: nat, chains: map<Digest, EBlock.EChain>,
                                         keys: seq<Digest>, j: nat)
    requires (forall k :: k in keys ==> k in chains) && j < |NewBlocks(h, height, chains, keys)|
    ensures exists cid ::
      (cid in chains && chains[cid].nextBlock.body != []
       && NewBlocks(h, height, chains, keys)[j] == BlockOf(h, height, chains[cid]))
    decreases |keys|
  {
    hide BlockOf;
    var n := |keys| - 1;
    if j < |NewBlocks(h, height, chains, keys[..n])| {
      NewBlocksHome(h, height, chains, keys[..n], j);
    }
  }

  /** Every block sealed now belongs to a known chain, holds what the process list put there, and can
      be stored. */
  lemma NewBlockFacts(env: Env, f: Front, b: Back, c: Closing, j: nat)
    requires ChainsReady(env, f, b, c)
    requires var s := SealAll(env, f, b, c);
      (forall k :: k in c.keys ==> k in s.work.chains) && j < |NewBlocks(env.h, b.nextDBHeight, s.work.chains, c.keys)|
    ensures var block := NewBlocks(env.h, b.nextDBHeight, SealAll(env, f, b, c).work.chains, c.keys)[j];
      && (block.header.chainID == ZERO_HASH || block.header.chainID in f.chains)
      && 0 < |block.body| < TWO_32 && EBlock.Built(env.h, block) == block
      && exists cid :: cid in f.chains && block.body == ChainBody(env.h, f.items, cid)
  {
    hide SealAll, NextOf, NewBlocks, StoreAll, CreationsFresh, Storable, ChainAfter, BlockOf, ChainBody, Reserved;
    var s, h := SealAll(env, f, b, c), env.h;
    SealedChains(env, f, b, c);
    NewBlocksHome(h, b.nextDBHeight, s.work.chains, c.keys, j);
    var cid :| cid in s.work.chains && s.work.chains[cid].nextBlock.body != []
      && NewBlocks(h, b.nextDBHeight, s.work.chains, c.keys)[j] == BlockOf(h, b.nextDBHeight, s.work.chains[cid]);
    BlockHeader(h, b.nextDBHeight, s.work.chains[cid]);
    AfterKeepsNames(h, b.db.eTables, f.chains, f.items, cid);
    BodyLength(h, f.items, cid);
  }

  lemma BlocksCollideGrows(h: Hashing, bs: seq<EBlock.Block>, more: seq<EBlock.Block>)
    requires Storable(h, bs + more) && BlocksCollide(h, bs)
    ensures BlocksCollide(h, bs + more)
  {
    hide CollisionBetween, EBlock.Marshal, EBlock.Built;
    forall x | x in StoredInputs(h, bs)
      ensures x in StoredInputs(h, bs + more)
    {
      var i :| 0 <= i < |bs| && x == EBlock.Marshal(h, bs[i]);
      assert (bs + more)[i] == bs[i];
    }
    CollisionGrows(h, StoredInputs(h, bs), StoredInputs(h, bs), StoredInputs(h, bs + more), StoredInputs(h, bs + more));
  }

  lemma OneChainRight(env: Env, loaded: set<Digest>, f: Front, b: Back, c: Closing, cid: Digest)
    requires Closes(env, loaded, f, b, c, cid)
    ensures var g := ReopenedAs(env, f, b, c);
      |g.items| <= |g.log| && cid in g.chains
          && ChainRight(env.h, loaded, g, SealAll(env, f, b, c).seal.eSealed, b.nextDBHeight + 1, cid)
  {
    hide *;
    ClosesMeans(env, loaded, f, b, c, cid);
    if Owned(loaded, f, cid) {
      OwnedGoesOn(env, loaded, f, b, c, cid);
    } else if CreatedIn(f.items, cid) {
      CreatedBegins(env, loaded, f, b, c, cid);
    } else {
      StrangerGoesOn(env, loaded, f, b, c, cid);
    }
  }

  lemma ZerosStayOwned(env: Env, loaded: set<Digest>, f: Front, b: Back, c: Closing, j: nat)
    requires Ready(env, loaded, f, b, c) && ChainsReady(env, f, b, c) && !BlocksCollide(env.h, b.eSealed)
    requires var bs := SealAll(env, f, b, c).seal.eSealed;
      j < |bs| && bs[j].header.ebSequence == 0 && bs[j].header.chainID != ZERO_HASH
    ensures |ReopenedAs(env, f, b, c).items| <= |ReopenedAs(env, f, b, c).log|
    ensures Owned(loaded, ReopenedAs(env, f, b, c), SealAll(env, f, b, c).seal.eSealed[j].header.chainID)
  {
    hide *;
    SuffixOfReady(env, loaded, f, b, c);
    var s := SealAll(env, f, b, c);
    SealedChains(env, f, b, c);
    ReopenedMeans(env, f, b, c);
    var more := NewBlocks(env.h, b.nextDBHeight, s.work.chains, c.keys);
    var block := s.seal.eSealed[j];
    if j < |b.eSealed| {
      assert block == b.eSealed[j];
      OldZeroOwned(env, loaded, f, b, c, j);
      OwnedAfter(loaded, f, s.seal.chains, c.rate, block.header.chainID);
    } else {
      assert block == more[j - |b.eSealed|];
      NewBlocksHome(env.h, b.nextDBHeight, s.work.chains, c.keys, j - |b.eSealed|);
      var cid :| cid in s.work.chains && s.work.chains[cid].nextBlock.body != []
        && block == BlockOf(env.h, b.nextDBHeight, s.work.chains[cid]);
      BlockHeader(env.h, b.nextDBHeight, s.work.chains[cid]);
      ReadyCloses(env, loaded, f, b, c, cid);
      NewZeroOwned(env, loaded, f, b, c, cid);
    }
  }

  lemma OldZeroOwned(env: Env, loaded: set<Digest>, f: Front, b: Back, c: Closing, j: nat)
    requires Ready(env, loaded, f, b, c) && !BlocksCollide(env.h, b.eSealed)
    requires j < |b.eSealed| && b.eSealed[j].header.ebSequence == 0 && b.eSealed[j].header.chainID != ZERO_HASH
    ensures |f.items| <= |f.log| && Owned(loaded, f, b.eSealed[j].header.chainID)
  {
    hide ChainRight, TableRight, OpensRight, Recorded, AllListed, Tidy, FrontInv, Owned, CanBuild, BlocksCollide;
  }

  lemma ReadyCloses(env: Env, loaded: set<Digest>, f: Front, b: Back, c: Closing, cid: Digest)
    requires Ready(env, loaded, f, b, c) && ChainsReady(env, f, b, c) && !BlocksCollide(env.h, b.eSealed)
    requires cid in f.chains
    ensures Closes(env, loaded, f, b, c, cid)
  {
    hide ChainRight, TableRight, OpensRight, Recorded, AllListed, Tidy, FrontInv, Owned, CanBuild,
      BlocksCollide, ZerosOwned, ChainsReady;
  }

  lemma SuffixOfReady(env: Env, loaded: set<Digest>, f: Front, b: Back, c: Closing)
    requires Ready(env, loaded, f, b, c)
    ensures Suffix(f) && |f.items| <= |f.log| && Ordered(loaded, f) && CanBuild(env, f, b, c)
  {
    hide TableRight, OpensRight, Recorded, AllListed, Tidy, BlocksCollide, ChainsRight, Ordered;
  }

  lemma RightFromParts(h: Hashing, loaded: set<Digest>, g: Front, bs: seq<EBlock.Block>, height: nat)
    requires |g.items| <= |g.log|
    requires forall cid :: cid in g.chains ==> ChainRight(h, loaded, g, bs, height, cid)
    requires forall j :: 0 <= j < |bs| && bs[j].header.ebSequence == 0 && bs[j].header.chainID != ZERO_HASH ==>
      Owned(loaded, g, bs[j].header.chainID)
    ensures ChainsRight(h, loaded, g, bs, height)
  {
    hide ChainRight, Owned;
  }

  /** Closing a block keeps what the stored blocks say about every chain, unless some collide. */
  lemma BuildKeepsRight(env: Env, loaded: set<Digest>, f: Front, b: Back, c: Closing)
    requires Ready(env, loaded, f, b, c)
    ensures var bs := SealAll(env, f, b, c).seal.eSealed;
      BlocksCollide(env.h, bs) || ChainsRight(env.h, loaded, ReopenedAs(env, f, b, c), bs, b.nextDBHeight + 1)
  {
    hide *;
    ReadyChains(env, loaded, f, b, c);
    SuffixOfReady(env, loaded, f, b, c);
    BuildKeepsStorable(env, f, b, c);
    SealedChains(env, f, b, c);
    ReopenedMeans(env, f, b, c);
    var bs, g := SealAll(env, f, b, c).seal.eSealed, ReopenedAs(env, f, b, c);
    if !BlocksCollide(env.h, bs) {
      if BlocksCollide(env.h, b.eSealed) {
        BlocksCollideGrows(env.h, b.eSealed, NewBlocks(env.h, b.nextDBHeight, SealAll(env, f, b, c).work.chains, c.keys));
      } else {
        forall cid | cid in g.chains
          ensures ChainRight(env.h, loaded, g, bs, b.nextDBHeight + 1, cid)
        {
          ReadyCloses(env, loaded, f, b, c, cid);
          OneChainRight(env, loaded, f, b, c, cid);
        }
        forall j | 0 <= j < |bs| && bs[j].header.ebSequence == 0 && bs[j].header.chainID != ZERO_HASH
          ensures Owned(loaded, g, bs[j].header.chainID)
        {
          ZerosStayOwned(env, loaded, f, b, c, j);
        }
        RightFromParts(env.h, loaded, g, bs, b.nextDBHeight + 1);
      }
    }
  }

  // ---------------------------------------------------------------- names and the chain table

  /** Reading a chain gives an open block of its own. */
  lemma ReadOpens(h: Hashing, t: Tables, cid: Digest, chain: EBlock.EChain)
    requires InitEChainFromDB(h, t, cid) == Ok((chain.nextBlockHeight, chain.nextBlock))
    ensures OpenOwned(h, cid, chain)
  {
    ReadIsOpen(h, t, cid);
    hide FetchAllEBlocksByChain, SortBySequence, EBlock.MakeEBlock;
  }

  lemma NextOpens(h: Hashing, height: nat, cid: Digest, w: EBlock.EChain)
    requires OpenOwned(h, cid, w.(nextBlock := w.nextBlock.(body := []))) && w.chainID == cid
    ensures OpenOwned(h, cid, NextOf(h, height, w))
  {
    MadeHeader(h, w.chainID, w.nextBlockHeight + 1, if w.nextBlock.body == [] then None else Some(BlockOf(h, height, w)));
    hide EBlock.MakeEBlock, BlockOf;
    if w.nextBlock.body == [] {
      assert w.(nextBlock := w.nextBlock.(body := [])) == w;
    }
  }

  /** The open block of a chain that was, or is now, created. */
  lemma OpenAfter(env: Env, loaded: set<Digest>, f: Front, b: Back, c: Closing, cid: Digest)
    requires Ready(env, loaded, f, b, c) && ChainsReady(env, f, b, c) && cid in f.chains && |f.items| <= |f.log|
    requires Owned(loaded, f, cid) || CreatedIn(f.items, cid)
    ensures var w := ChainAfter(env.h, b.db.eTables, f.chains[cid], f.items, cid);
      OpenOwned(env.h, cid, w.(nextBlock := w.nextBlock.(body := [])))
  {
    hide *;
    var t, chain := b.db.eTables, f.chains[cid];
    var w := ChainAfter(env.h, t, chain, f.items, cid);
    if CreatedIn(f.items, cid) {
      CreationReads(env, f, b, c, cid);
      ReadIsOpen(env.h, t, cid);
      AfterWith(env.h, t, chain, f.items, cid);
      var read := InitEChainFromDB(env.h, t, cid).value.1;
      assert read.(body := []) == read;
      ReadOpens(env.h, t, cid, w.(nextBlock := w.nextBlock.(body := [])));
    } else {
      ReadyBuilds(env, f, b, c);
      IdleHasNoBody(f.chains, cid);
      OldOpens(env, loaded, f, b, c, cid);
      AfterWithout(env.h, t, chain, f.items, cid);
      assert w.(nextBlock := w.nextBlock.(body := [])) == chain;
    }
  }

  lemma OldOpens(env: Env, loaded: set<Digest>, f: Front, b: Back, c: Closing, cid: Digest)
    requires Ready(env, loaded, f, b, c) && cid in f.chains && |f.items| <= |f.log|
    ensures if Owned(loaded, f, cid) then OpenOwned(env.h, cid, f.chains[cid]) else Stranger(f.chains[cid])
  {
    hide OpenOwned, Stranger, Owned, CanBuild, FrontInv, TableRight, ChainsRight, BlocksCollide, Tidy,
      AllListed, Recorded;
  }

  lemma OneChainOpens(env: Env, loaded: set<Digest>, f: Front, b: Back, c: Closing, cid: Digest)
    requires Ready(env, loaded, f, b, c) && ChainsReady(env, f, b, c) && cid in f.chains && |f.items| <= |f.log|
    ensures var g := ReopenedAs(env, f, b, c);
      && cid in g.chains
      && if Owned(loaded, f, cid) || CreatedIn(f.items, cid) then OpenOwned(env.h, cid, g.chains[cid])
         else Stranger(g.chains[cid])
  {
    hide *;
    var _ := AddedToChain(env, f, b, c, cid);
    var w := ChainAfter(env.h, b.db.eTables, f.chains[cid], f.items, cid);
    if Owned(loaded, f, cid) || CreatedIn(f.items, cid) {
      OpenAfter(env, loaded, f, b, c, cid);
      NextOpens(env.h, b.nextDBHeight, cid, w);
    } else {
      OldOpens(env, loaded, f, b, c, cid);
      AfterWithout(env.h, b.db.eTables, f.chains[cid], f.items, cid);
      StrangerIgnoresBody(f.chains[cid], w);
      StrangerStays(env.h, b.nextDBHeight, w);
    }
  }

  lemma OpensFromParts(h: Hashing, loaded: set<Digest>, g: Front)
    requires |g.items| <= |g.log|
    requires forall cid :: cid in g.chains ==> if Owned(loaded, g, cid) then OpenOwned(h, cid, g.chains[cid])
        else Stranger(g.chains[cid])
    ensures OpensRight(h, loaded, g)
  {
    hide Owned, OpenOwned, Stranger;
  }

  lemma BuildKeepsOpens(env: Env, loaded: set<Digest>, f: Front, b: Back, c: Closing)
    requires Ready(env, loaded, f, b, c)
    ensures OpensRight(env.h, loaded, ReopenedAs(env, f, b, c))
  {
    hide *;
    ReadyChains(env, loaded, f, b, c);
    SuffixOfReady(env, loaded, f, b, c);
    SealedChains(env, f, b, c);
    ReopenedMeans(env, f, b, c);
    var g := ReopenedAs(env, f, b, c);
    forall cid | cid in g.chains
      ensures if Owned(loaded, g, cid) then OpenOwned(env.h, cid, g.chains[cid]) else Stranger(g.chains[cid])
    {
      OwnedAfter(loaded, f, g.chains, c.rate, cid);
      OneChainOpens(env, loaded, f, b, c, cid);
    }
    OpensFromParts(env.h, loaded, g);
  }

  lemma NextKeepsFirst(h: Hashing, height: nat, w: EBlock.EChain)
    ensures NextOf(h, height, w).firstEntry == w.firstEntry
  {
  }

  /** The chain table gains the chains that the list created, with their first entries. */
  lemma TableAfter(env: Env, loaded: set<Digest>, f: Front, b: Back, c: Closing, cid: Digest)
    requires Ready(env, loaded, f, b, c) && ChainsReady(env, f, b, c)
    ensures var s := SealAll(env, f, b, c); var table := s.work.chainTable;
      && (cid in table <==> cid in f.chains && (Owned(loaded, f, cid) || CreatedIn(f.items, cid)))
      && (cid in table ==> cid in s.seal.chains && table[cid] == s.seal.chains[cid].firstEntry)
  {
    hide SealAll, StoreAll, CreationsFresh, Storable, CreatedIn, InitEChainFromDB, BuildFromProcessList,
      ChainAfter, ChainsIdle, Tidy, AllListed, Recorded, FrontInv, BlocksCollide, Owned, ChainsRight,
      OpensRight, NextOf, NewBlocks, ECBlock.Sizable;
    var s := SealAll(env, f, b, c);
    SealedBasics(env, f, b, c);
    SealedChains(env, f, b, c);
    ListOnTable(env.h, b.db.eTables, f.rate, WorkOf(f, b), f.items, cid);
    if CreatedIn(f.items, cid) {
      CreatedIsKnown(f, cid);
    }
    if cid in f.chains {
      NextKeepsFirst(env.h, b.nextDBHeight, s.work.chains[cid]);
    }
  }

  lemma CreatedIsKnown(f: Front, cid: Digest)
    requires ChainsKnown(f.items, f.chains) && CreatedIn(f.items, cid)
    ensures cid in f.chains
  {
    var i :| 0 <= i < |f.items| && f.items[i].RevealChainItem? && f.items[i].first.chainID == cid;
    assert IsReveal(f.items[i]);
  }

  lemma TableFromParts(loaded: set<Digest>, g: Front, table: map<Digest, Entry>)
    requires |g.items| <= |g.log|
    requires forall cid ::
      && (cid in table <==> cid in g.chains && Owned(loaded, g, cid))
      && (cid in table ==> table[cid] == g.chains[cid].firstEntry)
    ensures TableRight(loaded, g, table)
  {
    hide Owned;
  }

  lemma BuildKeepsTable(env: Env, loaded: set<Digest>, f: Front, b: Back, c: Closing)
    requires Ready(env, loaded, f, b, c)
    ensures TableRight(loaded, ReopenedAs(env, f, b, c), SealAll(env, f, b, c).work.chainTable)
  {
    hide *;
    ReadyChains(env, loaded, f, b, c);
    SuffixOfReady(env, loaded, f, b, c);
    SealedChains(env, f, b, c);
    ReopenedMeans(env, f, b, c);
    var g, table := ReopenedAs(env, f, b, c), SealAll(env, f, b, c).work.chainTable;
    forall cid
      ensures cid in table <==> cid in g.chains && Owned(loaded, g, cid)
      ensures cid in table ==> table[cid] == g.chains[cid].firstEntry
    {
      OwnedAfter(loaded, f, g.chains, c.rate, cid);
      TableAfter(env, loaded, f, b, c, cid);
    }
    TableFromParts(loaded, g, table);
  }

  lemma BuildKeepsStorable(env: Env, f: Front, b: Back, c: Closing)
    requires ChainsReady(env, f, b, c)
    ensures Storable(env.h, SealAll(env, f, b, c).seal.eSealed)
  {
    hide SealAll, NextOf, NewBlocks, StoreAll, CreationsFresh, ChainAfter, ChainBody, EBlock.Built, CanBuild,
      ChainsIdle;
    var s, h := SealAll(env, f, b, c), env.h;
    SealedChains(env, f, b, c);
    var more := NewBlocks(h, b.nextDBHeight, s.work.chains, c.keys);
    forall j | 0 <= j < |s.seal.eSealed|
      ensures 0 < |s.seal.eSealed[j].body| < TWO_32 && EBlock.Built(h, s.seal.eSealed[j]) == s.seal.eSealed[j]
    {
      if j < |b.eSealed| {
        assert s.seal.eSealed[j] == b.eSealed[j];
      } else {
        assert s.seal.eSealed[j] == more[j - |b.eSealed|];
        NewBlockFacts(env, f, b, c, j - |b.eSealed|);
      }
    }
  }

  // ---------------------------------------------------------------- stored entries

  lemma NewBodyStored(env: Env, f: Front, b: Back, c: Closing, body: seq<Digest>, cid: Digest)
    requires ChainsReady(env, f, b, c) && cid in f.chains && body == ChainBody(env.h, f.items, cid)
    ensures BodyStored(body, SealAll(env, f, b, c).work.entries)
  {
    hide SealAll, StoreAll, ChainBody, Storable, EBlock.IsMinuteMarker, EntryHash, BuildFromProcessList, ChainsIdle,
      CreationsFresh;
    var s, h := SealAll(env, f, b, c), env.h;
    SealedBasics(env, f, b, c);
    assert BodiesEmpty(f.chains) by { IdleIsEmpty(f.chains); }
    ListStoresEntries(h, b.db.eTables, f.rate, WorkOf(f, b), f.items);
    forall k | 0 <= k < |body|
      ensures EBlock.IsMinuteMarker(body[k]) || body[k] in s.work.entries
    {
      BodyElements(h, f.items, cid, k);
    }
  }

  lemma IdleIsEmpty(chains: map<Digest, EBlock.EChain>)
    requires ChainsIdle(chains)
    ensures BodiesEmpty(chains)
  {
  }

  lemma OldEntriesStay(env: Env, f: Front, b: Back, c: Closing)
    requires ChainsReady(env, f, b, c)
    ensures b.db.entries.Keys <= SealAll(env, f, b, c).work.entries.Keys
  {
    hide SealAll, StoreAll, Storable, EntryHash, BuildFromProcessList, ChainsIdle, CreationsFresh;
    SealedBasics(env, f, b, c);
    IdleIsEmpty(f.chains);
    ListStoresEntries(env.h, b.db.eTables, f.rate, WorkOf(f, b), f.items);
  }

  lemma BuildStoresEntries(env: Env, f: Front, b: Back, c: Closing)
    requires ChainsReady(env, f, b, c) && EntriesStored(b.eSealed, b.db.entries)
    ensures var s := SealAll(env, f, b, c); EntriesStored(s.seal.eSealed, s.work.entries)
  {
    hide SealAll, NextOf, NewBlocks, StoreAll, ChainAfter, ChainBody, CreationsFresh, Storable,
      EBlock.IsMinuteMarker, CanBuild, ChainsIdle;
    var s, h := SealAll(env, f, b, c), env.h;
    SealedChains(env, f, b, c);
    OldEntriesStay(env, f, b, c);
    var more := NewBlocks(h, b.nextDBHeight, s.work.chains, c.keys);
    forall j | 0 <= j < |s.seal.eSealed|
      ensures BodyStored(s.seal.eSealed[j].body, s.work.entries)
    {
      if j < |b.eSealed| {
        assert s.seal.eSealed[j] == b.eSealed[j];
        assert BodyStored(b.eSealed[j].body, b.db.entries);
      } else {
        var block := more[j - |b.eSealed|];
        assert s.seal.eSealed[j] == block;
        NewBlockFacts(env, f, b, c, j - |b.eSealed|);
        var cid :| cid in f.chains && block.body == ChainBody(h, f.items, cid);
        NewBodyStored(env, f, b, c, block.body, cid);
      }
    }
  }

  // ---------------------------------------------------------------- the directory chain

  /** Sealing a directory block on top of a linked chain keeps it linked. */
  lemma SealKeepsLinked(h: Hashing, blocks: seq<DirectoryBlock.Block>, open: DirectoryBlock.Block, networkID: u32,
                        timestamp: u32)
    requires DirectoryBlock.Linked(h, blocks) && DirectoryBlock.Numbered(blocks)
    requires |blocks| < TWO_31 && open.header.dbHeight == |blocks| && |open.entries| < TWO_32
    requires blocks != [] ==>
      && open.header.prevKeyMR == DirectoryBlock.KeyMR(h, blocks[|blocks| - 1])
      && open.header.prevLedgerKeyMR == DirectoryBlock.DBHash(h, blocks[|blocks| - 1])
    ensures var (dir, next) := SealDBlock(h, open, networkID, timestamp, |blocks| + 1);
      && DirectoryBlock.Linked(h, blocks + [dir]) && DirectoryBlock.Numbered(blocks + [dir])
      && dir.entries == open.entries && next.entries == []
      && next.header.dbHeight == |blocks| + 1
      && next.header.prevKeyMR == DirectoryBlock.KeyMR(h, dir)
      && next.header.prevLedgerKeyMR == DirectoryBlock.DBHash(h, dir)
  {
    hide DirectoryBlock.KeyMR, DirectoryBlock.DBHash, DirectoryBlock.BodyMR;
    var (dir, next) := SealDBlock(h, open, networkID, timestamp, |blocks| + 1);
    var all := blocks + [dir];
    forall i | 0 <= i < |all|
      ensures DirectoryBlock.LinkedAt(h, all, i)
    {
      if i < |blocks| {
        assert DirectoryBlock.LinkedAt(h, blocks, i);
      }
    }
  }

  lemma BuildKeepsNamed(env: Env, f: Front, b: Back, c: Closing)
    requires ChainsReady(env, f, b, c) && Named(env.h, b.db.entries)
    ensures Named(env.h, SealAll(env, f, b, c).work.entries)
  {
    hide SealAll, StoreAll, Storable, BuildFromProcessList, ChainsIdle, CreationsFresh, Named;
    SealedBasics(env, f, b, c);
    ListKeepsNamed(env.h, b.db.eTables, f.rate, WorkOf(f, b), f.items);
  }

  lemma BuildKeepsTidy(env: Env, loaded: set<Digest>, f: Front, b: Back, c: Closing)
    requires Ready(env, loaded, f, b, c)
    ensures Tidy(env.h, BuildBlocks(env, f, b, c).1)
  {
    hide DirectoryBlock.KeyMR, DirectoryBlock.DBHash, DirectoryBlock.BodyMR, DirectoryBlock.Linked,
      DirectoryBlock.Numbered, SealChains, BuildFromProcessList, NewBlocks, StoreAll, Storable, EntriesStored,
      ChainsRight, OpensRight, TableRight, BlocksCollide, Recorded, FrontInv, AllListed,
      AdminBlock.PartialHash, ECBlock.HeaderHash, ECBlock.FullHash, ECBlock.Built, AdminBlock.Marshal, NextOf,
      ChainAfter, CreationsFresh, ECEntries, Named;
    ReadyChains(env, loaded, f, b, c);
    BuildKeepsNamed(env, f, b, c);
    SealedChains(env, f, b, c);
    SealedBasics(env, f, b, c);
    BuildKeepsStorable(env, f, b, c);
    BuildStoresEntries(env, f, b, c);
    DirEntryCount(env, f, b, c);
    var s := SealAll(env, f, b, c);
    SealKeepsLinked(env.h, b.dBlocks, b.dNext.(entries := s.seal.dbEntries), c.networkID, c.timestamp);
  }

  lemma DirEntryCount(env: Env, f: Front, b: Back, c: Closing)
    requires ChainsReady(env, f, b, c)
    ensures var s := SealAll(env, f, b, c);
      && AdminBlock.Consistent(s.admin) && |s.ec.header.expansion| < TWO_64
      && (forall k :: k in c.keys ==> k in s.work.chains)
      && NonEmptyBodies(NewBlocks(env.h, b.nextDBHeight, s.work.chains, c.keys))
      && s.seal.dbEntries == FirstEntries(env, s, c) + EntriesFor(env.h,
          NewBlocks(env.h, b.nextDBHeight, s.work.chains, c.keys))
      && |s.seal.dbEntries| <= 3 + |c.keys| < TWO_32
  {
    hide SealAll, BuildFromProcessList, SealChains, NewBlocks, StoreAll, CreationsFresh, Storable, EBlock.KeyMR,
      ChainsIdle;
    var s := SealAll(env, f, b, c);
    SealedBasics(env, f, b, c);
    assert KeysMatch(c.keys, f.chains);
    KeysDistinct(c.keys, f.chains);
    SealChainsIs(env.h, b.nextDBHeight, Sealing(s.work.chains, FirstEntries(env, s, c), b.db.eTables, b.eSealed), c.keys);
    NewBlocksNonEmpty(env.h, b.nextDBHeight, s.work.chains, c.keys);
  }

  // ---------------------------------------------------------------- everything listed is stored

  /** The new directory block lists the three blocks of the server's own chains and the new entry
      blocks, and all of them are stored. */
  lemma NewListed(env: Env, loaded: set<Digest>, f: Front, b: Back, c: Closing, k: nat)
    requires Ready(env, loaded, f, b, c)
    requires var s := SealAll(env, f, b, c); k < |s.seal.dbEntries|
    ensures var b' := BuildBlocks(env, f, b, c).1;
      Listed(env.h, b'.db, b'.eSealed, SealAll(env, f, b, c).seal.dbEntries[k])
  {
    hide SealAll, NewBlocks, StoreAll, Storable, ChainsRight, OpensRight, TableRight, BlocksCollide, Recorded,
      FrontInv, AllListed, Tidy, Reserved, AdminBlock.PartialHash, ECBlock.HeaderHash, ECBlock.FullHash,
      AdminBlock.Marshal, EBlock.KeyMR, DirectoryBlock.MarshalHeader, CreationsFresh, NextOf, ChainAfter,
      ChainBody, EBlock.Built;
    var s, h := SealAll(env, f, b, c), env.h;
    var b' := BuildBlocks(env, f, b, c).1;
    ReadyChains(env, loaded, f, b, c);
    DirEntryCount(env, f, b, c);
    SealedChains(env, f, b, c);
    ChainIDsDiffer();
    var more := NewBlocks(h, b.nextDBHeight, s.work.chains, c.keys);
    if k >= 3 {
      var j := k - 3;
      NewBlockFacts(env, f, b, c, j);
      assert s.seal.dbEntries[k] == EntriesFor(h, more)[j];
      assert s.seal.eSealed[|b.eSealed| + j] == more[j];
      assert s.seal.dbEntries[k].keyMR == EBlock.KeyMR(h, b'.eSealed[|b.eSealed| + j]);
      OwnChainsReserved(f.chains, more[j].header.chainID);
    } else {
      assert s.seal.dbEntries[k] == FirstEntries(env, s, c)[k];
    }
  }

  lemma OwnChainsReserved(chains: map<Digest, EBlock.EChain>, cid: Digest)
    ensures ChainsIdle(chains) && cid in chains ==> cid != EC_CHAINID && cid != ADMIN_CHAINID && cid != FACTOID_CHAINID
  {
  }

  lemma BuildKeepsListed(env: Env, loaded: set<Digest>, f: Front, b: Back, c: Closing)
    requires Ready(env, loaded, f, b, c)
    ensures AllListed(env.h, BuildBlocks(env, f, b, c).1)
  {
    hide Listed, NewBlocks, Storable, ChainsRight, OpensRight, TableRight, BlocksCollide, Recorded, FrontInv,
      Tidy, CreationsFresh, StoreAll, SealAll, AdminBlock.PartialHash, ECBlock.HeaderHash, AdminBlock.Marshal,
      DirectoryBlock.MarshalHeader, ChainAfter, NextOf;
    var s := SealAll(env, f, b, c);
    var b' := BuildBlocks(env, f, b, c).1;
    ReadyChains(env, loaded, f, b, c);
    SealedChains(env, f, b, c);
    DirIsDbEntries(env, f, b, c);
    forall i, k | 0 <= i < |b'.dBlocks| && 0 <= k < |b'.dBlocks[i].entries|
      ensures Listed(env.h, b'.db, b'.eSealed, b'.dBlocks[i].entries[k])
    {
      if i < |b.dBlocks| {
        assert b'.dBlocks[i] == b.dBlocks[i];
        assert Listed(env.h, b.db, b.eSealed, b.dBlocks[i].entries[k]);
        ListedStays(env.h, b.db, b.eSealed, b'.db, b'.eSealed, b.dBlocks[i].entries[k]);
      } else {
        NewListed(env, loaded, f, b, c, k);
      }
    }
  }

  lemma DirIsDbEntries(env: Env, f: Front, b: Back, c: Closing)
    requires CanBuild(env, f, b, c)
    ensures SealAll(env, f, b, c).dir.entries == SealAll(env, f, b, c).seal.dbEntries
  {
    hide BuildFromProcessList, SealChains, DirectoryBlock.BodyMR, DirectoryBlock.KeyMR, DirectoryBlock.DBHash,
      SealECBlock, AdminBlock.PartialHash,
      ECEntries, ECBlock.MarshalBody, ChainsKnown;
  }

  // ---------------------------------------------------------------- the in-memory half after a block

  /** The sealed entry credit block carries exactly the effect of the list. */
  lemma SealedBalances(env: Env, f: Front, b: Back, c: Closing)
    requires CanBuild(env, f, b, c) && Tidy(env.h, b) && Balanced(ReplayBlocks(b.ecSealed), f)
    ensures ReplayBlocks(b.ecSealed + [SealAll(env, f, b, c).ec]) == f.credits
  {
    hide SealAll, Replay, ECEntries, DirectoryBlock.Linked, DirectoryBlock.Numbered, Storable, StoreAll, EntriesStored,
        Named;
    SealedBasics(env, f, b, c);
    var s := SealAll(env, f, b, c);
    assert (b.ecSealed + [s.ec])[..|b.ecSealed|] == b.ecSealed;
    ReplayAppend(ReplayBlocks(b.ecSealed), b.ecNext.body, ECEntries(f.rate, f.items));
    ReplayMarkers(ReplayBlocks(b.ecSealed), b.ecNext.body);
  }

  lemma ReopenKeepsFront(env: Env, loaded: set<Digest>, base: map<Digest, int>, f: Front,
                         chains: map<Digest, EBlock.EChain>, rate: u64)
    requires FrontInv(env, loaded, base, f) && rate > 0
    requires chains.Keys == f.chains.Keys && ChainsIdle(chains)
    ensures FrontInv(env, loaded, f.credits, Reopen(f, chains, rate))
  {
    hide Once, PendingEntries, PendingChains, Matched, ChainsIdle;
    ReplayNothing(f.credits);
    assert ECEntries(rate, []) == [];
  }

  // ---------------------------------------------------------------- the records of the period

  lemma SealedECRecord(h: Hashing, open: ECBlock.Block)
    requires ECBlock.Sizable(open)
    ensures var (ec, next) := SealECBlock(h, open);
      && ECBlock.HeaderMatches(h, ec) && ec.header.ebHeight == open.header.ebHeight
      && next.header.ebHeight == (open.header.ebHeight + 1) % TWO_32
  {
    ECBlock.BuiltMatches(h, open);
    hide ECBlock.Sizable, ECBlock.HeaderHash, ECBlock.FullHash, ECBlock.MarshalBody, ECBlock.HeaderMatches;
  }

  lemma SealedAdminRecord(h: Hashing, open: AdminBlock.Block, height: u32)
    requires |open.header.expansion| == open.header.expansionSize && |open.entries| < TWO_32
    ensures var admin := AdminBlock.Sealed(open);
      AdminBlock.Consistent(admin) && admin.header.dbHeight == open.header.dbHeight
      && AdminBlock.CreateAdminBlock(h, height, Some(admin)).header.dbHeight == height
  {
    hide AdminBlock.Marshal, AdminBlock.Sha512Half, AdminBlock.EntriesSize, AdminBlock.Consistent;
  }

  lemma BuildBounds(env: Env, f: Front, b: Back, c: Closing)
    requires CanBuild(env, f, b, c)
    ensures b.nextDBHeight % TWO_32 == b.nextDBHeight && (b.nextDBHeight + 1) % TWO_32 == b.nextDBHeight + 1
    ensures |b.aNext.header.expansion| == b.aNext.header.expansionSize
  {
    hide CreationsReadable, ECBlock.Sizable, KeysMatch, ChainsKnown;
  }

  lemma SealedRecord(env: Env, f: Front, b: Back, c: Closing)
    requires CanBuild(env, f, b, c) && |b.dBlocks| == b.nextDBHeight == b.aHeight
    requires b.ecNext.header.ebHeight == |b.dBlocks| % TWO_32 && b.aNext.header.dbHeight == |b.dBlocks| % TWO_32
    ensures var s := SealAll(env, f, b, c); var n := |b.dBlocks|;
      && ECBlock.HeaderMatches(env.h, s.ec) && s.ec.header.ebHeight == n && s.ecNext.header.ebHeight == (n + 1) % TWO_32
      && AdminBlock.Consistent(s.admin) && s.admin.header.dbHeight == n
      && AdminBlock.CreateAdminBlock(env.h, (b.aHeight + 1) % TWO_32, Some(s.admin)).header.dbHeight == (n + 1) % TWO_32
  {
    hide *;
    BuildBounds(env, f, b, c);
    SealAllParts(env, f, b, c);
    var w := SealAll(env, f, b, c).work;
    SealedECRecord(env.h, b.ecNext.(body := w.ecBody));
    SealedAdminRecord(env.h, b.aNext.(entries := w.abEntries), (b.aHeight + 1) % TWO_32);
  }

  lemma HeadsOfSealed(env: Env, f: Front, b: Back, c: Closing)
    requires ChainsReady(env, f, b, c) && c.fBlock.chainID == FACTOID_CHAINID
    ensures var s := SealAll(env, f, b, c);
      AdminBlock.Consistent(s.admin) && |s.ec.header.expansion| < TWO_64 && Heads(env.h, s.dir, s.admin, s.ec, c.fBlock)
  {
    hide *;
    ReadyBuilds(env, f, b, c);
    var s := SealAll(env, f, b, c);
    SealedChains(env, f, b, c);
    DirEntryCount(env, f, b, c);
    DirIsDbEntries(env, f, b, c);
    var more := NewBlocks(env.h, b.nextDBHeight, s.work.chains, c.keys);
    forall j | 0 <= j < |more|
      ensures !OwnChain(more[j].header.chainID)
    {
      NewBlockFacts(env, f, b, c, j);
      NotOwnChain(f.chains, more[j].header.chainID);
    }
    HeadsByParts(env, s, c, more);
  }

  lemma ReadyBuilds(env: Env, f: Front, b: Back, c: Closing)
    requires ChainsReady(env, f, b, c)
    ensures CanBuild(env, f, b, c) && ChainsIdle(f.chains)
  {
    hide CanBuild, ChainsIdle;
  }

  lemma NotOwnChain(chains: map<Digest, EBlock.EChain>, cid: Digest)
    requires ChainsIdle(chains) && (cid == ZERO_HASH || cid in chains)
    ensures !OwnChain(cid)
  {
    ChainIDsDiffer();
    OwnChainsReserved(chains, cid);
    hide Reserved, ChainsIdle;
  }

  lemma HeadsByParts(env: Env, s: Sealed, c: Closing, more: seq<EBlock.Block>)
    requires AdminBlock.Consistent(s.admin) && |s.ec.header.expansion| < TWO_64 && NonEmptyBodies(more)
    requires s.dir.entries == FirstEntries(env, s, c) + EntriesFor(env.h, more) && c.fBlock.chainID == FACTOID_CHAINID
    requires forall j :: 0 <= j < |more| ==> !OwnChain(more[j].header.chainID)
    ensures Heads(env.h, s.dir, s.admin, s.ec, c.fBlock)
  {
    hide AdminBlock.Consistent, AdminBlock.PartialHash, ECBlock.HeaderHash, EBlock.KeyMR, OwnChain;
    forall j | 3 <= j < |s.dir.entries|
      ensures !OwnChain(s.dir.entries[j].chainID)
    {
      assert s.dir.entries[j] == EntriesFor(env.h, more)[j - 3];
    }
  }

  /** One more period of records. */
  lemma RecordsGrow(h: Hashing, b: Back, b': Back)
    requires AllRecorded(h, b)
    requires |b'.ecSealed| == |b.ecSealed| + 1 && b'.ecSealed[..|b.ecSealed|] == b.ecSealed
    requires |b'.aSealed| == |b.aSealed| + 1 && b'.aSealed[..|b.aSealed|] == b.aSealed
    requires |b'.fSealed| == |b.fSealed| + 1 && b'.fSealed[..|b.fSealed|] == b.fSealed
    requires |b'.dBlocks| == |b.dBlocks| + 1 && b'.dBlocks[..|b.dBlocks|] == b.dBlocks
    requires RecordedAt(h, b', |b.dBlocks|)
    ensures AllRecorded(h, b')
  {
    hide Heads, ECBlock.HeaderMatches, AdminBlock.Consistent;
    forall i | 0 <= i < |b'.dBlocks|
      ensures RecordedAt(h, b', i)
    {
      if i < |b.dBlocks| {
        assert RecordedAt(h, b, i);
        assert b'.ecSealed[i] == b.ecSealed[i] && b'.aSealed[i] == b.aSealed[i];
        assert b'.fSealed[i] == b.fSealed[i] && b'.dBlocks[i] == b.dBlocks[i];
      }
    }
  }

  lemma ECRowsGrow(h: Hashing, ecs: seq<ECBlock.Block>, ec: ECBlock.Block)
    requires (forall i :: 0 <= i < |ecs| ==> |ecs[i].header.expansion| < TWO_64) && |ec.header.expansion| < TWO_64
    ensures TableOf(ECRows(h, ecs + [ec])) == TableOf(ECRows(h, ecs))[ECBlock.HeaderHash(h, ec) := ec]
  {
    hide ECBlock.HeaderHash, TableOf;
    assert ECRows(h, ecs + [ec]) == ECRows(h, ecs) + [(ECBlock.HeaderHash(h, ec), ec)];
    TableGrows(ECRows(h, ecs), ECBlock.HeaderHash(h, ec), ec);
  }

  lemma ARowsGrow(h: Hashing, as_: seq<AdminBlock.Block>, a: AdminBlock.Block)
    requires (forall i :: 0 <= i < |as_| ==> AdminBlock.Consistent(as_[i])) && AdminBlock.Consistent(a)
    ensures TableOf(ARows(h, as_ + [a])) == TableOf(ARows(h, as_))[AdminBlock.PartialHash(h, a) := a]
  {
    hide AdminBlock.PartialHash, TableOf, AdminBlock.Consistent;
    assert ARows(h, as_ + [a]) == ARows(h, as_) + [(AdminBlock.PartialHash(h, a), a)];
    TableGrows(ARows(h, as_), AdminBlock.PartialHash(h, a), a);
  }

  lemma OtherRowsGrow(h: Hashing, fs: seq<FBlock>, fb: FBlock, ds: seq<DirectoryBlock.Block>, d: DirectoryBlock.Block)
    ensures TableOf(FRows(fs + [fb])) == TableOf(FRows(fs))[fb.hash := fb]
    ensures TableOf(DRows(h, ds + [d])) == TableOf(DRows(h, ds))[DirectoryBlock.DBHash(h, d) := d]
  {
    hide DirectoryBlock.DBHash, TableOf;
    assert FRows(fs + [fb]) == FRows(fs) + [(fb.hash, fb)];
    assert DRows(h, ds + [d]) == DRows(h, ds) + [(DirectoryBlock.DBHash(h, d), d)];
    TableGrows(FRows(fs), fb.hash, fb);
    TableGrows(DRows(h, ds), DirectoryBlock.DBHash(h, d), d);
  }

  lemma RowsGrow(h: Hashing, b: Back, b': Back, ec: ECBlock.Block, a: AdminBlock.Block, fb: FBlock,
      d: DirectoryBlock.Block)
    requires AllRecorded(h, b) && TablesRight(h, b) && AllRecorded(h, b')
    requires b'.ecSealed == b.ecSealed + [ec] && b'.aSealed == b.aSealed + [a] && b'.fSealed == b.fSealed + [fb]
    requires b'.dBlocks == b.dBlocks + [d]
    requires |ec.header.expansion| < TWO_64 && b'.db.ecBlocks == b.db.ecBlocks[ECBlock.HeaderHash(h, ec) := ec]
    requires AdminBlock.Consistent(a) && b'.db.aBlocks == b.db.aBlocks[AdminBlock.PartialHash(h, a) := a]
    requires b'.db.fBlocks == b.db.fBlocks[fb.hash := fb] && b'.dTable == b.dTable[DirectoryBlock.DBHash(h, d) := d]
    ensures TablesRight(h, b')
  {
    RecordsFit(h, b);
    RecordsFit(h, b');
    hide AllRecorded, RecordedAt, ECBlock.HeaderHash, AdminBlock.PartialHash, DirectoryBlock.DBHash, TableOf,
      AdminBlock.Consistent, ECRows, ARows, FRows, DRows;
    ECRowsGrow(h, b.ecSealed, ec);
    ARowsGrow(h, b.aSealed, a);
    OtherRowsGrow(h, b.fSealed, fb, b.dBlocks, d);
  }

  lemma ReadyRecords(env: Env, loaded: set<Digest>, f: Front, b: Back, c: Closing)
    requires Ready(env, loaded, f, b, c)
    ensures |b.dBlocks| == b.nextDBHeight == b.aHeight && c.fBlock.chainID == FACTOID_CHAINID && CanBuild(env, f, b, c)
    ensures b.ecNext.header.ebHeight == |b.dBlocks| % TWO_32 && b.aNext.header.dbHeight == |b.dBlocks| % TWO_32
    ensures AllRecorded(env.h, b) && TablesRight(env.h, b) && OwnLinked(env.h, b)
  {
    hide TableRight, OpensRight, OwnLinked, AllListed, BlocksCollide, ChainsRight, FrontInv, AllRecorded, TablesRight,
        CanBuild,
      DirectoryBlock.Linked, DirectoryBlock.Numbered, Storable, StoreAll, EntriesStored, Named;
  }

  lemma RecordedByParts(h: Hashing, b: Back, i: nat)
    requires i < |b.dBlocks| && |b.ecSealed| == |b.aSealed| == |b.fSealed| == |b.dBlocks|
    requires ECBlock.HeaderMatches(h, b.ecSealed[i]) && b.ecSealed[i].header.ebHeight == i
    requires AdminBlock.Consistent(b.aSealed[i]) && b.aSealed[i].header.dbHeight == i
    requires |b.ecSealed[i].header.expansion| < TWO_64
    requires Heads(h, b.dBlocks[i], b.aSealed[i], b.ecSealed[i], b.fSealed[i])
    ensures RecordedAt(h, b, i)
  {
    hide ECBlock.HeaderMatches, AdminBlock.Consistent, Heads;
  }

  lemma RecordCounts(h: Hashing, b: Back)
    requires AllRecorded(h, b)
    ensures |b.ecSealed| == |b.aSealed| == |b.fSealed| == |b.dBlocks|
  {
    hide RecordedAt;
  }

  lemma RecordsByParts(h: Hashing, b: Back)
    requires AllRecorded(h, b) && TablesRight(h, b) && OwnLinked(h, b)
    requires b.ecNext.header.ebHeight == |b.dBlocks| % TWO_32 && b.aNext.header.dbHeight == |b.dBlocks| % TWO_32
    ensures Recorded(h, b)
  {
    hide AllRecorded, TablesRight, OwnLinked;
  }

  lemma SealedECNext(h: Hashing, blocks: seq<ECBlock.Block>, open: ECBlock.Block)
    requires ECBlock.Sizable(open)
    ensures var (ec, next) := SealECBlock(h, open);
      ECBlock.HeaderMatches(h, ec) && ECBlock.Follows(h, next.header, blocks + [ec])
  {
    hide ECBlock.Sizable, ECBlock.HeaderMatches, ECBlock.Follows, ECBlock.Built, ECBlock.NextECBlock;
    ECBlock.BuiltMatches(h, open);
    var ec := SealECBlock(h, open).0;
    assert (blocks + [ec])[|blocks + [ec]| - 1] == ec;
    ECBlock.NextFollows(h, blocks + [ec]);
  }

  lemma SealedAdminNext(h: Hashing, blocks: seq<AdminBlock.Block>, admin: AdminBlock.Block, height: nat)
    requires AdminBlock.Consistent(admin)
    ensures AdminBlock.Follows(h, AdminBlock.CreateAdminBlock(h, height % TWO_32, Some(admin)).header, blocks + [admin])
  {
    hide AdminBlock.Follows, AdminBlock.CreateAdminBlock, AdminBlock.Consistent;
    assert (blocks + [admin])[|blocks + [admin]| - 1] == admin;
    AdminBlock.NextFollows(h, height % TWO_32, blocks + [admin]);
  }

  /** The next open blocks lead to what was sealed. */
  lemma OpensFollow(env: Env, f: Front, b: Back, c: Closing)
    requires CanBuild(env, f, b, c)
    ensures var b' := BuildBlocks(env, f, b, c).1;
      && b'.ecSealed != [] && ECBlock.HeaderMatches(env.h, b'.ecSealed[|b'.ecSealed| - 1])
      && ECBlock.Follows(env.h, b'.ecNext.header, b'.ecSealed) && AdminBlock.Follows(env.h, b'.aNext.header, b'.aSealed)
  {
    hide *;
    SealAllParts(env, f, b, c);
    BuildBlocksShape(env, f, b, c);
    var s := SealAll(env, f, b, c);
    SealedECNext(env.h, b.ecSealed, b.ecNext.(body := s.work.ecBody));
    SealedAdminNext(env.h, b.aSealed, s.admin, b.aHeight + 1);
    assert (b.ecSealed + [s.ec])[|b.ecSealed + [s.ec]| - 1] == s.ec;
  }

  lemma SealedECLinks(h: Hashing, blocks: seq<ECBlock.Block>, open: ECBlock.Block, body: seq<ECBlock.ECEntry>)
    requires ECBlock.Sizable(open.(body := body))
    requires ECBlock.Linked(h, blocks) && ECBlock.Follows(h, open.header, blocks)
    ensures var (ec, next) := SealECBlock(h, open.(body := body));
      ECBlock.Linked(h, blocks + [ec]) && ECBlock.Follows(h, next.header, blocks + [ec])
  {
    hide ECBlock.Sizable, ECBlock.HeaderMatches, ECBlock.Follows, ECBlock.Linked, ECBlock.Built, ECBlock.NextECBlock;
    ECBlock.BuiltKeepsLinks(h, open.(body := body), blocks);
    var ec := SealECBlock(h, open.(body := body)).0;
    ECBlock.LinkedSnoc(h, blocks, ec);
    SealedECNext(h, blocks, open.(body := body));
  }

  lemma SealedAdminLinks(h: Hashing, blocks: seq<AdminBlock.Block>, open: AdminBlock.Block,
      entries: seq<AdminBlock.ABEntry>,
                         height: nat)
    requires |open.header.expansion| == open.header.expansionSize && |entries| < TWO_32
    requires AdminBlock.Linked(h, blocks) && AdminBlock.Follows(h, open.header, blocks)
    ensures var admin := AdminBlock.Sealed(open.(entries := entries));
      && AdminBlock.Linked(h, blocks + [admin])
      && AdminBlock.Follows(h, AdminBlock.CreateAdminBlock(h, height % TWO_32, Some(admin)).header, blocks + [admin])
  {
    hide AdminBlock.Follows, AdminBlock.Linked, AdminBlock.CreateAdminBlock, AdminBlock.Consistent;
    AdminBlock.SealedKeepsLink(h, open.(entries := entries), blocks);
    var admin := AdminBlock.Sealed(open.(entries := entries));
    AdminBlock.LinkedSnoc(h, blocks, admin);
    SealedAdminNext(h, blocks, admin, height);
  }

  /** Closing a block links both of the server's chains on. */
  lemma BuildKeepsOwnLinks(env: Env, f: Front, b: Back, c: Closing)
    requires CanBuild(env, f, b, c) && OwnLinked(env.h, b)
    ensures OwnLinked(env.h, BuildBlocks(env, f, b, c).1)
  {
    hide *;
    BuildBounds(env, f, b, c);
    SealAllParts(env, f, b, c);
    BuildBlocksShape(env, f, b, c);
    OwnLinkedMeans(env.h, b);
    var w := SealAll(env, f, b, c).work;
    SealedECLinks(env.h, b.ecSealed, b.ecNext, w.ecBody);
    SealedAdminLinks(env.h, b.aSealed, b.aNext, w.abEntries, b.aHeight + 1);
    OwnLinkedMeans(env.h, BuildBlocks(env, f, b, c).1);
  }

  lemma OwnLinkedMeans(h: Hashing, b: Back)
    ensures OwnLinked(h, b)
       <==> (ECBlock.Linked(h, b.ecSealed) && ECBlock.Follows(h, b.ecNext.header, b.ecSealed)
             && AdminBlock.Linked(h, b.aSealed) && AdminBlock.Follows(h, b.aNext.header, b.aSealed))
  {
  }

  /** Closing a block adds one record to each of the server's own tables, at the next height. */
  lemma BuildKeepsRecorded(env: Env, loaded: set<Digest>, f: Front, b: Back, c: Closing)
    requires Ready(env, loaded, f, b, c)
    ensures Recorded(env.h, BuildBlocks(env, f, b, c).1)
  {
    hide *;
    ReadyChains(env, loaded, f, b, c);
    ReadyRecords(env, loaded, f, b, c);
    SealedRecord(env, f, b, c);
    HeadsOfSealed(env, f, b, c);
    BuildBlocksShape(env, f, b, c);
    RecordCounts(env.h, b);
    var s, b' := SealAll(env, f, b, c), BuildBlocks(env, f, b, c).1;
    RecordedByParts(env.h, b', |b.dBlocks|);
    RecordsGrow(env.h, b, b');
    RowsGrow(env.h, b, b', s.ec, s.admin, c.fBlock, s.dir);
    BuildKeepsOwnLinks(env, f, b, c);
    RecordsByParts(env.h, b');
  }

  /** Closing a block keeps the whole invariant. */
  lemma BuildKeepsInv(env: Env, loaded: set<Digest>, f: Front, b: Back, c: Closing)
    requires Ready(env, loaded, f, b, c)
    ensures var (g, b') := BuildBlocks(env, f, b, c); Inv(env, loaded, State(g, b'))
  {
    assert Balanced(ReplayBlocks(b.ecSealed), f) && b.nextDBHeight == |b.dBlocks|;
    BuildKeepsTidy(env, loaded, f, b, c);
    BuildKeepsListed(env, loaded, f, b, c);
    BuildKeepsRight(env, loaded, f, b, c);
    BuildKeepsOpens(env, loaded, f, b, c);
    BuildKeepsTable(env, loaded, f, b, c);
    BuildKeepsRecorded(env, loaded, f, b, c);
    ReadyChains(env, loaded, f, b, c);
    NewChainsIdle(env, f, b, c);
    SealedChains(env, f, b, c);
    SealedBalances(env, f, b, c);
    var s := SealAll(env, f, b, c);
    ReopenKeepsFront(env, loaded, ReplayBlocks(b.ecSealed), f, s.seal.chains, c.rate);
    hide *;
    BuildBlocksShape(env, f, b, c);
    ReopenedMeans(env, f, b, c);
    AssembleInv(env, loaded, BuildBlocks(env, f, b, c).0, BuildBlocks(env, f, b, c).1);
  }

  lemma BuildBlocksShape(env: Env, f: Front, b: Back, c: Closing)
    requires CanBuild(env, f, b, c)
    ensures var (g, b') := BuildBlocks(env, f, b, c); var s := SealAll(env, f, b, c);
      && g == Reopen(f, s.seal.chains, c.rate)
      && b'.ecSealed == b.ecSealed + [s.ec] && b'.eSealed == s.seal.eSealed && b'.nextDBHeight == b.nextDBHeight + 1
      && b'.dBlocks == b.dBlocks + [s.dir] && b'.aSealed == b.aSealed + [s.admin] && b'.fSealed == b.fSealed + [c.fBlock]
      && |s.ec.header.expansion| < TWO_64 && b'.db.ecBlocks == b.db.ecBlocks[ECBlock.HeaderHash(env.h, s.ec) := s.ec]
      && AdminBlock.Consistent(s.admin)
          && b'.db.aBlocks == b.db.aBlocks[AdminBlock.PartialHash(env.h, s.admin) := s.admin]
      && b'.db.fBlocks == b.db.fBlocks[c.fBlock.hash := c.fBlock] && b'.db.chains == s.work.chainTable
      && b'.db.entries == s.work.entries
      && b'.dTable == b.dTable[DirectoryBlock.DBHash(env.h, s.dir) := s.dir]
      && b'.ecNext == s.ecNext && b'.dNext == s.dNext
      && b'.aNext == AdminBlock.CreateAdminBlock(env.h, (b.aHeight + 1) % TWO_32, Some(s.admin))
           .(entries := [AdminBlock.DBSignature(ZERO_HASH, c.pubKey, c.sign(DirectoryBlock.MarshalHeader(s.dir.header)))])
  {
    SealAllParts(env, f, b, c);
    hide SealAll, ECBlock.HeaderHash, AdminBlock.PartialHash, AdminBlock.Marshal, DirectoryBlock.MarshalHeader,
      DirectoryBlock.DBHash, AdminBlock.CreateAdminBlock, CanBuild, AdminBlock.Consistent;
  }

  lemma AssembleInv(env: Env, loaded: set<Digest>, g: Front, b: Back)
    requires FrontInv(env, loaded, ReplayBlocks(b.ecSealed), g)
    requires OpensRight(env.h, loaded, g) && TableRight(loaded, g, b.db.chains)
    requires BlocksCollide(env.h, b.eSealed) || ChainsRight(env.h, loaded, g, b.eSealed, b.nextDBHeight)
    requires Tidy(env.h, b) && AllListed(env.h, b) && Recorded(env.h, b)
    ensures Inv(env, loaded, State(g, b))
  {
  }
}
