/** How the processor closes a block period in place (process/processor.go, buildBlocks and the
    functions it calls): it drains the process list into the open blocks, seals them one chain after
    another, stores them and opens the next ones. */
module BlockBuilder {
  import opened Basics
  import opened Entries
  import opened Messages
  import opened Ledger
  import opened ECLedger
  import opened ProcessList
  import opened Processor
  import opened EntryStore
  import opened Builder
  import opened CloseProofs
  import Minutes
  import EBlock
  import ECBlock
  import AdminBlock
  import DirectoryBlock

  class BlockBuilder {
    const server: Processor
    var ecNext: ECBlock.Block
    var aNext: AdminBlock.Block
    var aHeight: nat
    var fHeight: nat
    var dNext: DirectoryBlock.Block
    var dBlocks: seq<DirectoryBlock.Block>
    var nextDBHeight: nat
    var db: Db
    var dTable: map<Digest, DirectoryBlock.Block>
    /** The blocks stored so far, oldest first. */
    ghost var ecSealed: seq<ECBlock.Block>
    ghost var eSealed: seq<EBlock.Block>
    ghost var aSealed: seq<AdminBlock.Block>
    ghost var fSealed: seq<FBlock>

    constructor (server: Processor, b: Back)
      ensures this.server == server && View() == b
    {
      this.server := server;
      ecNext, aNext, aHeight, fHeight, dNext := b.ecNext, b.aNext, b.aHeight, b.fHeight, b.dNext;
      dBlocks, nextDBHeight, db, dTable := b.dBlocks, b.nextDBHeight, b.db, b.dTable;
      ecSealed, eSealed, aSealed, fSealed := b.ecSealed, b.eSealed, b.aSealed, b.fSealed;
    }

    ghost function Repr(): set<object>
      reads this, server, server.myProcessList, server.myProcessList.plItems
    {
      {this} + server.Repr()
    }

    ghost predicate Valid()
      reads Repr()
    {
      server.Valid() && HeadersRight(View())
    }

    ghost function View(): Back
      reads this
    {
      Back(ecNext, aNext, aHeight, fHeight, dNext, dBlocks, nextDBHeight, db, dTable, ecSealed, eSealed, aSealed, fSealed)
    }

    /** What the loop over the process list works on. */
    ghost function WorkView(): Work
      reads this, server
    {
      Work(server.chainIDMap, ecNext.body, aNext.entries, db.entries, db.chains)
    }

    /** Nothing but the work has changed. */
    twostate predicate OnlyWork()
      reads this, server
    {
      && ecNext == old(ecNext).(body := ecNext.body) && aNext == old(aNext).(entries := aNext.entries)
      && db == old(db).(entries := db.entries, chains := db.chains)
    }

    // -------------------------------------------------------------- the process list

    /** process/processor.go:806-818 */
    method BuildRevealEntry(e: Entry)
      requires e.chainID in server.chainIDMap
      modifies this`db, server`chainIDMap
      ensures OnlyWork() && WorkView() == Builder.BuildRevealEntry(server.env.h, old(WorkView()), e)
    {
      hide EntryHash;
      var chain := server.chainIDMap[e.chainID];
      var x := EntryHash(server.env.h, e);
      db := db.(entries := db.entries[x := e]);
      server.chainIDMap := server.chainIDMap[e.chainID := Append(chain, x)];
    }

    /** process/processor.go:820-840 */
    method BuildIncreaseBalance(tx: FctTx)
      requires server.factoshisPerCredit > 0
      modifies this`ecNext
      ensures OnlyWork()
      ensures ecNext.body == old(ecNext.body) + Increases(server.factoshisPerCredit, tx.hash, tx.ecOutputs)
    {
      for i := 0 to |tx.ecOutputs|
        invariant OnlyWork()
        invariant ecNext.body == old(ecNext.body) + Increases(server.factoshisPerCredit, tx.hash, tx.ecOutputs[..i])
      {
        assert tx.ecOutputs[..i + 1][..i] == tx.ecOutputs[..i];
        var cred := CreditsFor(tx.ecOutputs[i].1, server.factoshisPerCredit);
        var ib := IncreaseBalance(tx.ecOutputs[i].0, tx.hash, i % TWO_64, cred % TWO_64);
        ecNext := ecNext.(body := ecNext.body + [ECBlock.Increase(ib)]);
      }
      assert tx.ecOutputs[..|tx.ecOutputs|] == tx.ecOutputs;
    }

    /** process/processor.go:850-868 */
    method BuildRevealChain(e: Entry)
      requires e.chainID in server.chainIDMap
      modifies this`db, server`chainIDMap
      ensures OnlyWork() && WorkView() == Builder.BuildRevealChain(server.env.h, old(db.eTables), old(WorkView()), e)
    {
      hide EntryHash, InitEChainFromDB;
      var chain := server.chainIDMap[e.chainID];
      db := db.(chains := db.chains[e.chainID := chain.firstEntry]);
      match InitEChainFromDB(server.env.h, db.eTables, e.chainID) {
        case Err(_) =>
        case Ok((height, block)) =>
          chain := chain.(nextBlock := block, nextBlockHeight := height);
          var x := EntryHash(server.env.h, chain.firstEntry);
          db := db.(entries := db.entries[x := chain.firstEntry]);
          server.chainIDMap := server.chainIDMap[e.chainID := Append(chain, x)];
      }
    }

    /** The loop of process/processor.go:884-886, over a map in any order. */
    method MarkTouchedChains(tmpChains: set<Digest>, m: byte)
      modifies server`chainIDMap
      ensures server.chainIDMap == MarkChains(old(server.chainIDMap), tmpChains, m)
    {
      hide EBlock.MinuteMarker;
      ghost var was := server.chainIDMap;
      var todo := tmpChains * server.chainIDMap.Keys;
      while todo != {}
        invariant todo <= tmpChains * was.Keys && server.chainIDMap.Keys == was.Keys
        invariant forall cid :: cid in was && (cid !in tmpChains || cid in todo) ==> server.chainIDMap[cid] == was[cid]
        invariant forall cid :: cid in tmpChains && cid in was && cid !in todo ==>
          server.chainIDMap[cid] == Append(was[cid], EBlock.MinuteMarker(m))
      {
        var cid :| cid in todo;
        server.chainIDMap := server.chainIDMap[cid := Append(server.chainIDMap[cid], EBlock.MinuteMarker(m))];
        todo := todo - {cid};
      }
    }

    /** process/processor.go:872-898 */
    method BuildEndOfMinute(before: seq<Item>, m: byte)
      modifies this`ecNext, this`aNext, server`chainIDMap
      ensures OnlyWork() && WorkView() == Builder.BuildEndOfMinute(old(WorkView()), Minutes.Touched(before), m)
    {
      hide MarkChains;
      var tmpChains := Minutes.TouchedChains(before);
      MarkTouchedChains(tmpChains, m);
      ecNext := ecNext.(body := ecNext.body + [ECBlock.Minute(m)]);
      var abEntries := aNext.entries;
      if |abEntries| > 0 && !abEntries[|abEntries| - 1].EndOfMinute? {
        aNext := aNext.(entries := aNext.entries + [AdminBlock.EndOfMinute(m)]);
      }
    }

    /** The dispatch of process/processor.go:1034-1048. */
    method BuildItem(before: seq<Item>, i: Item)
      requires server.factoshisPerCredit > 0 && (IsReveal(i) ==> Revealed(i).chainID in server.chainIDMap)
      modifies this`ecNext, this`aNext, this`db, server`chainIDMap
      ensures OnlyWork()
      ensures WorkView() == Builder.BuildItem(server.env.h, old(db.eTables), server.factoshisPerCredit, old(WorkView()),
          before, i)
    {
      hide Builder.BuildRevealEntry, Builder.BuildRevealChain, Builder.BuildEndOfMinute, Increases;
      match i {
        case CommitChainItem(c) => ecNext := ecNext.(body := ecNext.body + [ECBlock.ChainCommit(c)]);
        case FactoidItem(tx) => BuildIncreaseBalance(tx);
        case CommitEntryItem(c) => ecNext := ecNext.(body := ecNext.body + [ECBlock.EntryCommit(c)]);
        case RevealChainItem(e) => BuildRevealChain(e);
        case RevealEntryItem(e) => BuildRevealEntry(e);
        case MinuteItem(m) => BuildEndOfMinute(before, m);
      }
    }

    /** The loop of process/processor.go:1033-1051. */
    method BuildItems(items: seq<Item>)
      requires server.factoshisPerCredit > 0 && ChainsKnown(items, server.chainIDMap)
      modifies this`ecNext, this`aNext, this`db, server`chainIDMap
      ensures OnlyWork()
      ensures WorkView() == Builder.BuildFromProcessList(server.env.h, old(db.eTables), server.factoshisPerCredit,
          old(WorkView()), items)
    {
      hide Builder.BuildItem;
      ghost var was := WorkView();
      for i := 0 to |items|
        invariant OnlyWork() && ChainsKnown(items[..i], was.chains)
        invariant WorkView() == Builder.BuildFromProcessList(server.env.h, old(db.eTables), server.factoshisPerCredit,
            was, items[..i])
      {
        assert items[..i + 1][..i] == items[..i];
        BuildItem(items[..i], items[i]);
      }
      assert items[..|items|] == items;
    }

    /** process/processor.go:1033-1051 */
    method BuildFromProcessList()
      requires server.Valid() && server.factoshisPerCredit > 0 && ChainsKnown(server.View().items, server.chainIDMap)
      modifies this`ecNext, this`aNext, this`db, server`chainIDMap
      ensures server.Valid() && server.Repr() == old(server.Repr()) && OnlyWork()
      ensures var (f, b) := (old(server.View()), old(WorkView()));
        var w := Builder.BuildFromProcessList(server.env.h, old(db.eTables), f.rate, b, f.items);
        server.View() == old(server.View()).(chains := w.chains) && View() == AfterList(old(View()), w)
    {
      hide Builder.BuildFromProcessList, ChainsKnown;
      var plItems := server.myProcessList.GetPLItems();
      BuildItems(Msgs(plItems));
    }

    // -------------------------------------------------------------- sealing

    /** process/processor.go:1084-1108 and common/directoryBlock.go:470-487 */
    method NewEntryCreditBlock() returns (block: ECBlock.Block)
      requires ECBlock.Sizable(ecNext) && |dNext.entries| >= 3
      modifies this`ecNext, this`db, this`dNext, this`ecSealed
      ensures block == SealECBlock(server.env.h, old(ecNext)).0 && |block.header.expansion| < TWO_64
      ensures View() == AfterECBlock(server.env.h, old(View()), block)
    {
      hide ECBlock.MarshalBody, ECBlock.HeaderHash, ECBlock.FullHash;
      block := ECBlock.Built(server.env.h, ecNext);
      ecNext := ECBlock.NextECBlock(server.env.h, block);
      ecNext := ecNext.(body := ecNext.body + [ECBlock.ServerIndex(SERVER_INDEX)]);
      assert ecNext.body == [ECBlock.ServerIndex(SERVER_INDEX)];
      var hash := ECBlock.HeaderHash(server.env.h, block);
      db := db.(ecBlocks := db.ecBlocks[hash := block]);
      ecSealed := ecSealed + [block];
      dNext := dNext.(entries := dNext.entries[1 := DirectoryBlock.DBEntry(block.header.ecChainID, hash)]);
    }

    /** process/processor.go:1111-1145 and common/directoryBlock.go:490-510 */
    method NewAdminBlock() returns (block: AdminBlock.Block)
      requires |aNext.header.expansion| == aNext.header.expansionSize && |aNext.entries| < TWO_32
      requires |dNext.entries| >= 3
      modifies this`aNext, this`aHeight, this`db, this`dNext, this`aSealed
      ensures block == AdminBlock.Sealed(old(aNext))
      ensures View() == AfterAdminBlock(server.env.h, old(View()), block)
    {
      hide AdminBlock.PartialHash, AdminBlock.CreateAdminBlock;
      block := AdminBlock.Sealed(aNext);
      aHeight := aHeight + 1;
      aNext := AdminBlock.CreateAdminBlock(server.env.h, aHeight % TWO_32, Some(block));
      var hash := AdminBlock.PartialHash(server.env.h, block);
      db := db.(aBlocks := db.aBlocks[hash := block]);
      aSealed := aSealed + [block];
      dNext := dNext.(entries := dNext.entries[0 := DirectoryBlock.DBEntry(block.header.adminChainID, hash)]);
    }

    /** process/processor.go:1148-1196 and common/directoryBlock.go:513-533: the exchange rate is re-read
        here, after the process list has been built. */
    method NewFactoidBlock(fBlock: FBlock, rate: u64)
      requires server.Valid() && |dNext.entries| >= 3
      modifies this`fHeight, this`db, this`dNext, this`fSealed, server`factoshisPerCredit
      ensures server.Valid() && server.Repr() == old(server.Repr())
      ensures server.View() == old(server.View()).(rate := rate)
      ensures View() == AfterFactoidBlock(old(View()), fBlock)
    {
      server.factoshisPerCredit := rate;
      fHeight := fHeight + 1;
      db := db.(fBlocks := db.fBlocks[fBlock.hash := fBlock]);
      fSealed := fSealed + [fBlock];
      dNext := dNext.(entries := dNext.entries[2 := DirectoryBlock.DBEntry(fBlock.chainID, fBlock.hash)]);
    }

    ghost function SealingView(): Sealing
      reads this, server
    {
      Sealing(server.chainIDMap, dNext.entries, db.eTables, eSealed)
    }

    /** process/processor.go:1054-1081 and common/directoryBlock.go:456-468 */
    method NewEntryBlock(cid: Digest)
      requires cid in server.chainIDMap
      modifies this`db, this`dNext, this`eSealed, server`chainIDMap
      ensures SealingView() == SealChain(server.env.h, nextDBHeight, old(SealingView()), cid)
      ensures db == old(db).(eTables := db.eTables) && dNext == old(dNext).(entries := dNext.entries)
    {
      hide EBlock.Built, EBlock.KeyMR, EBlock.FullHash, EBlock.MakeEBlock, StoreEBlock;
      var chain := server.chainIDMap[cid];
      var block := chain.nextBlock;
      if |block.body| < 1 {
        return;
      }
      block := EBlock.Built(server.env.h, block.(header := block.header.(ebHeight := nextDBHeight % TWO_32)));
      var height := chain.nextBlockHeight + 1;
      var next := EBlock.MakeEBlock(server.env.h, chain.chainID, height, Some(block));
      server.chainIDMap := server.chainIDMap[cid := chain.(nextBlock := next, nextBlockHeight := height)];
      db := db.(eTables := StoreEBlock(server.env.h, db.eTables, block));
      eSealed := eSealed + [block];
      dNext := dNext.(entries :=
          dNext.entries + [DirectoryBlock.DBEntry(block.header.chainID, EBlock.KeyMR(server.env.h, block))]);
    }

    /** The loop of process/processor.go:988-996. */
    method SealEntryBlocks(keys: seq<Digest>)
      requires forall k :: k in keys ==> k in SealingView().chains
      modifies this`db, this`dNext, this`eSealed, server`chainIDMap
      ensures SealingView() == SealChains(server.env.h, nextDBHeight, old(SealingView()), keys)
      ensures db == old(db).(eTables := db.eTables) && dNext == old(dNext).(entries := dNext.entries)
    {
      hide SealChain;
      ghost var was := SealingView();
      for i := 0 to |keys|
        invariant SealingView() == SealChains(server.env.h, nextDBHeight, was, keys[..i])
        invariant db == old(db).(eTables := db.eTables) && dNext == old(dNext).(entries := dNext.entries)
      {
        assert keys[..i + 1][..i] == keys[..i];
        NewEntryBlock(keys[i]);
      }
      assert keys[..|keys|] == keys;
    }

    method NewEntryBlocks(keys: seq<Digest>)
      requires server.Valid() && forall k :: k in keys ==> k in SealingView().chains
      modifies this`db, this`dNext, this`eSealed, server`chainIDMap
      ensures server.Valid() && server.Repr() == old(server.Repr())
      ensures var seal := SealChains(server.env.h, old(nextDBHeight), old(SealingView()), keys);
        server.View() == old(server.View()).(chains := seal.chains) && View() == AfterSealing(old(View()), seal)
    {
      hide SealChains;
      SealEntryBlocks(keys);
    }

    /** process/processor.go:1199-1240 */
    method NewDirectoryBlock(networkID: u32, timestamp: u32) returns (block: DirectoryBlock.Block)
      modifies this`dNext, this`dBlocks, this`nextDBHeight, this`dTable
      ensures block == SealDBlock(server.env.h, old(dNext), networkID, timestamp, old(nextDBHeight) + 1).0
      ensures View() == AfterDBlock(server.env.h, old(View()), networkID, timestamp)
    {
      hide DirectoryBlock.BodyMR, DirectoryBlock.KeyMR, DirectoryBlock.DBHash;
      var h := server.env.h;
      block := dNext.(header := dNext.header.(networkID := networkID, timestamp := timestamp));
      block := block.(header := block.header.(blockCount := |block.entries| % TWO_32));
      block := block.(header := block.header.(bodyMR := DirectoryBlock.BodyMR(h, block.entries)));
      dBlocks := dBlocks + [block];
      nextDBHeight := nextDBHeight + 1;
      dNext := DirectoryBlock.CreateDBlock(h, nextDBHeight % TWO_32, Some(block));
      dTable := dTable[DirectoryBlock.DBHash(h, block) := block];
    }

    /** process/processor.go:1243-1254: the server signs the newest directory block, in the next admin
        block. */
    method SignDirectoryBlock(pubKey: Digest, sign: Bytes -> Signature)
      requires dBlocks != []
      modifies this`aNext
      ensures View() == AfterSigning(old(View()), pubKey, sign)
    {
      hide DirectoryBlock.MarshalHeader;
      var dbHeaderBytes := DirectoryBlock.MarshalHeader(dBlocks[|dBlocks| - 1].header);
      aNext := aNext.(entries := aNext.entries + [AdminBlock.DBSignature(ZERO_HASH, pubKey, sign(dbHeaderBytes))]);
    }

    /** process/init.go:282-285: an empty process list for the next period. */
    method InitProcessListMgr()
      requires server.Valid()
      modifies server`myProcessList
      ensures server.Valid() && fresh(server.myProcessList) && fresh(server.myProcessList.plItems)
      ensures fresh(server.myProcessList.plItems.cells)
      ensures server.View() == Emptied(old(server.View()))
    {
      server.myProcessList := new ProcessList<Item>(1);
    }

    method OpenDBEntries()
      modifies this`dNext
      ensures View() == WithBlanks(old(View()))
    {
      var blank := DirectoryBlock.DBEntry(ZERO_HASH, ZERO_HASH);
      dNext := dNext.(entries := dNext.entries + [blank, blank, blank]);
    }

    /** process/processor.go:964-979 */
    method NewOwnBlocks(fBlock: FBlock, rate: u64) returns (ec: ECBlock.Block, admin: AdminBlock.Block)
      requires server.Valid() && Closable(View())
      modifies this, server`factoshisPerCredit
      ensures server.Valid() && server.Repr() == old(server.Repr())
      ensures server.View() == old(server.View()).(rate := rate)
      ensures ec == SealECBlock(server.env.h, old(View()).ecNext).0 && admin == AdminBlock.Sealed(old(View()).aNext)
      ensures Sealable(old(View()), ec, admin) && View() == AfterThree(server.env.h, old(View()), ec, admin, fBlock)
    {
      hide SealECBlock, ECBlock.Sizable, AdminBlock.Sealed, AdminBlock.Consistent, ECBlock.HeaderHash,
        AdminBlock.PartialHash, AdminBlock.CreateAdminBlock;
      ec := NewEntryCreditBlock();
      admin := NewAdminBlock();
      NewFactoidBlock(fBlock, rate);
    }

    /** process/processor.go:955-962 */
    method FillOpenBlocks()
      requires server.Valid() && server.factoshisPerCredit > 0 && ChainsKnown(server.View().items, server.View().chains)
      modifies this, server`chainIDMap
      ensures server.Valid() && server.Repr() == old(server.Repr())
      ensures var (f, b) := (old(server.View()), old(View()));
        var w := Builder.BuildFromProcessList(server.env.h, b.db.eTables, f.rate, WorkOf(f, b), f.items);
        server.View() == f.(chains := w.chains) && View() == AfterList(WithBlanks(b), w)
    {
      hide Builder.BuildFromProcessList, ChainsKnown, AfterList;
      OpenDBEntries();
      BuildFromProcessList();
    }

    /** The first half of buildBlocks (process/processor.go:953-979): the process list, and the blocks of
        the server's own chains with their entries in the open directory block. */
    method BuildOwnBlocks(c: Closing)
      requires Valid() && CanBuild(server.env, server.View(), View(), c)
      modifies this, server`chainIDMap, server`factoshisPerCredit
      ensures server.Valid() && server.Repr() == old(server.Repr())
      ensures var (f, b) := (old(server.View()), old(View())); var s := SealAll(server.env, f, b, c);
        server.View() == f.(chains := s.work.chains, rate := c.rate) && View() == AfterOwnBlocks(server.env, b, s, c)
    {
      ghost var f, b := server.View(), View();
      SealAllParts(server.env, f, b, c);
      OwnBlocksFit(server.env, f, b, c);
      OwnBlocksCompose(server.env, f, b, c);
      assert f.rate > 0 && ChainsKnown(f.items, f.chains);
      hide SealAll, Builder.BuildFromProcessList, SealECBlock, ChainsKnown, CanBuild, AdminBlock.Sealed,
        AfterList, AfterThree, AfterOwnBlocks, Sealable, WithBlanks, Closable, AdminBlock.Consistent;
      FillOpenBlocks();
      var _, _ := NewOwnBlocks(c.fBlock, c.rate);
    }

    /** The second half (process/processor.go:981-1000): entry blocks, directory block, signature. */
    method BuildRest(c: Closing)
      requires server.Valid() && forall k :: k in c.keys ==> k in server.View().chains
      modifies this, server`chainIDMap
      ensures server.Valid() && server.Repr() == old(server.Repr())
      ensures var (f, b) := (old(server.View()), old(View()));
        var seal := SealChains(server.env.h, b.nextDBHeight, SealingOf(f, b), c.keys);
        server.View() == f.(chains := seal.chains) && View() == AfterRest(server.env.h, b, seal, c)
    {
      hide SealChains, AfterSealing, AfterDBlock, AfterSigning, SealDBlock;
      ghost var b := View();
      NewEntryBlocks(c.keys);
      NewestIsThere(server.env.h, View(), c.networkID, c.timestamp);
      var _ := NewDirectoryBlock(c.networkID, c.timestamp);
      SignDirectoryBlock(c.pubKey, c.sign);
    }

    /** Both halves. */
    method SealPeriod(c: Closing)
      requires Valid() && CanBuild(server.env, server.View(), View(), c)
      modifies this, server`chainIDMap, server`factoshisPerCredit
      ensures server.Valid() && server.Repr() == old(server.Repr())
      ensures var (f, b) := (old(server.View()), old(View())); var s := SealAll(server.env, f, b, c);
        && server.View() == f.(chains := s.seal.chains, rate := c.rate)
        && View() == AfterRest(server.env.h, AfterOwnBlocks(server.env, b, s, c), s.seal, c)
    {
      ghost var f, b := server.View(), View();
      OwnBlocksLeave(server.env, f, b, c);
      hide SealAll, CanBuild, AdminBlock.Consistent, SealChains, AfterRest, AfterOwnBlocks, SealingOf;
      BuildOwnBlocks(c);
      BuildRest(c);
    }

    lemma ViewIs()
      ensures View().ecSealed == ecSealed && View().aSealed == aSealed && View().ecNext == ecNext && View().aNext == aNext
    {
    }

    lemma StillValid()
      requires server.Valid() && HeadersRight(View())
      ensures Valid()
    {
    }

    /** process/processor.go:953-1030 and 1199-1254: the new state of the whole processor is what sealing
        the period says. */
    method BuildBlocks(c: Closing)
      requires Valid() && CanBuild(server.env, server.View(), View(), c) && server.myProcessList.totalItems == 0
      modifies this, server`chainIDMap, server`factoshisPerCredit, server`myProcessList
      ensures Valid() && fresh(server.myProcessList) && fresh(server.myProcessList.plItems)
      ensures fresh(server.myProcessList.plItems.cells)
      ensures var (f, b) := Builder.BuildBlocks(server.env, old(server.View()), old(View()), c);
        server.View() == f && View() == b
      ensures ecSealed != [] && ECBlock.HeaderMatches(server.env.h, ecSealed[|ecSealed| - 1])
      ensures ECBlock.Follows(server.env.h, ecNext.header, ecSealed)
          && AdminBlock.Follows(server.env.h, aNext.header, aSealed)
    {
      ghost var f, b := server.View(), View();
      assert f.totalItems == 0;
      hide *;
      SealPeriod(c);
      InitProcessListMgr();
      BuildBlocksCompose(server.env, f, b, c);
      OpensFollow(server.env, f, b, c);
      ViewIs();
      StillValid();
    }

    /** Whatever order the orphans come in, the period can be closed. */
    ghost predicate ClosesFine(clock: int, c: Closing)
      requires Valid()
      reads Repr()
    {
      forall order, keys :: KeysMatch(keys, CloseList(server.env, server.View(), order, clock).chains) ==>
        CanBuild(server.env, CloseList(server.env, server.View(), order, clock), View(), c.(keys := keys))
    }

    /** Minute 10 (process/processor.go:326-340): the orphans, the end of the list, and the blocks. The
        ghost results are the order of the orphans and the sorted chain ids. */
    method EndPeriod(clock: int, c: Closing) returns (ghost order: seq<Digest>, ghost keys: seq<Digest>)
      requires Valid() && |server.View().items| + |server.orphans| < TWO_31 && server.myProcessList.totalItems == 0
      requires ClosesFine(clock, c)
      modifies Repr()
      ensures Valid()
      ensures var (f, b, closing) := (CloseList(server.env, old(server.View()), order, clock), old(View()),
          c.(keys := keys));
        && CanBuild(server.env, f, b, closing)
        && server.View() == Builder.BuildBlocks(server.env, f, b, closing).0
            && View() == Builder.BuildBlocks(server.env, f, b, closing).1
    {
      hide CloseList, CanBuild, Builder.BuildBlocks, KeysMatch, HeadersRight;
      ghost var f := server.View();
      order := server.EndProcessList(clock);
      CloseKeepsTotal(server.env, f, order, clock);
      var sorted := SortedKeys(server.chainIDMap);
      keys := sorted;
      BuildBlocks(c.(keys := sorted));
    }
  }

  // ---------------------------------------------------------------- sorted chain ids

  function InsertKey(keys: seq<Digest>, k: Digest): seq<Digest> {
    if keys == [] then [k]
    else if Less(k, keys[0]) then [k] + keys
    else [keys[0]] + InsertKey(keys[1..], k)
  }

  lemma {:induction false} InsertKeyMembers(keys: seq<Digest>, k: Digest, x: Digest)
    ensures x in InsertKey(keys, k) <==> x == k || x in keys
    decreases |keys|
  {
    hide Less;
    if keys != [] {
      assert x in keys <==> x == keys[0] || x in keys[1..];
      if !Less(k, keys[0]) {
        InsertKeyMembers(keys[1..], k, x);
      }
    }
  }

  lemma {:induction false} InsertKeyAscends(keys: seq<Digest>, k: Digest)
    requires Ascending(keys) && k !in keys
    ensures Ascending(InsertKey(keys, k))
    decreases |keys|
  {
    hide Less;
    if keys == [] {
    } else if Less(k, keys[0]) {
      forall j | 0 <= j < |keys|
        ensures Less(k, keys[j])
      {
        if j > 0 {
          LessTransitive(k, keys[0], keys[j]);
        }
      }
    } else {
      LessTotal(k, keys[0]);
      InsertKeyAscends(keys[1..], k);
      var more := InsertKey(keys[1..], k);
      forall j | 0 <= j < |more|
        ensures Less(keys[0], more[j])
      {
        InsertKeyMembers(keys[1..], k, more[j]);
        if more[j] != k {
          var i :| 0 <= i < |keys[1..]| && keys[1..][i] == more[j];
          assert more[j] == keys[i + 1];
        }
      }
    }
  }

  /** process/processor.go:981-986. Lower-case hexadecimal strings sort like the bytes they stand for. */
  method SortedKeys(chains: map<Digest, EBlock.EChain>) returns (keys: seq<Digest>)
    ensures KeysMatch(keys, chains)
  {
    hide Less;
    keys := [];
    var todo := chains.Keys;
    while todo != {}
      invariant todo <= chains.Keys && Ascending(keys)
      invariant forall k :: k in keys <==> k in chains && k !in todo
    {
      var k :| k in todo;
      InsertKeyAscends(keys, k);
      forall x
        ensures x in InsertKey(keys, k) <==> x == k || x in keys
      {
        InsertKeyMembers(keys, k, x);
      }
      keys := InsertKey(keys, k);
      todo := todo - {k};
    }
  }

  lemma {:induction false} DrainKeepsTotal(env: Env, f: Front, order: seq<Digest>, clock: int)
    ensures ProcessFromOrphanPool(env, f, order, clock).totalItems == f.totalItems
    decreases |order|
  {
    hide RetryOrphan;
    if order != [] {
      var n := |order| - 1;
      DrainKeepsTotal(env, f, order[..n], clock);
      var g := ProcessFromOrphanPool(env, f, order[..n], clock);
      if order[n] in g.orphans {
        RetryKeepsTotal(env, g, order[n], clock);
      }
    }
  }

  lemma RetryKeepsTotal(env: Env, f: Front, k: Digest, clock: int)
    requires k in f.orphans
    ensures RetryOrphan(env, f, k, clock).totalItems == f.totalItems
  {
    hide ProcessRevealEntry, InTime, AddTo;
    if f.orphans[k].MsgRevealEntry? {
      RevealShape(env, f, f.orphans[k].entry);
    }
  }

  /** Nothing changes the count of items that the limit is compared with (consensus/plist.go:26-29). */
  lemma CloseKeepsTotal(env: Env, f: Front, order: seq<Digest>, clock: int)
    ensures CloseList(env, f, order, clock).totalItems == f.totalItems
  {
    hide ProcessFromOrphanPool;
    DrainKeepsTotal(env, f, order, clock);
  }

  // ---------------------------------------------------------------- the open blocks, step by step

  function AfterList(b: Back, w: Work): Back {
    b.(ecNext := b.ecNext.(body := w.ecBody), aNext := b.aNext.(entries := w.abEntries),
       db := b.db.(entries := w.entries, chains := w.chainTable))
  }

  function AfterECBlock(h: Hashing, b: Back, block: ECBlock.Block): Back
    requires ECBlock.Sizable(b.ecNext) && |block.header.expansion| < TWO_64 && |b.dNext.entries| >= 3
  {
    b.(ecNext := SealECBlock(h, b.ecNext).1, ecSealed := b.ecSealed + [block],
       db := b.db.(ecBlocks := b.db.ecBlocks[ECBlock.HeaderHash(h, block) := block]),
       dNext := b.dNext.(entries :=
           b.dNext.entries[1 := DirectoryBlock.DBEntry(block.header.ecChainID, ECBlock.HeaderHash(h, block))]))
  }

  function AfterAdminBlock(h: Hashing, b: Back, block: AdminBlock.Block): Back
    requires AdminBlock.Consistent(block) && |b.dNext.entries| >= 3
  {
    b.(aNext := AdminBlock.CreateAdminBlock(h, (b.aHeight + 1) % TWO_32, Some(block)), aHeight := b.aHeight + 1,
       aSealed := b.aSealed + [block],
       db := b.db.(aBlocks := b.db.aBlocks[AdminBlock.PartialHash(h, block) := block]),
       dNext := b.dNext.(entries :=
           b.dNext.entries[0 := DirectoryBlock.DBEntry(block.header.adminChainID, AdminBlock.PartialHash(h, block))]))
  }

  function AfterFactoidBlock(b: Back, fBlock: FBlock): Back
    requires |b.dNext.entries| >= 3
  {
    b.(fHeight := b.fHeight + 1, fSealed := b.fSealed + [fBlock],
        db := b.db.(fBlocks := b.db.fBlocks[fBlock.hash := fBlock]),
       dNext := b.dNext.(entries := b.dNext.entries[2 := DirectoryBlock.DBEntry(fBlock.chainID, fBlock.hash)]))
  }

  function AfterOwnBlocks(env: Env, b: Back, s: Sealed, c: Closing): Back
    requires AdminBlock.Consistent(s.admin) && |s.ec.header.expansion| < TWO_64
  {
    b.(ecNext := s.ecNext, aNext := AdminBlock.CreateAdminBlock(env.h, (b.aHeight + 1) % TWO_32, Some(s.admin)),
       aHeight := b.aHeight + 1, fHeight := b.fHeight + 1,
       dNext := b.dNext.(entries := FirstEntries(env, s, c)),
       db := b.db.(ecBlocks := b.db.ecBlocks[ECBlock.HeaderHash(env.h, s.ec) := s.ec],
                   aBlocks := b.db.aBlocks[AdminBlock.PartialHash(env.h, s.admin) := s.admin],
                   fBlocks := b.db.fBlocks[c.fBlock.hash := c.fBlock],
                   entries := s.work.entries, chains := s.work.chainTable),
       ecSealed := b.ecSealed + [s.ec], aSealed := b.aSealed + [s.admin], fSealed := b.fSealed + [c.fBlock])
  }

  /** The open blocks carry the ids of their chains. */
  predicate HeadersRight(b: Back) {
    b.ecNext.header.ecChainID == EC_CHAINID && b.aNext.header.adminChainID == ADMIN_CHAINID
  }

  function Emptied(f: Front): Front {
    f.(items := [], totalItems := 0)
  }

  function WithBlanks(b: Back): Back {
    var blank := DirectoryBlock.DBEntry(ZERO_HASH, ZERO_HASH);
    b.(dNext := b.dNext.(entries := b.dNext.entries + [blank, blank, blank]))
  }

  predicate Closable(b: Back) {
    && ECBlock.Sizable(b.ecNext) && |b.dNext.entries| >= 3
    && |b.aNext.header.expansion| == b.aNext.header.expansionSize && |b.aNext.entries| < TWO_32
  }

  predicate Sealable(b: Back, ec: ECBlock.Block, admin: AdminBlock.Block) {
    && ECBlock.Sizable(b.ecNext) && |ec.header.expansion| < TWO_64 && |b.dNext.entries| >= 3
    && AdminBlock.Consistent(admin)
  }

  function AfterThree(h: Hashing, b: Back, ec: ECBlock.Block, admin: AdminBlock.Block, fBlock: FBlock): Back
    requires Sealable(b, ec, admin)
  {
    AfterFactoidBlock(AfterAdminBlock(h, AfterECBlock(h, b, ec), admin), fBlock)
  }

  /** The open blocks, once the list is in them, can be sealed, and sealing them gives the sealed
      blocks. */
  lemma OwnBlocksFit(env: Env, f: Front, b: Back, c: Closing)
    requires CanBuild(env, f, b, c)
    ensures var s := SealAll(env, f, b, c); var b1 := AfterList(WithBlanks(b), s.work);
      && Closable(b1) && Sealable(b1, s.ec, s.admin)
      && s.ec == SealECBlock(env.h, b1.ecNext).0 && s.admin == AdminBlock.Sealed(b1.aNext)
  {
    SealAllParts(env, f, b, c);
    assert b.dNext.entries == [] && |b.aNext.header.expansion| == b.aNext.header.expansionSize;
    hide SealAll, Builder.BuildFromProcessList, SealECBlock, CanBuild, ECBlock.Sizable, AdminBlock.Sealed,
      AdminBlock.Consistent;
  }

  /** The steps of the first half compose to what sealing says. */
  lemma OwnBlocksCompose(env: Env, f: Front, b: Back, c: Closing)
    requires CanBuild(env, f, b, c) && HeadersRight(b)
    ensures var s := SealAll(env, f, b, c); var b1 := AfterList(WithBlanks(b), s.work);
      && AdminBlock.Consistent(s.admin) && |s.ec.header.expansion| < TWO_64
      && Sealable(b1, s.ec, s.admin) && AfterThree(env.h, b1, s.ec, s.admin, c.fBlock) == AfterOwnBlocks(env, b, s, c)
  {
    SealAllParts(env, f, b, c);
    OwnBlocksFit(env, f, b, c);
    OwnHeaders(env, f, b, c);
    assert b.dNext.entries == [];
    hide SealAll, Builder.BuildFromProcessList, SealECBlock, CanBuild, ECBlock.Sizable, AdminBlock.Sealed,
      AdminBlock.Consistent, ECBlock.HeaderHash,
      AdminBlock.PartialHash, AdminBlock.CreateAdminBlock;
    ThreeMeans(env, b, SealAll(env, f, b, c), c);
  }

  lemma ThreeMeans(env: Env, b: Back, s: Sealed, c: Closing)
    requires Sealable(AfterList(WithBlanks(b), s.work), s.ec, s.admin) && b.dNext.entries == []
    requires s.ecNext == SealECBlock(env.h, b.ecNext.(body := s.work.ecBody)).1
    requires s.ec.header.ecChainID == EC_CHAINID && s.admin.header.adminChainID == ADMIN_CHAINID
    ensures AfterThree(env.h, AfterList(WithBlanks(b), s.work), s.ec, s.admin, c.fBlock) == AfterOwnBlocks(env, b, s, c)
  {
    hide SealECBlock, ECBlock.Sizable, AdminBlock.Consistent, ECBlock.HeaderHash, AdminBlock.PartialHash,
      AdminBlock.CreateAdminBlock;
    var t := AfterThree(env.h, AfterList(WithBlanks(b), s.work), s.ec, s.admin, c.fBlock);
    assert t.dNext.entries == FirstEntries(env, s, c);
  }

  lemma OwnHeaders(env: Env, f: Front, b: Back, c: Closing)
    requires CanBuild(env, f, b, c)
    ensures var s := SealAll(env, f, b, c);
      s.ec.header.ecChainID == b.ecNext.header.ecChainID && s.admin.header.adminChainID == b.aNext.header.adminChainID
  {
    SealAllParts(env, f, b, c);
    hide SealAll, Builder.BuildFromProcessList, CanBuild, ECBlock.Sizable, ECBlock.HeaderHash, ECBlock.FullHash,
      AdminBlock.EntriesSize;
  }

  // ---------------------------------------------------------------- the second half

  function AfterSealing(b: Back, seal: Sealing): Back {
    b.(dNext := b.dNext.(entries := seal.dbEntries), db := b.db.(eTables := seal.eTables), eSealed := seal.eSealed)
  }

  function AfterDBlock(h: Hashing, b: Back, networkID: u32, timestamp: u32): (r: Back) {
    var (block, next) := SealDBlock(h, b.dNext, networkID, timestamp, b.nextDBHeight + 1);
    b.(dNext := next, dBlocks := b.dBlocks + [block], nextDBHeight := b.nextDBHeight + 1,
       dTable := b.dTable[DirectoryBlock.DBHash(h, block) := block])
  }

  function AfterSigning(b: Back, pubKey: Digest, sign: Bytes -> Signature): Back
    requires b.dBlocks != []
  {
    var sig := sign(DirectoryBlock.MarshalHeader(b.dBlocks[|b.dBlocks| - 1].header));
    b.(aNext := b.aNext.(entries := b.aNext.entries + [AdminBlock.DBSignature(ZERO_HASH, pubKey, sig)]))
  }

  function SealingOf(f: Front, b: Back): Sealing {
    Sealing(f.chains, b.dNext.entries, b.db.eTables, b.eSealed)
  }

  function AfterRest(h: Hashing, b: Back, seal: Sealing, c: Closing): Back {
    NewestIsThere(h, AfterSealing(b, seal), c.networkID, c.timestamp);
    AfterSigning(AfterDBlock(h, AfterSealing(b, seal), c.networkID, c.timestamp), c.pubKey, c.sign)
  }

  /** What the first half leaves for the second. */
  lemma OwnBlocksLeave(env: Env, f: Front, b: Back, c: Closing)
    requires CanBuild(env, f, b, c)
    ensures var s := SealAll(env, f, b, c);
      && AdminBlock.Consistent(s.admin) && |s.ec.header.expansion| < TWO_64
      && (forall k :: k in c.keys ==> k in s.work.chains)
      && var t := AfterOwnBlocks(env, b, s, c);
      && t.nextDBHeight == b.nextDBHeight
      && s.seal == SealChains(env.h, b.nextDBHeight, SealingOf(f.(chains := s.work.chains, rate := c.rate), t), c.keys)
  {
    SealAllParts(env, f, b, c);
    hide SealAll, SealChains, SealECBlock, Builder.BuildFromProcessList, ECBlock.HeaderHash, AdminBlock.PartialHash,
      AdminBlock.CreateAdminBlock, AdminBlock.Consistent,
      ECBlock.Sizable, AdminBlock.Sealed, SealDBlock, ChainsKnown;
  }

  lemma NewestIsThere(h: Hashing, b: Back, networkID: u32, timestamp: u32)
    ensures AfterDBlock(h, b, networkID, timestamp).dBlocks != []
  {
    hide SealDBlock;
  }

  /** The two halves compose to BuildBlocks. */
  lemma BuildBlocksCompose(env: Env, f: Front, b: Back, c: Closing)
    requires CanBuild(env, f, b, c) && f.totalItems == 0
    ensures var s := SealAll(env, f, b, c);
      && AdminBlock.Consistent(s.admin) && |s.ec.header.expansion| < TWO_64
      && var t := AfterRest(env.h, AfterOwnBlocks(env, b, s, c), s.seal, c);
      && Builder.BuildBlocks(env, f, b, c)
           == (Emptied(f.(chains := s.seal.chains, rate := c.rate)), t)
      && HeadersRight(t)
  {
    SealAllParts(env, f, b, c);
    NextHeaders(env, f, b, c);
    var s := SealAll(env, f, b, c);
    BackOfBuild(env, f, b, c);
    hide SealAll, CanBuild, AfterRest, ECBlock.HeaderHash, AdminBlock.PartialHash, AdminBlock.Consistent,
      DirectoryBlock.MarshalHeader, AdminBlock.CreateAdminBlock;
  }

  lemma BackOfBuild(env: Env, f: Front, b: Back, c: Closing)
    requires CanBuild(env, f, b, c)
    ensures var s := SealAll(env, f, b, c);
      && AdminBlock.Consistent(s.admin) && |s.ec.header.expansion| < TWO_64
      && Builder.BuildBlocks(env, f, b, c).1 == AfterRest(env.h, AfterOwnBlocks(env, b, s, c), s.seal, c)
  {
    SealAllParts(env, f, b, c);
    var s := SealAll(env, f, b, c);
    RestOfOwn(env, b, s, c);
    hide SealAll, CanBuild, AfterRest, AfterOwnBlocks, ECBlock.HeaderHash, AdminBlock.PartialHash,
      AdminBlock.Consistent, DirectoryBlock.MarshalHeader,
      AdminBlock.CreateAdminBlock, SealDBlock;
  }

  /** The state after both halves, field by field. */
  lemma RestOfOwn(env: Env, b: Back, s: Sealed, c: Closing)
    requires AdminBlock.Consistent(s.admin) && |s.ec.header.expansion| < TWO_64
    requires (s.dir, s.dNext) == SealDBlock(env.h, b.dNext.(entries := s.seal.dbEntries), c.networkID, c.timestamp,
        b.nextDBHeight + 1)
    ensures var t := AfterRest(env.h, AfterOwnBlocks(env, b, s, c), s.seal, c);
      var aNext := AdminBlock.CreateAdminBlock(env.h, (b.aHeight + 1) % TWO_32, Some(s.admin));
      && t.ecNext == s.ecNext && t.aHeight == b.aHeight + 1 && t.fHeight == b.fHeight + 1 && t.dNext == s.dNext
      && t.aNext == aNext.(entries :=
          [AdminBlock.DBSignature(ZERO_HASH, c.pubKey, c.sign(DirectoryBlock.MarshalHeader(s.dir.header)))])
      && t.dBlocks == b.dBlocks + [s.dir] && t.nextDBHeight == b.nextDBHeight + 1
      && t.db == Db(b.db.ecBlocks[ECBlock.HeaderHash(env.h, s.ec) := s.ec],
          b.db.aBlocks[AdminBlock.PartialHash(env.h, s.admin) := s.admin],
                    b.db.fBlocks[c.fBlock.hash := c.fBlock], s.seal.eTables, s.work.entries, s.work.chainTable)
      && t.ecSealed == b.ecSealed + [s.ec] && t.eSealed == s.seal.eSealed
      && t.aSealed == b.aSealed + [s.admin] && t.fSealed == b.fSealed + [c.fBlock]
      && t.dTable == b.dTable[DirectoryBlock.DBHash(env.h, s.dir) := s.dir]
  {
    CreatedEmpty(env.h, (b.aHeight + 1) % TWO_32, s.admin);
    OwnFields(env, b, s, c);
    hide ECBlock.HeaderHash, AdminBlock.PartialHash, AdminBlock.Consistent, DirectoryBlock.MarshalHeader,
      AdminBlock.CreateAdminBlock, SealDBlock, FirstEntries,
      AfterOwnBlocks;
    var o := AfterOwnBlocks(env, b, s, c);
    assert o.dNext.(entries := s.seal.dbEntries) == b.dNext.(entries := s.seal.dbEntries);
    assert (b.dBlocks + [s.dir])[|b.dBlocks|] == s.dir;
  }

  lemma OwnFields(env: Env, b: Back, s: Sealed, c: Closing)
    requires AdminBlock.Consistent(s.admin) && |s.ec.header.expansion| < TWO_64
    ensures var o := AfterOwnBlocks(env, b, s, c);
      && o.ecNext == s.ecNext && o.aHeight == b.aHeight + 1 && o.fHeight == b.fHeight + 1
          && o.dNext == b.dNext.(entries := o.dNext.entries)
      && o.aNext == AdminBlock.CreateAdminBlock(env.h, (b.aHeight + 1) % TWO_32, Some(s.admin))
      && o.dBlocks == b.dBlocks && o.nextDBHeight == b.nextDBHeight && o.ecSealed == b.ecSealed + [s.ec]
      && o.db.ecBlocks == b.db.ecBlocks[ECBlock.HeaderHash(env.h, s.ec) := s.ec]
          && o.db.fBlocks == b.db.fBlocks[c.fBlock.hash := c.fBlock]
      && o.db.aBlocks == b.db.aBlocks[AdminBlock.PartialHash(env.h, s.admin) := s.admin]
      && o.db.entries == s.work.entries && o.db.chains == s.work.chainTable
      && o.aSealed == b.aSealed + [s.admin] && o.fSealed == b.fSealed + [c.fBlock] && o.dTable == b.dTable
  {
    hide ECBlock.HeaderHash, AdminBlock.PartialHash, AdminBlock.Consistent, AdminBlock.CreateAdminBlock, FirstEntries;
  }

  lemma CreatedEmpty(h: Hashing, height: u32, prev: AdminBlock.Block)
    requires AdminBlock.Consistent(prev)
    ensures var a := AdminBlock.CreateAdminBlock(h, height, Some(prev));
      a.entries == [] && a.header.adminChainID == ADMIN_CHAINID
  {
    hide AdminBlock.Sha512Half;
  }

  lemma NextHeaders(env: Env, f: Front, b: Back, c: Closing)
    requires CanBuild(env, f, b, c)
    ensures var (s, t) := (SealAll(env, f, b, c), Builder.BuildBlocks(env, f, b, c).1);
      HeadersRight(t)
  {
    SealAllParts(env, f, b, c);
    CreatedEmpty(env.h, (b.aHeight + 1) % TWO_32, SealAll(env, f, b, c).admin);
    hide SealAll, ECBlock.Sizable, ECBlock.HeaderHash, ECBlock.FullHash, CanBuild, AdminBlock.CreateAdminBlock,
      AdminBlock.PartialHash, AdminBlock.Consistent, DirectoryBlock.MarshalHeader;
  }
}