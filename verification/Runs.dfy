/** The main results about whole runs of the server. */
module Runs {
  import opened Basics
  import opened Entries
  import opened Messages
  import opened Ledger
  import opened ReplayFilter
  import opened ECLedger
  import opened Balances
  import opened Commits
  import opened ChargedOnce
  import opened ChainOrder
  import opened EntryStore
  import opened Builder
  import opened BuildProofs
  import opened Server
  import opened ServerBlocks
  import opened CloseProofs
  import opened Minutes
  import opened Acceptance
  import EBlock
  import ECBlock
  import AdminBlock
  import DirectoryBlock

  // ---------------------------------------------------------------- start-up

  /** What the chain table and the stored entry blocks have to do with each other. */
  predicate StoredRight(h: Hashing, table: map<Digest, Entry>, eSealed: seq<EBlock.Block>, height: nat) {
    && (forall cid :: cid in table && cid[31] < 255 ==>
          Consecutive(eSealed, cid) && EBlock.Linked(h, ChainBlocks(eSealed, cid))
              && |ChainBlocks(eSealed, cid)| <= height)
    && (forall j :: 0 <= j < |eSealed| && eSealed[j].header.ebSequence == 0 && eSealed[j].header.chainID != ZERO_HASH ==>
          eSealed[j].header.chainID in table)
  }

  /** A database that servers have built, and the open blocks on top of it. */
  ghost predicate BackInv(h: Hashing, b: Back) {
    && Tidy(h, b) && AllListed(h, b) && Recorded(h, b)
    && (BlocksCollide(h, b.eSealed) || StoredRight(h, b.db.chains, b.eSealed, b.nextDBHeight))
  }

  /** Reading a chain back from the database gives its height and open block. */
  predicate RecoversAs(h: Hashing, b: Back, cid: Digest, chain: EBlock.EChain) {
    InitEChainFromDB(h, b.db.eTables, cid) == Ok((chain.nextBlockHeight, chain.nextBlock))
  }

  /** The chains of the chain table, each as it is read. */
  predicate ChainsAsRead(h: Hashing, b: Back, chains: map<Digest, EBlock.EChain>) {
    && chains.Keys == b.db.chains.Keys
    && forall cid :: cid in chains ==> chains[cid].firstEntry == b.db.chains[cid] && RecoversAs(h, b, cid, chains[cid])
  }

  /** The server just after start-up: balances replayed from the stored blocks, the chains of the chain
      table as they are read, and nothing received yet. */
  ghost predicate Boot(env: Env, s: State) {
    var f := s.front;
    && f.rate > 0 && f.totalItems == 0
    && f.commitEntries == map[] && f.commitChains == map[] && f.orphans == map[]
    && f.items == [] && f.log == [] && f.seen == {}
    && f.credits == ReplayBlocks(s.back.ecSealed)
    && ChainsIdle(f.chains) && ChainsAsRead(env.h, s.back, f.chains)
    && BackInv(env.h, s.back)
  }

  lemma BootFrontInv(env: Env, s: State)
    requires Boot(env, s)
    ensures FrontInv(env, s.front.chains.Keys, ReplayBlocks(s.back.ecSealed), s.front)
    ensures s.front.items == [] && s.front.log == []
    ensures ChainsIdle(s.front.chains) && ChainsAsRead(env.h, s.back, s.front.chains) && BackInv(env.h, s.back)
  {
    hide ChainsAsRead, BackInv, ChainsIdle;
    ReplayNothing(s.front.credits);
    assert ECEntries(s.front.rate, []) == [];
  }

  lemma BootOwned(f: Front, cid: Digest)
    requires f.items == [] && f.log == []
    ensures Owned(f.chains.Keys, f, cid) <==> cid in f.chains
  {
  }

  lemma BootOpens(h: Hashing, b: Back, f: Front)
    requires f.items == [] && f.log == [] && ChainsAsRead(h, b, f.chains)
    ensures OpensRight(h, f.chains.Keys, f) && TableRight(f.chains.Keys, f, b.db.chains)
  {
    hide InitEChainFromDB, OpenOwned, Stranger, Owned;
    forall cid
      ensures Owned(f.chains.Keys, f, cid) <==> cid in f.chains
    {
      BootOwned(f, cid);
    }
    forall cid | cid in f.chains
      ensures OpenOwned(h, cid, f.chains[cid])
    {
      assert RecoversAs(h, b, cid, f.chains[cid]);
      ReadOpens(h, b.db.eTables, cid, f.chains[cid]);
    }
  }

  /** A chain that is read from well-numbered blocks is live. */
  lemma ReadIsLive(h: Hashing, b: Back, cid: Digest, chain: EBlock.EChain)
    requires Storable(h, b.eSealed) && b.db.eTables == StoreAll(h, b.eSealed) && !BlocksCollide(h, b.eSealed)
    requires RecoversAs(h, b, cid, chain) && cid[31] < 255 && Consecutive(b.eSealed, cid)
    requires EBlock.Linked(h, ChainBlocks(b.eSealed, cid))
    ensures LiveAt(h, b.eSealed, cid, chain) && chain.nextBlockHeight == |ChainBlocks(b.eSealed, cid)|
  {
    hide StoreAll, Storable, ChainBlocks, Consecutive, EBlock.MakeEBlock, InitEChainFromDB, CollisionBetween,
      StoredInputs, EBlock.Linked;
    RecoveryIsExact(h, b.eSealed, cid);
  }

  lemma BootChains(h: Hashing, b: Back, f: Front)
    requires f.items == [] && f.log == [] && ChainsAsRead(h, b, f.chains)
    requires Storable(h, b.eSealed) && b.db.eTables == StoreAll(h, b.eSealed) && !BlocksCollide(h, b.eSealed)
    requires StoredRight(h, b.db.chains, b.eSealed, b.nextDBHeight)
    ensures ChainsRight(h, f.chains.Keys, f, b.eSealed, b.nextDBHeight)
  {
    hide Owned, BlocksCollide, Storable, StoreAll, RecoversAs, LiveAt, ChainBlocks, Consecutive, EBlock.Linked;
    forall cid
      ensures Owned(f.chains.Keys, f, cid) <==> cid in f.chains
    {
      BootOwned(f, cid);
    }
    forall cid | cid in f.chains
      ensures ChainRight(h, f.chains.Keys, f, b.eSealed, b.nextDBHeight, cid)
    {
      assert RecoversAs(h, b, cid, f.chains[cid]);
      if cid[31] < 255 {
        ReadIsLive(h, b, cid, f.chains[cid]);
      } else {
        ReadIsFirst(h, b, cid, f.chains[cid]);
      }
    }
  }

  lemma ReadIsFirst(h: Hashing, b: Back, cid: Digest, chain: EBlock.EChain)
    requires Storable(h, b.eSealed) && b.db.eTables == StoreAll(h, b.eSealed) && cid[31] == 255
    ensures RecoversAs(h, b, cid, chain)
        <==> chain.nextBlockHeight == 0 && chain.nextBlock == EBlock.MakeEBlock(h, cid, 0, None)
  {
    hide StoreAll, Storable, EBlock.MakeEBlock, InitEChainFromDB;
    Reads255(h, b.eSealed, cid);
  }

  lemma BootInv(env: Env, s: State)
    requires Boot(env, s)
    ensures Inv(env, s.front.chains.Keys, s)
  {
    BootFrontInv(env, s);
    hide Boot, FrontInv, ChainsIdle, ChainsAsRead, StoredRight, BlocksCollide, ChainsRight, AllListed,
      Recorded, OpensRight, TableRight, DirectoryBlock.Linked, DirectoryBlock.Numbered, Storable, StoreAll,
      EntriesStored, Named;
    BootOpens(env.h, s.back, s.front);
    if !BlocksCollide(env.h, s.back.eSealed) {
      BootChains(env.h, s.back, s.front);
    }
  }

  /** The other way round: what any reachable state leaves in the database is such a database. */
  lemma InvBack(env: Env, loaded: set<Digest>, s: State)
    requires Inv(env, loaded, s)
    ensures BackInv(env.h, s.back)
  {
    hide AllListed, Recorded, Tidy, BlocksCollide, LiveAt, Owned, Core, Once, OpensRight, ChainBlocks, Consecutive,
      EBlock.Linked;
    var (f, b) := (s.front, s.back);
    if !BlocksCollide(env.h, b.eSealed) {
      forall cid | cid in b.db.chains && cid[31] < 255
        ensures Consecutive(b.eSealed, cid) && EBlock.Linked(env.h, ChainBlocks(b.eSealed, cid))
        ensures |ChainBlocks(b.eSealed, cid)| <= b.nextDBHeight
      {
        assert ChainRight(env.h, loaded, f, b.eSealed, b.nextDBHeight, cid);
        LiveFacts(env.h, b.eSealed, cid, f.chains[cid]);
      }
      forall j | 0 <= j < |b.eSealed| && b.eSealed[j].header.ebSequence == 0 && b.eSealed[j].header.chainID != ZERO_HASH
        ensures b.eSealed[j].header.chainID in b.db.chains
      {
        OwnedInTable(env, loaded, s, b.eSealed[j].header.chainID);
      }
    }
  }

  lemma OwnedInTable(env: Env, loaded: set<Digest>, s: State, cid: Digest)
    requires Inv(env, loaded, s) && |s.front.items| <= |s.front.log|
    ensures Owned(loaded, s.front, cid) <==> cid in s.back.db.chains
  {
    hide AllListed, Recorded, Tidy, BlocksCollide, Owned, OpensRight, ChainsRight, Books, Balanced, Suffix,
      ChainsIdle, NewChainsWait, Once;
    if Owned(loaded, s.front, cid) {
      OwnedIsKnown(loaded, s.front, cid);
    }
  }

  /** There is such a state: a server with an empty database. */
  lemma EmptyServerBoots(env: Env)
    ensures Boot(env, State(
      Front(1, map[], map[], map[], map[], map[], 0, [], {}, []),
      Back(ECBlock.NewECBlock(), AdminBlock.Block(AdminBlock.Header(ADMIN_CHAINID, ZERO_HASH, 0, 0, [], 0, 0), []), 0, 0,
           DirectoryBlock.Block(DirectoryBlock.Header(0, 0, ZERO_HASH, ZERO_HASH, ZERO_HASH, 0, 0, 0), []), [], 0,
           Db(map[], map[], map[], NoTables, map[], map[]), map[], [], [], [], [])))
  {
    hide EBlock.Built, BlocksCollide;
    assert StoreAll(env.h, []) == NoTables;
    assert ReplayBlocks([]) == map[];
  }

  // ---------------------------------------------------------------- the invariant over every run

  lemma InvChains(env: Env, loaded: set<Digest>, f: Front, g: Front, b: Back)
    requires Inv(env, loaded, State(f, b)) && Grows(f, g) && FrontInv(env, loaded, ReplayBlocks(b.ecSealed), g)
    ensures Inv(env, loaded, State(g, b))
  {
    hide OpensRight, TableRight, ChainsRight, Tidy, AllListed, Recorded, Once, Books, Balanced, Grows, Ordered,
      BlocksCollide, Suffix, ChainsIdle, NewChainsWait, Limits;
    NamesGrow(env.h, loaded, f, g, b.db.chains);
    if !BlocksCollide(env.h, b.eSealed) {
      RightGrows(env.h, loaded, f, g, b.eSealed, b.nextDBHeight);
    }
  }

  lemma InvFront(env: Env, loaded: set<Digest>, s: State)
    requires Inv(env, loaded, s)
    ensures FrontInv(env, loaded, ReplayBlocks(s.back.ecSealed), s.front)
    ensures s.front.totalItems == 0
  {
    hide OpensRight, TableRight, ChainsRight, Tidy, AllListed, Recorded, Once, Books, Balanced, Ordered,
      BlocksCollide, Suffix, ChainsIdle, NewChainsWait;
  }

  lemma MessageKeepsInv(env: Env, loaded: set<Digest>, s: State, ev: Event)
    requires Inv(env, loaded, s) && s.front.rate > 0
    ensures Inv(env, loaded, State(Serve(env, s.front, ev).0, s.back))
  {
    hide *;
    InvFront(env, loaded, s);
    ServeKeepsFrontInv(env, loaded, ReplayBlocks(s.back.ecSealed), s.front, ev);
    GrowsByServe(env, s.front, ev);
    InvChains(env, loaded, s.front, Serve(env, s.front, ev).0, s.back);
  }

  lemma CloseIsReady(env: Env, loaded: set<Digest>, s: State, order: seq<Digest>, clock: int, c: Closing)
    requires Inv(env, loaded, s) && CanStep(env, s, Close(order, clock, c))
    ensures Ready(env, loaded, CloseList(env, s.front, order, clock), s.back, c)
  {
    hide Inv, Grows, CanBuild, FrontInv, CloseList;
    ListKeepsInv(env, loaded, s, order, clock);
  }

  lemma ListKeepsInv(env: Env, loaded: set<Digest>, s: State, order: seq<Digest>, clock: int)
    requires Inv(env, loaded, s)
    ensures Inv(env, loaded, State(CloseList(env, s.front, order, clock), s.back))
  {
    hide *;
    InvFront(env, loaded, s);
    CloseListKeepsFrontInv(env, loaded, ReplayBlocks(s.back.ecSealed), s.front, order, clock);
    GrowsByCloseList(env, loaded, ReplayBlocks(s.back.ecSealed), s.front, order, clock);
    InvChains(env, loaded, s.front, CloseList(env, s.front, order, clock), s.back);
  }

  lemma StepKeepsInv(env: Env, loaded: set<Digest>, s: State, step: Step)
    requires Inv(env, loaded, s) && CanStep(env, s, step)
    ensures Inv(env, loaded, DoStep(env, s, step))
  {
    hide Inv, Serve, CloseList, BuildBlocks, CanBuild, Ready;
    match step
    case Message(ev) => MessageKeepsInv(env, loaded, s, ev);
    case Close(order, clock, c) =>
      CloseIsReady(env, loaded, s, order, clock, c);
      BuildKeepsInv(env, loaded, CloseList(env, s.front, order, clock), s.back, c);
  }

  /** Every state of every run satisfies the invariant. */
  lemma {:induction false} RunKeepsInv(env: Env, loaded: set<Digest>, states: seq<State>, steps: seq<Step>, i: nat)
    requires IsRun(env, states, steps) && i < |states| && Inv(env, loaded, states[0])
    ensures Inv(env, loaded, states[i])
    decreases i
  {
    hide Inv, DoStep, CanStep;
    if i > 0 {
      RunKeepsInv(env, loaded, states, steps, i - 1);
      StepKeepsInv(env, loaded, states[i - 1], steps[i - 1]);
    }
  }

  // ---------------------------------------------------------------- the ledger

  /** Ledger refinement: in every reachable state the live balances are the replay of all sealed entry
      credit blocks plus the effect of the pending list; right after a block they are the replay. */
  lemma LedgerRefinement(env: Env, states: seq<State>, steps: seq<Step>, i: nat)
    requires IsRun(env, states, steps) && i < |states| && Boot(env, states[0])
    ensures states[i].front.rate > 0
    ensures states[i].front.credits
         == Replay(ReplayBlocks(states[i].back.ecSealed), ECEntries(states[i].front.rate, states[i].front.items))
    ensures i > 0 && steps[i - 1].Close? ==> states[i].front.credits == ReplayBlocks(states[i].back.ecSealed)
  {
    hide Boot, DoStep, CanStep, ChainsRight, OpensRight, TableRight, BlocksCollide, Recorded, Tidy, AllListed,
      Once, Books, Ordered, ECEntries, Replay;
    var loaded := states[0].front.chains.Keys;
    BootInv(env, states[0]);
    RunKeepsInv(env, loaded, states, steps, i);
    if i > 0 && steps[i - 1].Close? {
      CloseEmptiesList(env, states[i - 1], steps[i - 1]);
      NoEntriesNoEffect(states[i].front.rate, ReplayBlocks(states[i].back.ecSealed));
    }
  }

  lemma CloseEmptiesList(env: Env, s: State, step: Step)
    requires CanStep(env, s, step) && step.Close?
    ensures DoStep(env, s, step).front.items == []
  {
    hide CloseList, CanBuild, SealAll;
    BuildBlocksShape(env, CloseList(env, s.front, step.order, step.clock), s.back, step.closing);
  }

  lemma NoEntriesNoEffect(rate: u64, base: map<Digest, int>)
    requires rate > 0
    ensures Replay(base, ECEntries(rate, [])) == base
  {
  }

  /** Every entry credit record of the sealed blocks, in order. */
  function AllRecords(blocks: seq<ECBlock.Block>): seq<ECBlock.ECEntry> {
    if blocks == [] then [] else AllRecords(blocks[..|blocks| - 1]) + blocks[|blocks| - 1].body
  }

  lemma {:induction false} ReplayIsOneReplay(blocks: seq<ECBlock.Block>)
    ensures ReplayBlocks(blocks) == Replay(map[], AllRecords(blocks))
    decreases |blocks|
  {
    hide ReplayOne;
    if blocks != [] {
      var n := |blocks| - 1;
      ReplayIsOneReplay(blocks[..n]);
      ReplayAppend(map[], AllRecords(blocks[..n]), blocks[n].body);
    }
  }

  /** Conservation: in every reachable state each balance is, in 32-bit arithmetic, all credits ever
      bought for the key minus all credits ever charged to it, over the sealed blocks and the pending
      list. */
  lemma BalancesAreNet(env: Env, states: seq<State>, steps: seq<Step>, i: nat, k: Digest)
    requires IsRun(env, states, steps) && i < |states| && Boot(env, states[0])
    ensures states[i].front.rate > 0
    ensures Balance(states[i].front.credits, k)
         == ToInt32(Net(AllRecords(states[i].back.ecSealed),
             k) + Net(ECEntries(states[i].front.rate, states[i].front.items), k))
  {
    hide Boot, DoStep, CanStep, ECEntries, Replay, ReplayBlocks, AllRecords, Net;
    LedgerRefinement(env, states, steps, i);
    var sealed, pending := AllRecords(states[i].back.ecSealed), ECEntries(states[i].front.rate, states[i].front.items);
    ReplayIsOneReplay(states[i].back.ecSealed);
    ReplayAppend(map[], sealed, pending);
    ReplayIsNet(map[], sealed + pending, k);
    NetAppend(sealed, pending, k);
  }

  /** Each purchase in the step is one that SafePurchase calls reasonable. */
  predicate SafeStep(s: State, step: Step) {
    step.Message? && step.ev.OnFactoidTX? && s.front.rate > 0 ==>
      SafePurchase(s.front.credits, s.front.rate, step.ev.tx.ecOutputs)
  }

  /** Nobody is overdrawn, now or at any prefix of the replay. */
  predicate NobodyOverdrawn(s: State) {
    && PendingCovered(ReplayBlocks(s.back.ecSealed), s.front)
    && Covered(map[], AllRecords(s.back.ecSealed))
  }

  lemma CoveredIgnoresFilter(base: map<Digest, int>, f: Front, seen: Log, orphans: map<Digest, Msg>)
    requires PendingCovered(base, f)
    ensures PendingCovered(base, f.(seen := seen)) && PendingCovered(base, f.(orphans := orphans))
  {
    hide Replay, Covered, Solvent, ECEntries;
  }

  lemma ServeKeepsCovered(env: Env, base: map<Digest, int>, f: Front, ev: Event)
    requires f.rate > 0 && f.totalItems == 0 && PendingCovered(base, f)
    requires ev.OnFactoidTX? ==> SafePurchase(f.credits, f.rate, ev.tx.ecOutputs)
    ensures PendingCovered(base, Serve(env, f, ev).0)
  {
    hide PendingCovered, ProcessCommitChain, ProcessCommitEntry, ProcessRevealEntry, ProcessBuyEntryCredit, Fresh,
      Record, GetMilliTime, SafePurchase;
    match ev
    case OnCommitChain(c, valid, now, clock) =>
      var g := Pass(f, CommitChainSigHash(env.h, c), GetMilliTime(c.milliTime) / 1000, now).0;
      CoveredIgnoresFilter(base, f, g.seen, f.orphans);
      CommitChainKeepsCovered(env, base, g, c, clock);
    case OnCommitEntry(c, valid, now, clock) =>
      var g := Pass(f, CommitEntrySigHash(env.h, c), GetMilliTime(c.milliTime) / 1000, now).0;
      CoveredIgnoresFilter(base, f, g.seen, f.orphans);
      CommitEntryKeepsCovered(env, base, g, c, clock);
    case OnRevealEntry(e, valid) =>
      RevealKeepsCovered(env, base, f, e);
    case OnFactoidTX(tx, valid, now, added) =>
      var g := Pass(f, tx.sigHash, tx.milliTimestamp / 1000, now).0;
      CoveredIgnoresFilter(base, f, g.seen, f.orphans);
      BuyKeepsCovered(env, base, g, tx);
    case OnMinute(m) =>
      MinuteKeepsCovered(base, f, m);
  }

  lemma {:induction false} DrainKeepsCovered(env: Env, loaded: set<Digest>, base: map<Digest, int>, f: Front,
                                             order: seq<Digest>, clock: int)
    requires FrontInv(env, loaded, base, f) && PendingCovered(base, f)
    ensures PendingCovered(base, ProcessFromOrphanPool(env, f, order, clock))
    decreases |order|
  {
    hide FrontInv, PendingCovered, RetryOrphan;
    if order != [] {
      var n := |order| - 1;
      DrainKeepsCovered(env, loaded, base, f, order[..n], clock);
      DrainKeepsFrontInv(env, loaded, base, f, order[..n], clock);
      var g := ProcessFromOrphanPool(env, f, order[..n], clock);
      if order[n] in g.orphans {
        RetryKeepsCovered(env, loaded, base, g, order[n], clock);
      }
    }
  }

  lemma RetryKeepsCovered(env: Env, loaded: set<Digest>, base: map<Digest, int>, f: Front, k: Digest, clock: int)
    requires FrontInv(env, loaded, base, f) && PendingCovered(base, f) && k in f.orphans
    ensures PendingCovered(base, RetryOrphan(env, f, k, clock))
  {
    FrontInvLimits(env, loaded, base, f);
    assert f.orphans[k].MsgRevealEntry?;
    hide PendingCovered, ProcessRevealEntry, ProcessCommitEntry, ProcessCommitChain, FrontInv;
    var e := f.orphans[k].entry;
    var g := ProcessRevealEntry(env, f, e).0;
    RevealKeepsCovered(env, base, f, e);
    CoveredIgnoresFilter(base, g, g.seen, g.orphans - {k});
  }

  lemma CloseKeepsCovered(env: Env, f: Front, b: Back, c: Closing)
    requires CanBuild(env, f, b, c) && c.rate > 0 && Tidy(env.h, b)
    requires PendingCovered(ReplayBlocks(b.ecSealed), f) && Covered(map[], AllRecords(b.ecSealed))
    ensures var (g, b') := BuildBlocks(env, f, b, c); NobodyOverdrawn(State(g, b'))
  {
    hide Covered, Solvent, Replay, ECEntries, SealAll, BuildBlocks, CanBuild,
      DirectoryBlock.Linked, DirectoryBlock.Numbered, Storable, StoreAll, EntriesStored, Named;
    var base := ReplayBlocks(b.ecSealed);
    var (g, b') := BuildBlocks(env, f, b, c);
    var s := SealAll(env, f, b, c);
    BuildBlocksShape(env, f, b, c);
    SealedBasics(env, f, b, c);
    SealedBalances(env, f, b, c);
    PendingSolvent(base, f);
    assert b'.ecSealed[..|b.ecSealed|] == b.ecSealed;
    CoveredMarkers(base, b.ecNext.body);
    ReplayMarkers(base, b.ecNext.body);
    CoveredAppend(base, b.ecNext.body, ECEntries(f.rate, f.items));
    ReplayIsOneReplay(b.ecSealed);
    CoveredAppend(map[], AllRecords(b.ecSealed), s.ec.body);
    assert g.items == [] && g.rate == c.rate && g.credits == f.credits;
    NoEntriesNoEffect(g.rate, g.credits);
    NothingCovered(g.rate, g.credits);
  }

  lemma NothingCovered(rate: u64, credits: map<Digest, int>)
    requires rate > 0
    ensures Covered(credits, ECEntries(rate, []))
  {
  }

  lemma CoveredMarkers(credits: map<Digest, int>, es: seq<ECBlock.ECEntry>)
    requires forall i :: 0 <= i < |es| ==> es[i].ServerIndex? || es[i].Minute?
    ensures Covered(credits, es)
  {
  }

  lemma StepKeepsSolvent(env: Env, loaded: set<Digest>, s: State, step: Step)
    requires Inv(env, loaded, s) && CanStep(env, s, step) && SafeStep(s, step) && NobodyOverdrawn(s)
    ensures NobodyOverdrawn(DoStep(env, s, step))
  {
    hide PendingCovered, Covered, AllRecords, Serve, Tidy, AllListed, ChainsRight, OpensRight, TableRight,
      BlocksCollide, Recorded, BuildBlocks, CanBuild, ProcessFromOrphanPool, SafePurchase, Core, Once;
    var base := ReplayBlocks(s.back.ecSealed);
    match step
    case Message(ev) =>
      FrontInvLimits(env, loaded, base, s.front);
      LimitsMeans(s.front);
      ServeKeepsCovered(env, base, s.front, ev);
    case Close(order, clock, c) =>
      var g := ProcessFromOrphanPool(env, s.front, order, clock);
      DrainKeepsCovered(env, loaded, base, s.front, order, clock);
      MinuteKeepsCovered(base, g, 10);
      CloseKeepsCovered(env, CloseList(env, s.front, order, clock), s.back, c);
  }

  /** Never overdrawn: if every purchase is reasonable, no balance of the server is ever negative, and
      neither is any balance at any prefix of the replay of the entry credit chain. */
  lemma {:induction false} NeverOverdrawn(env: Env, states: seq<State>, steps: seq<Step>, i: nat)
    requires IsRun(env, states, steps) && i < |states| && Boot(env, states[0]) && NobodyOverdrawn(states[0])
    requires forall k :: 0 <= k < |steps| ==> SafeStep(states[k], steps[k])
    ensures NobodyOverdrawn(states[i])
    ensures Solvent(states[i].front.credits)
    ensures forall n :: 0 <= n <= |AllRecords(states[i].back.ecSealed)| ==>
      Solvent(Replay(map[], AllRecords(states[i].back.ecSealed)[..n]))
    decreases i
  {
    hide Boot, DoStep, CanStep, Inv, SafeStep, Covered, AllRecords, Solvent, Replay;
    if i > 0 {
      NeverOverdrawn(env, states, steps, i - 1);
      BootInv(env, states[0]);
      RunKeepsInv(env, states[0].front.chains.Keys, states, steps, i - 1);
      StepKeepsSolvent(env, states[0].front.chains.Keys, states[i - 1], steps[i - 1]);
    }
    PendingSolvent(ReplayBlocks(states[i].back.ecSealed), states[i].front);
    var all := AllRecords(states[i].back.ecSealed);
    EmptySolvent();
    forall n | 0 <= n <= |all|
      ensures Solvent(Replay(map[], all[..n]))
    {
      SolventAtEveryPrefix(map[], all, n);
    }
  }

  lemma EmptySolvent()
    ensures Solvent(map[])
  {
  }

  // ---------------------------------------------------------------- commits and reveals

  /** Over a whole run: no signed commit is charged twice, commits and reveals of each hash alternate,
      and what was published was paid for. */
  lemma CommitsOverRun(env: Env, states: seq<State>, steps: seq<Step>, i: nat)
    requires IsRun(env, states, steps) && i < |states| && Boot(env, states[0])
    ensures Once(env.h, states[i].front.seen, states[i].front.log)
    ensures Matched(env, states[i].front.log)
    ensures states[i].front.commitEntries == PendingEntries(env.h, states[i].front.log)
    ensures states[i].front.commitChains == PendingChains(env.h, states[i].front.log)
    ensures Published(states[i].front.log) + Open(env, states[i].front.log) <= Committed(states[i].front.log)
    ensures Ordered(states[0].front.chains.Keys, states[i].front)
    ensures Limits(states[i].front)
  {
    hide Boot, DoStep, CanStep, ChainsRight, OpensRight, TableRight, BlocksCollide, Recorded, Tidy, AllListed,
      Once, Ordered, Balanced, Matched, Published, Committed, Open, PendingEntries, PendingChains;
    BootInv(env, states[0]);
    RunKeepsInv(env, states[0].front.chains.Keys, states, steps, i);
    PublishedIsPaid(env, states[i].front.log);
  }

  /** No signed commit is on the process list twice: accepted commits never carry the same signed bytes,
      and if two share a signature hash, those bytes are a SHA-256 collision. */
  lemma ChargedOnceOverRun(env: Env, states: seq<State>, steps: seq<Step>, n: nat, i: nat, j: nat)
    requires IsRun(env, states, steps) && n < |states| && Boot(env, states[0]) && i < j < |states[n].front.log|
    requires states[n].front.log[i].CommitEntryItem? || states[n].front.log[i].CommitChainItem?
    requires states[n].front.log[j].CommitEntryItem? || states[n].front.log[j].CommitChainItem?
    ensures var (x, y) := (SignedBytes(states[n].front.log[i]), SignedBytes(states[n].front.log[j]));
      x != y && (env.h.sha256(x) == env.h.sha256(y) ==> Collides(env.h, x, y))
  {
    hide Boot, DoStep, CanStep, Once, Ordered, Matched, Published, Committed, Open, PendingEntries, PendingChains,
      SignedBytes, Collides, Limits;
    CommitsOverRun(env, states, steps, n);
    NeverChargedTwice(env.h, states[n].front.seen, states[n].front.log, i, j);
  }

  /** Each accepted reveal follows a commit of its own, and two commits of one hash have a reveal of it
      between them. */
  lemma AlternationOverRun(env: Env, states: seq<State>, steps: seq<Step>, n: nat, x: Digest, j: nat)
    requires IsRun(env, states, steps) && n < |states| && Boot(env, states[0]) && j < |states[n].front.log|
    ensures var log := states[n].front.log;
      && (RevealsEntry(env.h, log[j], x) ==>
          exists i: nat :: i < j && CommitsEntry(log[i], x) && NoEntryRevealBetween(env.h, log, x, i, j))
      && (CommitsEntry(log[j], x) ==> forall i: nat :: i < j && CommitsEntry(log[i], x) ==>
          !NoEntryRevealBetween(env.h, log, x, i, j))
      && (RevealsChain(env.h, log[j], x) ==>
          exists i: nat :: i < j && CommitsChain(log[i], x) && NoChainRevealBetween(env.h, log, x, i, j))
      && (CommitsChain(log[j], x) ==> forall i: nat :: i < j && CommitsChain(log[i], x) ==>
          !NoChainRevealBetween(env.h, log, x, i, j))
  {
    hide *;
    CommitsOverRun(env, states, steps, n);
    EntriesAlternate(env, states[n].front.log, x, j);
    ChainsAlternate(env, states[n].front.log, x, j);
  }

  /** Each chain is created at most once, never if it was there at start-up, and before any entry of it
      is accepted. */
  lemma CreationOverRun(env: Env, states: seq<State>, steps: seq<Step>, n: nat, j: nat)
    requires IsRun(env, states, steps) && n < |states| && Boot(env, states[0])
    requires j < |states[n].front.log| && states[n].front.log[j].RevealChainItem?
    ensures var (log, cid) := (states[n].front.log, states[n].front.log[j].first.chainID);
      && cid !in states[0].front.chains
      && (forall i :: 0 <= i < |log| && log[i].RevealChainItem? && log[i].first.chainID == cid ==> i == j)
      && (forall i :: 0 <= i < |log| && log[i].RevealEntryItem? && log[i].entry.chainID == cid ==> j < i)
  {
    hide *;
    CommitsOverRun(env, states, steps, n);
    CreationComesFirst(states[0].front.chains.Keys, states[n].front, j);
  }

  /** In every reachable state each message puts its item on the process list exactly if it is due. */
  lemma ListedOverRun(env: Env, states: seq<State>, steps: seq<Step>, n: nat)
    requires IsRun(env, states, steps) && n < |steps| && Boot(env, states[0])
    requires steps[n].Message? && AfterEpoch(steps[n].ev)
    ensures var (f, g, ev) := (states[n].front, states[n + 1].front, steps[n].ev);
      if Due(f, env.h, ev) then g.items == f.items + [ItemFor(f, env.h, ev)] && g.log == f.log + [ItemFor(f, env.h, ev)]
      else g.items == f.items && g.log == f.log
  {
    hide Boot, Due, ItemFor, Serve, AfterEpoch, Inv;
    BootInv(env, states[0]);
    RunKeepsInv(env, states[0].front.chains.Keys, states, steps, n);
    InvFront(env, states[0].front.chains.Keys, states[n]);
    assert CanStep(env, states[n], steps[n]);
    ListedIffDue(env, states[n].front, steps[n].ev);
  }

  lemma MatchedItem(env: Env, log: seq<Item>, j: nat)
    requires Matched(env, log) && j < |log|
    ensures MatchedAt(env, log[..j], log[j])
  {
    hide MatchedAt;
  }

  lemma KnownIsUnreserved(env: Env, loaded: set<Digest>, s: State, j: nat)
    requires Inv(env, loaded, s) && j < |s.front.log| && IsReveal(s.front.log[j])
    ensures Unreserved(Revealed(s.front.log[j]).chainID)
  {
    InvFront(env, loaded, s);
    hide Inv, Limits, Books, Balanced, Suffix, NewChainsWait, Once, Reserved, Unreserved;
    UnreservedMeans(Revealed(s.front.log[j]).chainID);
  }

  lemma FoundsMeans(h: Hashing, c: CommitChain, e: Entry)
    ensures var cid: Bytes, x: Bytes := e.chainID, c.entryHash;
      Founds(h, c, e) <==>
        && 11 <= c.credits && |MarshalEntry(e)| - 35 <= 10240 && |MarshalEntry(e)| - 35 <= 1024 * (c.credits - 10)
        && e.chainID == h.sha256(Joined(h, e.extIDs))
        && c.chainIDHash == h.sha256(h.sha256(cid)) && c.weld == h.sha256(h.sha256(x + cid))
  {
    hide MarshalEntry, Joined;
  }

  /** Every chain on the list was rightly founded: before each accepted first entry there is a chain commit
      for it, not used by another reveal, that pays for the entry and ten credits more, names the chain by
      its double hash, and binds entry and chain by the weld; and the id is the hash of the joined hashes
      of the entry's external ids, and no reserved one. */
  lemma ChainsFoundedOverRun(env: Env, states: seq<State>, steps: seq<Step>, n: nat, j: nat) returns (i: nat)
    requires IsRun(env, states, steps) && n < |states| && Boot(env, states[0])
    requires j < |states[n].front.log| && states[n].front.log[j].RevealChainItem?
    ensures var (log, e) := (states[n].front.log, states[n].front.log[j].first);
      && i < j && log[i].CommitChainItem?
      && var c := log[i].cc; var cid: Bytes, x: Bytes := e.chainID, c.entryHash;
      && c.entryHash == NameOf(env.h, e)
      && (forall k :: i < k < j && log[k].RevealChainItem? ==> NameOf(env.h, log[k].first) != c.entryHash)
      && 11 <= c.credits <= 20 && |MarshalEntry(e)| - 35 <= 1024 * (c.credits - 10)
      && e.chainID == env.h.sha256(Joined(env.h, e.extIDs)) && Unreserved(e.chainID)
      && c.chainIDHash == env.h.sha256(env.h.sha256(cid)) && c.weld == env.h.sha256(env.h.sha256(x + cid))
  {
    hide *;
    CommitsOverRun(env, states, steps, n);
    BootInv(env, states[0]);
    RunKeepsInv(env, states[0].front.chains.Keys, states, steps, n);
    FirstIsReveal(states[n].front.log[j]);
    KnownIsUnreserved(env, states[0].front.chains.Keys, states[n], j);
    i := FounderOf(env, states[n].front.log, j);
  }

  lemma FirstIsReveal(i: Item)
    ensures i.RevealChainItem? ==> IsReveal(i) && Revealed(i) == i.first
    ensures i.RevealEntryItem? ==> IsReveal(i) && Revealed(i) == i.entry
  {
  }

  lemma FounderOf(env: Env, log: seq<Item>, j: nat) returns (i: nat)
    requires Matched(env, log) && j < |log| && log[j].RevealChainItem?
    ensures var e := log[j].first;
      && i < j && log[i].CommitChainItem?
      && var c := log[i].cc; var cid: Bytes, x: Bytes := e.chainID, c.entryHash;
      && c.entryHash == NameOf(env.h, e)
      && (forall k :: i < k < j && log[k].RevealChainItem? ==> NameOf(env.h, log[k].first) != c.entryHash)
      && 11 <= c.credits <= 20 && |MarshalEntry(e)| - 35 <= 1024 * (c.credits - 10)
      && e.chainID == env.h.sha256(Joined(env.h, e.extIDs))
      && c.chainIDHash == env.h.sha256(env.h.sha256(cid)) && c.weld == env.h.sha256(env.h.sha256(x + cid))
  {
    hide MarshalEntry, Joined, Founds, PendingChains, Matched;
    var x := EntryHash(env.h, log[j].first);
    MatchedItem(env, log, j);
    ChainOpenOrigin(env, log[..j], x);
    i :| ChainOpenSince(env, log[..j], x, i);
    assert log[..j][i] == log[i];
    MatchedItem(env, log, i);
    FoundsMeans(env.h, log[i].cc, log[j].first);
    forall k | i < k < j && log[k].RevealChainItem?
      ensures NameOf(env.h, log[k].first) != log[i].cc.entryHash
    {
      assert log[..j][k] == log[k];
    }
  }

  /** And every entry on the list was paid for, by a commit of its own that no other reveal has used. */
  lemma EntriesPaidOverRun(env: Env, states: seq<State>, steps: seq<Step>, n: nat, j: nat) returns (i: nat)
    requires IsRun(env, states, steps) && n < |states| && Boot(env, states[0])
    requires j < |states[n].front.log| && states[n].front.log[j].RevealEntryItem?
    ensures var (log, e) := (states[n].front.log, states[n].front.log[j].entry);
      && i < j && log[i].CommitEntryItem?
      && var c := log[i].ce;
      && c.entryHash == NameOf(env.h, e)
      && (forall k :: i < k < j && log[k].RevealEntryItem? ==> NameOf(env.h, log[k].entry) != c.entryHash)
      && 1 <= c.credits <= 10 && |MarshalEntry(e)| - 35 <= 1024 * c.credits && Unreserved(e.chainID)
  {
    hide *;
    CommitsOverRun(env, states, steps, n);
    BootInv(env, states[0]);
    RunKeepsInv(env, states[0].front.chains.Keys, states, steps, n);
    FirstIsReveal(states[n].front.log[j]);
    KnownIsUnreserved(env, states[0].front.chains.Keys, states[n], j);
    i := PayerOf(env, states[n].front.log, j);
  }

  lemma PayerOf(env: Env, log: seq<Item>, j: nat) returns (i: nat)
    requires Matched(env, log) && j < |log| && log[j].RevealEntryItem?
    ensures var e := log[j].entry;
      && i < j && log[i].CommitEntryItem?
      && var c := log[i].ce;
      && c.entryHash == NameOf(env.h, e)
      && (forall k :: i < k < j && log[k].RevealEntryItem? ==> NameOf(env.h, log[k].entry) != c.entryHash)
      && 1 <= c.credits <= 10 && |MarshalEntry(e)| - 35 <= 1024 * c.credits
  {
    hide MarshalEntry, PendingEntries, Matched;
    var x := EntryHash(env.h, log[j].entry);
    MatchedItem(env, log, j);
    EntryOpenOrigin(env, log[..j], x);
    i :| EntryOpenSince(env, log[..j], x, i);
    assert log[..j][i] == log[i];
    MatchedItem(env, log, i);
    forall k | i < k < j && log[k].RevealEntryItem?
      ensures NameOf(env.h, log[k].entry) != log[i].ce.entryHash
    {
      assert log[..j][k] == log[k];
    }
  }

  // ---------------------------------------------------------------- chains

  /** Some orphan retried in this order registers its chain and then fails. */
  predicate DrainPoisons(env: Env, f: Front, order: seq<Digest>, clock: int) {
    order != [] &&
    var n := |order| - 1;
    var g := ProcessFromOrphanPool(env, f, order[..n], clock);
    || DrainPoisons(env, f, order[..n], clock)
    || (order[n] in g.orphans && g.orphans[order[n]].MsgRevealEntry? && Poisons(env, g, g.orphans[order[n]].entry))
  }

  /** The step handles a reveal that registers its chain and then fails a check. */
  predicate StepPoisons(env: Env, f: Front, step: Step) {
    match step
    case Message(OnRevealEntry(e, valid)) => valid && Poisons(env, f, e)
    case Message(_) => false
    case Close(order, clock, _) => DrainPoisons(env, f, order, clock)
  }

  /** An unpaid chain stays unpaid: its creation can no longer be accepted. */
  lemma UnpaidStays(loaded: set<Digest>, f: Front, g: Front)
    requires Grows(f, g) && Suffix(f) && Suffix(g) && AllCreated(loaded, g)
    ensures AllCreated(loaded, f)
  {
    var off := |f.log| - |f.items|;
    forall k | 0 <= k < |g.log|
      ensures k < |f.log| ==> f.log[k] == g.log[k]
      ensures |f.log| <= k && g.log[k].RevealChainItem? ==> g.log[k].first.chainID !in f.chains
    {
      if |f.log| <= k {
        assert g.items[k - off] == g.log[k];
      } else {
        assert f.log[k] == g.log[..|f.log|][k];
      }
    }
    forall cid | cid in f.chains && cid !in loaded
      ensures CreatedIn(f.log, cid)
    {
      assert CreatedIn(g.log, cid);
    }
  }

  lemma SuffixOf(env: Env, loaded: set<Digest>, base: map<Digest, int>, f: Front)
    requires FrontInv(env, loaded, base, f)
    ensures Suffix(f) && Ordered(loaded, f) && Limits(f) && f.totalItems == 0
  {
  }

  lemma CreatedIgnores(loaded: set<Digest>, f: Front, g: Front)
    requires f.chains.Keys == g.chains.Keys && f.log == g.log
    ensures AllCreated(loaded, f) <==> AllCreated(loaded, g)
  {
  }

  lemma RevealCreates(env: Env, loaded: set<Digest>, base: map<Digest, int>, f: Front, e: Entry)
    requires FrontInv(env, loaded, base, f)
    ensures AllCreated(loaded, ProcessRevealEntry(env, f, e).0) <==> (AllCreated(loaded, f) && !Poisons(env, f, e))
  {
    SuffixOf(env, loaded, base, f);
    RevealKeepsCore(env, loaded, base, f, e);
    hide ProcessRevealEntry, Poisons, AllCreated, Grows, Suffix, Ordered, Limits;
    var g := ProcessRevealEntry(env, f, e).0;
    CoreIsSuffix(env, loaded, base, g);
    GrowsByReveal(env, f, e);
    if AllCreated(loaded, g) {
      UnpaidStays(loaded, f, g);
    }
    if AllCreated(loaded, f) {
      CreatedUnlessPoisoned(env, loaded, f, e);
    }
  }

  lemma CoreIsSuffix(env: Env, loaded: set<Digest>, base: map<Digest, int>, f: Front)
    requires Core(env, loaded, base, f)
    ensures Suffix(f)
  {
  }

  lemma ServeCreates(env: Env, loaded: set<Digest>, base: map<Digest, int>, f: Front, ev: Event)
    requires FrontInv(env, loaded, base, f) && f.rate > 0
    ensures AllCreated(loaded, Serve(env, f, ev).0) <==> (AllCreated(loaded, f) && !StepPoisons(env, f, Message(ev)))
  {
    hide FrontInv, AllCreated, Ordered, Suffix, Limits, Grows, Poisons, ProcessRevealEntry;
    if ev.OnRevealEntry? {
      RevealCreates(env, loaded, base, f, ev.entry);
    } else {
      var g := Serve(env, f, ev).0;
      ServeKeepsFrontInv(env, loaded, base, f, ev);
      SuffixOf(env, loaded, base, f);
      SuffixOf(env, loaded, base, g);
      hide Serve;
      GrowsByServe(env, f, ev);
      var i := OtherItem(env, f, ev);
      if AllCreated(loaded, f) {
        NoRevealKeepsOrdered(loaded, f, g, i);
      } else if AllCreated(loaded, g) {
        UnpaidStays(loaded, f, g);
      }
    }
  }

  lemma RetryCreates(env: Env, loaded: set<Digest>, base: map<Digest, int>, f: Front, k: Digest, clock: int)
    requires FrontInv(env, loaded, base, f) && k in f.orphans
    ensures f.orphans[k].MsgRevealEntry?
    ensures AllCreated(loaded, RetryOrphan(env, f, k, clock))
        <==> (AllCreated(loaded, f) && !Poisons(env, f, f.orphans[k].entry))
  {
    FrontInvLimits(env, loaded, base, f);
    assert f.orphans[k].MsgRevealEntry?;
    hide FrontInv, AllCreated, ProcessRevealEntry, Poisons, Limits;
    var g := ProcessRevealEntry(env, f, f.orphans[k].entry).0;
    RevealCreates(env, loaded, base, f, f.orphans[k].entry);
    CreatedIgnores(loaded, g, g.(orphans := g.orphans - {k}));
  }

  lemma {:induction false} DrainCreates(env: Env, loaded: set<Digest>, base: map<Digest, int>, f: Front,
                                        order: seq<Digest>, clock: int)
    requires FrontInv(env, loaded, base, f)
    ensures AllCreated(loaded, ProcessFromOrphanPool(env, f, order, clock))
       <==> (AllCreated(loaded, f) && !DrainPoisons(env, f, order, clock))
    decreases |order|
  {
    hide FrontInv, AllCreated, RetryOrphan, Poisons;
    if order != [] {
      var n := |order| - 1;
      DrainCreates(env, loaded, base, f, order[..n], clock);
      DrainKeepsFrontInv(env, loaded, base, f, order[..n], clock);
      var g := ProcessFromOrphanPool(env, f, order[..n], clock);
      if order[n] in g.orphans {
        RetryCreates(env, loaded, base, g, order[n], clock);
      }
    }
  }

  lemma CloseCreates(env: Env, loaded: set<Digest>, s: State, order: seq<Digest>, clock: int, c: Closing)
    requires Inv(env, loaded, s) && CanStep(env, s, Close(order, clock, c))
    ensures AllCreated(loaded, DoStep(env, s, Close(order, clock, c)).front)
       <==> (AllCreated(loaded, s.front) && !DrainPoisons(env, s.front, order, clock))
  {
    var g := ProcessFromOrphanPool(env, s.front, order, clock);
    var f := CloseList(env, s.front, order, clock);
    CloseIsReady(env, loaded, s, order, clock, c);
    ReadyChains(env, loaded, f, s.back, c);
    DrainCreates(env, loaded, ReplayBlocks(s.back.ecSealed), s.front, order, clock);
    DrainKeepsFrontInv(env, loaded, ReplayBlocks(s.back.ecSealed), s.front, order, clock);
    MinuteCreates(env, loaded, ReplayBlocks(s.back.ecSealed), g);
    hide Inv, CanBuild, SealAll, Ready, ChainsReady, CloseList, BuildBlocks, AllCreated, DrainPoisons;
    BuildBlocksShape(env, f, s.back, c);
    SealedChains(env, f, s.back, c);
    CreatedIgnores(loaded, f, Reopen(f, SealAll(env, f, s.back, c).seal.chains, c.rate));
  }

  lemma MinuteCreates(env: Env, loaded: set<Digest>, base: map<Digest, int>, g: Front)
    requires FrontInv(env, loaded, base, g)
    ensures AllCreated(loaded, Accept(g, MinuteItem(10))) <==> AllCreated(loaded, g)
  {
    SuffixOf(env, loaded, base, g);
    var k := Accept(g, MinuteItem(10));
    GrowsByOther(g, k, MinuteItem(10));
    SuffixGrows(g, k, [MinuteItem(10)]);
    hide AllCreated, FrontInv, Ordered, Limits, Suffix, Grows;
    NoRevealKeepsOrdered(loaded, g, k, MinuteItem(10));
    if AllCreated(loaded, k) {
      UnpaidStays(loaded, g, k);
    }
  }

  /** Over a whole run: every known chain was loaded or paid for exactly as long as no reveal has
      registered its chain and then failed. */
  lemma {:induction false} ChainsPaidOverRun(env: Env, states: seq<State>, steps: seq<Step>, i: nat)
    requires IsRun(env, states, steps) && i < |states| && Boot(env, states[0])
    ensures AllCreated(states[0].front.chains.Keys, states[i].front)
       <==> forall k :: 0 <= k < i ==> !StepPoisons(env, states[k].front, steps[k])
    decreases i
  {
    hide Boot, DoStep, CanStep, Inv, StepPoisons;
    if i > 0 {
      var loaded := states[0].front.chains.Keys;
      ChainsPaidOverRun(env, states, steps, i - 1);
      BootInv(env, states[0]);
      RunKeepsInv(env, loaded, states, steps, i - 1);
      StepCreates(env, loaded, states[i - 1], steps[i - 1]);
    }
  }

  lemma StepCreates(env: Env, loaded: set<Digest>, s: State, step: Step)
    requires Inv(env, loaded, s) && CanStep(env, s, step)
    ensures AllCreated(loaded, DoStep(env, s, step).front)
        <==> (AllCreated(loaded, s.front) && !StepPoisons(env, s.front, step))
  {
    match step
    case Message(ev) =>
      ServeCreates(env, loaded, ReplayBlocks(s.back.ecSealed), s.front, ev);
    case Close(order, clock, c) =>
      CloseCreates(env, loaded, s, order, clock, c);
  }

  // ---------------------------------------------------------------- minutes

  lemma OneMoreMinute(log: seq<Item>, i: Item)
    requires ValidMinutes(log) && (i.MinuteItem? ==> 1 <= i.minute <= 10)
    ensures ValidMinutes(log + [i])
  {
  }

  lemma ServeKeepsMinutes(env: Env, f: Front, ev: Event)
    requires f.rate > 0 && f.totalItems == 0 && ValidMinutes(f.log)
    ensures ValidMinutes(Serve(env, f, ev).0.log)
  {
    if ev.OnRevealEntry? {
      RevealKeepsMinutes(env, f, ev.entry);
    } else {
      hide Serve;
      var i := OtherItem(env, f, ev);
      if Serve(env, f, ev).0.log != f.log {
        OneMoreMinute(f.log, i);
      }
    }
  }

  lemma RevealKeepsMinutes(env: Env, f: Front, e: Entry)
    requires ValidMinutes(f.log)
    ensures ValidMinutes(ProcessRevealEntry(env, f, e).0.log)
  {
    hide ProcessRevealEntry, EntryHash;
    RevealShape(env, f, e);
    OneMoreMinute(f.log, RevealEntryItem(e));
    OneMoreMinute(f.log, RevealChainItem(e));
  }

  lemma {:induction false} DrainKeepsMinutes(env: Env, loaded: set<Digest>, base: map<Digest, int>, f: Front,
                                             order: seq<Digest>, clock: int)
    requires FrontInv(env, loaded, base, f) && ValidMinutes(f.log)
    ensures ValidMinutes(ProcessFromOrphanPool(env, f, order, clock).log)
    decreases |order|
  {
    hide FrontInv, ProcessRevealEntry, ProcessCommitEntry, ProcessCommitChain, ValidMinutes;
    if order != [] {
      var n := |order| - 1;
      DrainKeepsMinutes(env, loaded, base, f, order[..n], clock);
      DrainKeepsFrontInv(env, loaded, base, f, order[..n], clock);
      var g := ProcessFromOrphanPool(env, f, order[..n], clock);
      if order[n] in g.orphans {
        RetryCreates(env, loaded, base, g, order[n], clock);
        RevealKeepsMinutes(env, g, g.orphans[order[n]].entry);
      }
    }
  }

  lemma StepKeepsMinutes(env: Env, loaded: set<Digest>, s: State, step: Step)
    requires Inv(env, loaded, s) && CanStep(env, s, step) && ValidMinutes(s.front.log)
    ensures ValidMinutes(DoStep(env, s, step).front.log)
  {
    FrontInvLimits(env, loaded, ReplayBlocks(s.back.ecSealed), s.front);
    LimitsMeans(s.front);
    hide Inv, Limits, FrontInv, ValidMinutes, Serve, BuildBlocks, SealAll, ProcessFromOrphanPool, CanBuild;
    match step
    case Message(ev) => ServeKeepsMinutes(env, s.front, ev);
    case Close(order, clock, c) =>
      CloseKeepsMinutes(env, loaded, s, order, clock);
      BuildBlocksShape(env, CloseList(env, s.front, order, clock), s.back, c);
  }

  lemma CloseKeepsMinutes(env: Env, loaded: set<Digest>, s: State, order: seq<Digest>, clock: int)
    requires Inv(env, loaded, s) && ValidMinutes(s.front.log)
    ensures ValidMinutes(CloseList(env, s.front, order, clock).log)
  {
    DrainKeepsMinutes(env, loaded, ReplayBlocks(s.back.ecSealed), s.front, order, clock);
    hide ProcessFromOrphanPool, Inv, ValidMinutes;
    OneMoreMinute(ProcessFromOrphanPool(env, s.front, order, clock).log, MinuteItem(10));
  }

  /** Only the ten minute markers ever reach a process list. */
  lemma {:induction false} MinutesAreValid(env: Env, states: seq<State>, steps: seq<Step>, i: nat)
    requires IsRun(env, states, steps) && i < |states| && Boot(env, states[0])
    ensures ValidMinutes(states[i].front.log)
    decreases i
  {
    hide Boot, DoStep, CanStep, Inv, ValidMinutes;
    BootInv(env, states[0]);
    BootHasNoMinutes(env, states[0]);
    if i > 0 {
      var loaded := states[0].front.chains.Keys;
      MinutesAreValid(env, states, steps, i - 1);
      RunKeepsInv(env, loaded, states, steps, i - 1);
      StepKeepsMinutes(env, loaded, states[i - 1], steps[i - 1]);
    }
  }

  lemma BootHasNoMinutes(env: Env, s: State)
    requires Boot(env, s)
    ensures ValidMinutes(s.front.log)
  {
    hide BackInv, ChainsAsRead, ChainsIdle;
  }

  lemma ListMinutes(f: Front)
    requires Suffix(f) && ValidMinutes(f.log)
    ensures ValidMinutes(f.items)
  {
  }

  lemma {:induction false} BodyNeedsChain(env: Env, loaded: set<Digest>, f: Front, cid: Digest)
    requires Ordered(loaded, f) && Suffix(f) && ChainBody(env.h, f.items, cid) != []
    ensures cid in f.chains
  {
    if cid !in f.chains {
      forall j | 0 <= j < |f.items| && IsReveal(f.items[j])
        ensures Revealed(f.items[j]).chainID != cid
      {
        assert f.items[j] == f.log[|f.log| - |f.items| + j];
      }
      NoRevealNoBody(env.h, f.items, cid);
    }
  }

  /** The id that a block of the chain carries: its own, but the first block of a chain that nobody
      created is filed under no chain. */
  function FiledUnder(loaded: set<Digest>, f: Front, cid: Digest): Digest
    requires cid in f.chains
  {
    if cid in loaded || CreatedIn(f.log, cid) || f.chains[cid].nextBlockHeight > 0 then cid else ZERO_HASH
  }

  /** Block j of `after` is what the process list of one period makes of chain cid: it carries the
      chain's id, is the only new block that does, and is listed by the newest directory block. */
  predicate HoldsPeriod(h: Hashing, loaded: set<Digest>, f: Front, before: Back, after: Back, cid: Digest, j: nat)
    requires cid in f.chains
  {
    && |before.eSealed| <= j < |after.eSealed| && after.dBlocks != []
    && var block := after.eSealed[j];
    && block.header.ebHeight == before.nextDBHeight % TWO_32 && block.body == ChainBody(h, f.items, cid)
    && block.header.chainID == FiledUnder(loaded, f, cid)
    && (block.header.chainID == cid ==>
          forall k :: |before.eSealed| <= k < |after.eSealed| && after.eSealed[k].header.chainID == cid ==> k == j)
    && block.body != []
    && DirectoryBlock.DBEntry(block.header.chainID, EBlock.KeyMR(h, block)) in after.dBlocks[|after.dBlocks| - 1].entries
  }

  lemma FiledAs(env: Env, loaded: set<Digest>, f: Front, b: Back, c: Closing, cid: Digest)
    requires Ready(env, loaded, f, b, c) && cid in f.chains
    ensures ChainAfter(env.h, b.db.eTables, f.chains[cid], f.items, cid).nextBlock.header.chainID
        == FiledUnder(loaded, f, cid)
  {
    hide *;
    ReadyChains(env, loaded, f, b, c);
    SuffixOfReady(env, loaded, f, b, c);
    ReadyBuilds(env, f, b, c);
    CreatedSplits(f, cid);
    OwnedMeans(loaded, f, cid);
    FiledMeans(loaded, f, cid);
    if Owned(loaded, f, cid) || CreatedIn(f.items, cid) {
      OpenAfter(env, loaded, f, b, c, cid);
      OpenHeader(env.h, cid, ChainAfter(env.h, b.db.eTables, f.chains[cid], f.items, cid));
    } else {
      OldOpens(env, loaded, f, b, c, cid);
      IdleHasNoBody(f.chains, cid);
      AfterWithout(env.h, b.db.eTables, f.chains[cid], f.items, cid);
      StrangerHeader(f.chains[cid]);
    }
  }

  lemma OwnedMeans(loaded: set<Digest>, f: Front, cid: Digest)
    requires |f.items| <= |f.log|
    ensures Owned(loaded, f, cid) <==> cid in loaded || CreatedIn(Settled(f), cid)
  {
    hide CreatedIn;
  }

  lemma FiledMeans(loaded: set<Digest>, f: Front, cid: Digest)
    requires cid in f.chains
    ensures FiledUnder(loaded, f, cid)
         == if cid in loaded || CreatedIn(f.log, cid) || f.chains[cid].nextBlockHeight > 0 then cid else ZERO_HASH
  {
  }

  lemma OpenHeader(h: Hashing, cid: Digest, w: EBlock.EChain)
    requires OpenOwned(h, cid, w.(nextBlock := w.nextBlock.(body := [])))
    ensures w.nextBlock.header.chainID == cid
  {
    hide EBlock.MakeEBlock;
  }

  lemma StrangerHeader(chain: EBlock.EChain)
    requires Stranger(chain)
    ensures chain.nextBlock.header.chainID == if chain.nextBlockHeight > 0 then chain.chainID else ZERO_HASH
  {
  }

  lemma {:induction false} TwoOfChain(bs: seq<EBlock.Block>, cid: Digest, x: nat, y: nat)
    requires x < y < |bs| && bs[x].header.chainID == cid && bs[y].header.chainID == cid
    ensures |ChainBlocks(bs, cid)| >= 2
    decreases |bs|
  {
    var n := |bs| - 1;
    if y < n {
      TwoOfChain(bs[..n], cid, x, y);
    } else {
      assert bs[..n][x] == bs[x];
      ChainBlocksMember(bs[..n], cid, x);
    }
  }

  lemma OnlyOneOfChain(bs: seq<EBlock.Block>, cid: Digest, j: nat)
    requires j < |bs| && bs[j].header.chainID == cid && |ChainBlocks(bs, cid)| <= 1
    ensures forall k :: 0 <= k < |bs| && bs[k].header.chainID == cid ==> k == j
  {
    hide ChainBlocks;
    forall k | 0 <= k < |bs| && bs[k].header.chainID == cid
      ensures k == j
    {
      if k < j {
        TwoOfChain(bs, cid, k, j);
      } else if j < k {
        TwoOfChain(bs, cid, j, k);
      }
    }
  }

  /** Each chain with an entry or marker in the list gets one block of this period. */
  lemma ChainGetsBlock(env: Env, loaded: set<Digest>, f: Front, b: Back, c: Closing, cid: Digest) returns (j: nat)
    requires Ready(env, loaded, f, b, c) && cid in f.chains && ChainBody(env.h, f.items, cid) != []
    ensures HoldsPeriod(env.h, loaded, f, b, BuildBlocks(env, f, b, c).1, cid, j)
  {
    hide *;
    ReadyChains(env, loaded, f, b, c);
    ReadyBuilds(env, f, b, c);
    BuildBlocksShape(env, f, b, c);
    var s, h := SealAll(env, f, b, c), env.h;
    var w := ChainAfter(h, b.db.eTables, f.chains[cid], f.items, cid);
    SealedChains(env, f, b, c);
    AfterKeepsNames(h, b.db.eTables, f.chains, f.items, cid);
    FiledAs(env, loaded, f, b, c, cid);
    KeysCover(env, f, b, c, cid);
    var blocks := NewBlocks(h, b.nextDBHeight, s.work.chains, c.keys);
    var k := NewBlockIndex(h, b.nextDBHeight, s.work.chains, c.keys, cid);
    BlockHeader(h, b.nextDBHeight, w);
    var more := AddedToChain(env, f, b, c, cid);
    assert more == s.seal.eSealed[|b.eSealed|..] == blocks;
    if w.nextBlock.header.chainID == cid {
      OnlyOneOfChain(blocks, cid, k);
    }
    DirEntryCount(env, f, b, c);
    DirIsDbEntries(env, f, b, c);
    EntryFor(h, FirstEntries(env, s, c), blocks, k);
    j := |b.eSealed| + k;
    PeriodByParts(h, loaded, f, b, BuildBlocks(env, f, b, c).1, cid, blocks, k);
  }

  lemma EntryFor(h: Hashing, first: seq<DirectoryBlock.DBEntry>, blocks: seq<EBlock.Block>, k: nat)
    requires NonEmptyBodies(blocks) && k < |blocks|
    ensures blocks[k].body != []
    ensures DirectoryBlock.DBEntry(blocks[k].header.chainID, EBlock.KeyMR(h, blocks[k])) in first + EntriesFor(h, blocks)
  {
    hide EBlock.KeyMR;
    assert EntriesFor(h, blocks)[k] == DirectoryBlock.DBEntry(blocks[k].header.chainID, EBlock.KeyMR(h, blocks[k]));
    assert (first + EntriesFor(h, blocks))[|first| + k] == EntriesFor(h, blocks)[k];
  }

  lemma PeriodByParts(h: Hashing, loaded: set<Digest>, f: Front, before: Back, after: Back, cid: Digest,
      blocks: seq<EBlock.Block>, k: nat)
    requires cid in f.chains && after.eSealed == before.eSealed + blocks && k < |blocks| && after.dBlocks != []
    requires blocks[k].header.ebHeight == before.nextDBHeight % TWO_32 && blocks[k].body == ChainBody(h, f.items, cid)
    requires blocks[k].header.chainID == FiledUnder(loaded, f, cid)
    requires blocks[k].header.chainID == cid ==> forall m :: 0 <= m < |blocks| && blocks[m].header.chainID == cid ==>
        m == k
    requires blocks[k].body != []
    requires DirectoryBlock.DBEntry(blocks[k].header.chainID,
        EBlock.KeyMR(h, blocks[k])) in after.dBlocks[|after.dBlocks| - 1].entries
    ensures HoldsPeriod(h, loaded, f, before, after, cid, |before.eSealed| + k)
  {
    hide EBlock.KeyMR, ChainBody, FiledUnder;
    forall m | |before.eSealed| <= m < |after.eSealed|
      ensures after.eSealed[m] == blocks[m - |before.eSealed|]
    {
    }
  }

  lemma MinutesOfClose(env: Env, loaded: set<Digest>, s: State, order: seq<Digest>, clock: int, c: Closing,
                       cid: Digest, base: u32) returns (j: nat)
    requires Inv(env, loaded, s) && CanStep(env, s, Close(order, clock, c))
    requires ValidMinutes(CloseList(env, s.front, order, clock).items)
    requires cid in CloseList(env, s.front, order, clock).chains
    requires ChainBody(env.h, CloseList(env, s.front, order, clock).items, cid) != []
    ensures var f := CloseList(env, s.front, order, clock);
      var s' := DoStep(env, s, Close(order, clock, c));
      && EndsWithMinute(f.items)
      && HoldsPeriod(env.h, loaded, f, s.back, s'.back, cid, j)
      && (Read(base, s'.back.eSealed[j].body).0 == Attribution(env.h, base, f.items, cid)
          <==> NoEntryLooksLikeMarker(env.h, f.items, cid))
  {
    CloseIsReady(env, loaded, s, order, clock, c);
    var f := CloseList(env, s.front, order, clock);
    EndsAtTen(env, s.front, order, clock);
    hide Inv, CanBuild, SealAll, ChainBody, Read, Attribution, NoEntryLooksLikeMarker, ValidMinutes, Ready,
      ChainsReady, CloseList, BuildBlocks, EndsWithMinute, FiledUnder, EBlock.KeyMR;
    j := ChainGetsBlock(env, loaded, f, s.back, c, cid);
    MinuteRoundTrip(env.h, base, f.items, cid);
  }

  /** Minute attribution over a run: in every run from start-up, when a block closes, the process list of
      its period is cut into minutes, each chain with an entry in it gets one block, which the new
      directory block lists, and reading that block back reports each of its entries once, in order, at
      its minute, exactly when none of them looks like a marker. */
  lemma MinutesOverRun(env: Env, states: seq<State>, steps: seq<Step>, i: nat, cid: Digest, base: u32) returns (j: nat)
    requires IsRun(env, states, steps) && i < |steps| && Boot(env, states[0]) && steps[i].Close?
    requires ChainBody(env.h, CloseList(env, states[i].front, steps[i].order, steps[i].clock).items, cid) != []
    ensures var f := CloseList(env, states[i].front, steps[i].order, steps[i].clock);
      && EndsWithMinute(f.items) && cid in f.chains
      && HoldsPeriod(env.h, states[0].front.chains.Keys, f, states[i].back, states[i + 1].back, cid, j)
      && var block := states[i + 1].back.eSealed[j];
      (Read(base, block.body).0 == Attribution(env.h, base, f.items, cid) <==> NoEntryLooksLikeMarker(env.h, f.items, cid))
  {
    hide Boot, DoStep, CanStep, Inv, CloseList, ChainBody, ValidMinutes, EndsWithMinute, Read, FiledUnder, EBlock.KeyMR,
      Attribution, NoEntryLooksLikeMarker;
    BootInv(env, states[0]);
    RunKeepsInv(env, states[0].front.chains.Keys, states, steps, i);
    ListIsRight(env, states, steps, i, cid);
    j := MinutesOfClose(env, states[0].front.chains.Keys, states[i], steps[i].order, steps[i].clock, steps[i].closing,
        cid, base);
  }

  lemma ListIsRight(env: Env, states: seq<State>, steps: seq<Step>, i: nat, cid: Digest)
    requires IsRun(env, states, steps) && i < |steps| && Boot(env, states[0]) && steps[i].Close?
    requires ChainBody(env.h, CloseList(env, states[i].front, steps[i].order, steps[i].clock).items, cid) != []
    ensures var f := CloseList(env, states[i].front, steps[i].order, steps[i].clock);
      ValidMinutes(f.items) && cid in f.chains
  {
    hide Boot, DoStep, CanStep, Inv, CloseList, ChainBody, ValidMinutes;
    BootInv(env, states[0]);
    RunKeepsInv(env, states[0].front.chains.Keys, states, steps, i);
    MinutesAreValid(env, states, steps, i);
    ListOfClose(env, states[0].front.chains.Keys, states[i], steps[i].order, steps[i].clock, cid);
  }

  lemma ListOfClose(env: Env, loaded: set<Digest>, s: State, order: seq<Digest>, clock: int, cid: Digest)
    requires Inv(env, loaded, s) && ValidMinutes(s.front.log)
    requires ChainBody(env.h, CloseList(env, s.front, order, clock).items, cid) != []
    ensures var f := CloseList(env, s.front, order, clock);
      ValidMinutes(f.items) && cid in f.chains
  {
    var f := CloseList(env, s.front, order, clock);
    CloseKeepsMinutes(env, loaded, s, order, clock);
    CloseListKeepsFrontInv(env, loaded, ReplayBlocks(s.back.ecSealed), s.front, order, clock);
    SuffixOf(env, loaded, ReplayBlocks(s.back.ecSealed), f);
    hide *;
    ListMinutes(f);
    BodyNeedsChain(env, loaded, f, cid);
  }

  lemma EndsAtTen(env: Env, f: Front, order: seq<Digest>, clock: int)
    ensures EndsWithMinute(CloseList(env, f, order, clock).items)
  {
    hide ProcessFromOrphanPool;
  }

  /** Where the block of chain cid is among the new ones. */
  lemma {:induction false} NewBlockIndex(h: Hashing, height: nat, chains: map<Digest, EBlock.EChain>,
                                         keys: seq<Digest>, cid: Digest) returns (j: nat)
    requires (forall k :: k in keys ==> k in chains) && cid in keys && chains[cid].nextBlock.body != []
    ensures j < |NewBlocks(h, height, chains, keys)|
    ensures NewBlocks(h, height, chains, keys)[j] == BlockOf(h, height, chains[cid])
    decreases |keys|
  {
    hide BlockOf;
    var n := |keys| - 1;
    if cid == keys[n] {
      j := |NewBlocks(h, height, chains, keys[..n])|;
    } else {
      j := NewBlockIndex(h, height, chains, keys[..n], cid);
    }
  }

  // ---------------------------------------------------------------- recovery

  lemma RecoveryOf(env: Env, loaded: set<Digest>, s: State, cid: Digest)
    requires Inv(env, loaded, s) && |s.front.items| <= |s.front.log| && cid in s.front.chains
    requires Owned(loaded, s.front, cid)
    ensures Storable(env.h, s.back.eSealed) && s.back.db.eTables == StoreAll(env.h, s.back.eSealed)
    ensures cid[31] < 255 ==> RecoversAs(env.h, s.back, cid, s.front.chains[cid]) || BlocksCollide(env.h, s.back.eSealed)
    ensures cid[31] == 255 ==>
        (RecoversAs(env.h, s.back, cid, s.front.chains[cid]) <==> s.front.chains[cid].nextBlockHeight == 0)
  {
    hide FrontInv, AllListed, Recorded, Storable, InitEChainFromDB, CollisionBetween, StoreAll, ChainBlocks,
      Stranger, ZerosOwned, LiveChain, Consecutive, EntriesStored, TableRight, RecoversAs, EBlock.MakeEBlock,
      Owned, StoredInputs;
    if cid[31] == 255 {
      ReadIsFirst(env.h, s.back, cid, s.front.chains[cid]);
    } else if !BlocksCollide(env.h, s.back.eSealed) {
      assert ChainRight(env.h, loaded, s.front, s.back.eSealed, s.back.nextDBHeight, cid);
      LiveIsRead(env.h, s.back, cid, s.front.chains[cid]);
    }
  }

  lemma LiveIsRead(h: Hashing, b: Back, cid: Digest, chain: EBlock.EChain)
    requires Storable(h, b.eSealed) && b.db.eTables == StoreAll(h, b.eSealed) && !BlocksCollide(h, b.eSealed)
    requires cid[31] < 255 && LiveAt(h, b.eSealed, cid, chain)
    ensures RecoversAs(h, b, cid, chain)
  {
    hide StoreAll, Storable, ChainBlocks, Consecutive, EBlock.MakeEBlock, InitEChainFromDB, CollisionBetween,
      StoredInputs;
    RecoveryIsExact(h, b.eSealed, cid);
  }

  lemma SettledNow(loaded: set<Digest>, f: Front, cid: Digest)
    requires f.items == []
    ensures |f.items| <= |f.log| && (Owned(loaded, f, cid) <==> cid in loaded || CreatedIn(f.log, cid))
  {
    assert Settled(f) == f.log;
  }

  /** Entry-chain recovery over a run: right after a block, reading a loaded or created chain back from
      the database gives its live height and open block, unless two stored blocks collide; a chain id
      ending in 255 is read back right exactly when it has no block yet. */
  lemma RecoveryOverRun(env: Env, states: seq<State>, steps: seq<Step>, i: nat, cid: Digest)
    requires IsRun(env, states, steps) && i < |states| && Boot(env, states[0]) && states[i].front.items == []
    requires cid in states[i].front.chains && (cid in states[0].front.chains || CreatedIn(states[i].front.log, cid))
    ensures Storable(env.h, states[i].back.eSealed)
    ensures var (chain, back) := (states[i].front.chains[cid], states[i].back);
      && (cid[31] < 255 ==>
            || RecoversAs(env.h, back, cid, chain)
            || CollisionBetween(env.h, StoredInputs(env.h, back.eSealed), StoredInputs(env.h, back.eSealed)))
      && (cid[31] == 255 ==> (RecoversAs(env.h, back, cid, chain) <==> chain.nextBlockHeight == 0))
  {
    hide Boot, DoStep, CanStep, Inv, RecoversAs, CreatedIn, Storable, CollisionBetween, StoredInputs, Owned;
    BootInv(env, states[0]);
    SettledNow(states[0].front.chains.Keys, states[i].front, cid);
    RunKeepsInv(env, states[0].front.chains.Keys, states, steps, i);
    RecoveryOf(env, states[0].front.chains.Keys, states[i], cid);
  }
}
