/** When a chain can be read from the database: what a chain that was registered but not created
    (ChainOrder.EntryWithoutChain) leaves behind there. */
module Strangers {
  import opened Basics
  import opened Entries
  import opened Messages
  import opened Ledger
  import opened ECLedger
  import opened ChainOrder
  import opened EntryStore
  import opened ChainNumbers
  import opened Builder
  import opened BuildProofs
  import opened Server
  import opened ServerBlocks
  import opened CloseProofs
  import opened Runs
  import opened Minutes
  import EBlock

  /** No stored block carries the id. */
  predicate NothingUnder(bs: seq<EBlock.Block>, cid: Digest) {
    forall j :: 0 <= j < |bs| ==> bs[j].header.chainID != cid
  }

  lemma ConsecutiveHasNoGap(bs: seq<EBlock.Block>, cid: Digest)
    requires Consecutive(bs, cid)
    ensures NoGap(bs, cid)
  {
    hide ChainBlocks;
    forall j, k | 0 <= j < |bs| && bs[j].header.chainID == cid && 0 <= k < bs[j].header.ebSequence
      ensures HasNumber(bs, cid, k)
    {
      ChainBlocksMember(bs, cid, j);
      var m :| 0 <= m < |ChainBlocks(bs, cid)| && ChainBlocks(bs, cid)[m] == bs[j];
      ChainBlocksStored(bs, cid, k);
      ChainBlocksNamed(bs, cid, k);
      var i :| 0 <= i < |bs| && bs[i] == ChainBlocks(bs, cid)[k];
    }
  }

  lemma NoneStored(bs: seq<EBlock.Block>, cid: Digest)
    requires ChainBlocks(bs, cid) == []
    ensures NothingUnder(bs, cid)
  {
    hide ChainBlocks;
    forall j | 0 <= j < |bs|
      ensures bs[j].header.chainID != cid
    {
      if bs[j].header.chainID == cid {
        ChainBlocksMember(bs, cid, j);
      }
    }
  }

  /** Below the numbers of a chain none is missing exactly if it was created, or nothing of it is stored. */
  lemma NumbersIff(env: Env, loaded: set<Digest>, s: State, cid: Digest)
    requires Inv(env, loaded, s) && cid != ZERO_HASH && cid[31] < 255 && !BlocksCollide(env.h, s.back.eSealed)
    ensures NoGap(s.back.eSealed, cid) <==> cid in s.back.db.chains || NothingUnder(s.back.eSealed, cid)
  {
    var (f, b) := (s.front, s.back);
    InvChainsMean(env, loaded, s, cid);
    hide *;
    if NothingUnder(b.eSealed, cid) {
      NothingNoGap(b.eSealed, cid);
    } else if cid in b.db.chains {
      LiveFacts(env.h, b.eSealed, cid, f.chains[cid]);
      ConsecutiveHasNoGap(b.eSealed, cid);
    } else if NoGap(b.eSealed, cid) {
      NothingStored(loaded, f, b.eSealed, cid);
      NoneStored(b.eSealed, cid);
    }
  }

  lemma NothingNoGap(bs: seq<EBlock.Block>, cid: Digest)
    requires NothingUnder(bs, cid)
    ensures NoGap(bs, cid)
  {
  }

  lemma InvChainsMean(env: Env, loaded: set<Digest>, s: State, cid: Digest)
    requires Inv(env, loaded, s) && !BlocksCollide(env.h, s.back.eSealed)
    ensures |s.front.items| <= |s.front.log| && ZerosOwned(loaded, s.front, s.back.eSealed)
    ensures Owned(loaded, s.front, cid) <==> cid in s.back.db.chains
    ensures cid in s.back.db.chains ==>
        cid in s.front.chains && (cid[31] < 255 ==> LiveAt(env.h, s.back.eSealed, cid, s.front.chains[cid]))
    ensures Storable(env.h, s.back.eSealed) && s.back.db.eTables == StoreAll(env.h, s.back.eSealed)
  {
    assert |s.front.items| <= |s.front.log|;
    OwnedInTable(env, loaded, s, cid);
    hide FrontInv, AllListed, Recorded, Storable, StoreAll, LiveAt, ZerosOwned, Owned, OpensRight, EntriesStored;
    if cid in s.back.db.chains {
      assert cid in s.front.chains;
      assert ChainRight(env.h, loaded, s.front, s.back.eSealed, s.back.nextDBHeight, cid);
    }
  }

  /** In a reachable state a chain id can be read without a panic exactly if it ends in 255, was created,
      or nothing is stored under it. */
  lemma ReadsIn(env: Env, loaded: set<Digest>, s: State, cid: Digest)
    requires Inv(env, loaded, s) && cid != ZERO_HASH && !BlocksCollide(env.h, s.back.eSealed)
    ensures InitEChainFromDB(env.h, s.back.db.eTables, cid).Ok?
       <==> (cid[31] == 255 || cid in s.back.db.chains || NothingUnder(s.back.eSealed, cid))
  {
    hide *;
    InvChainsMean(env, loaded, s, cid);
    ReadsIff(env.h, s.back.eSealed, cid);
    if cid[31] < 255 {
      NumbersIff(env, loaded, s, cid);
    }
  }

  lemma ReadsOverRun(env: Env, states: seq<State>, steps: seq<Step>, i: nat, cid: Digest)
    requires IsRun(env, states, steps) && i < |states| && Boot(env, states[0])
    requires cid != ZERO_HASH && !BlocksCollide(env.h, states[i].back.eSealed)
    ensures InitEChainFromDB(env.h, states[i].back.db.eTables, cid).Ok?
       <==> (cid[31] == 255 || cid in states[i].back.db.chains || NothingUnder(states[i].back.eSealed, cid))
  {
    hide *;
    BootInv(env, states[0]);
    RunKeepsInv(env, states[0].front.chains.Keys, states, steps, i);
    ReadsIn(env, states[0].front.chains.Keys, states[i], cid);
  }

  // ---------------------------------------------------------------- which lists can be built

  /** Every chain to be created is new to the entry blocks, or has an id that the scan cannot find. */
  predicate CreationsNew(bs: seq<EBlock.Block>, items: seq<Item>) {
    forall k :: 0 <= k < |items| && items[k].RevealChainItem? ==>
      items[k].first.chainID[31] == 255 || NothingUnder(bs, items[k].first.chainID)
  }

  lemma CreationNotInTable(env: Env, loaded: set<Digest>, f: Front, b: Back, k: nat)
    requires Inv(env, loaded, State(f, b)) && k < |f.items| && f.items[k].RevealChainItem?
    ensures f.items[k].first.chainID !in b.db.chains && f.items[k].first.chainID != ZERO_HASH
  {
    var cid := f.items[k].first.chainID;
    assert Suffix(f) && Ordered(loaded, f) && cid in f.chains && !Reserved(cid);
    hide *;
    ReservedZero();
    OwnedInTable(env, loaded, State(f, b), cid);
    ListCreates(f.items, k);
    if Owned(loaded, f, cid) {
      SettledNotCreated(loaded, f, cid);
    }
  }

  lemma ListCreates(items: seq<Item>, k: nat)
    requires k < |items| && items[k].RevealChainItem?
    ensures CreatedIn(items, items[k].first.chainID)
  {
  }

  lemma ListReads(env: Env, loaded: set<Digest>, f: Front, b: Back)
    requires Inv(env, loaded, State(f, b)) && !BlocksCollide(env.h, b.eSealed)
    ensures CreationsReadable(env.h, b.db.eTables, f.items) <==> CreationsNew(b.eSealed, f.items)
  {
    hide Inv, BlocksCollide, NothingUnder, InitEChainFromDB;
    forall k | 0 <= k < |f.items| && f.items[k].RevealChainItem?
      ensures InitEChainFromDB(env.h, b.db.eTables, f.items[k].first.chainID).Ok?
         <==> f.items[k].first.chainID[31] == 255 || NothingUnder(b.eSealed, f.items[k].first.chainID)
    {
      CreationNotInTable(env, loaded, f, b, k);
      ReadsIn(env, loaded, State(f, b), f.items[k].first.chainID);
    }
  }

  /** When the misnumbering panic of buildRevealChain strikes: in every run, a period whose counts fit
      can be closed exactly if each chain created in it is new to the stored entry blocks, or has an id
      ending in 255, unless stored blocks collide. */
  lemma ClosableIff(env: Env, states: seq<State>, steps: seq<Step>, i: nat, order: seq<Digest>, clock: int, c: Closing)
    requires IsRun(env, states, steps) && i < |states| && Boot(env, states[0])
    requires Fits(env, CloseList(env, states[i].front, order, clock), states[i].back, c)
    requires !BlocksCollide(env.h, states[i].back.eSealed)
    ensures var f := CloseList(env, states[i].front, order, clock);
      CanBuild(env, f, states[i].back, c) <==> CreationsNew(states[i].back.eSealed, f.items)
  {
    hide Boot, DoStep, CanStep, Inv, CloseList, Fits, CreationsReadable, CreationsNew, BlocksCollide;
    BootInv(env, states[0]);
    RunKeepsInv(env, states[0].front.chains.Keys, states, steps, i);
    ListKeepsInv(env, states[0].front.chains.Keys, states[i], order, clock);
    ListReads(env, states[0].front.chains.Keys, CloseList(env, states[i].front, order, clock), states[i].back);
  }

  // ---------------------------------------------------------------- what an uncreated chain leaves behind

  /** The period of a chain that nobody creates: with new entries it is one block longer. */
  lemma UncreatedClose(env: Env, loaded: set<Digest>, f: Front, b: Back, c: Closing, cid: Digest)
    requires Ready(env, loaded, f, b, c) && cid in f.chains && cid !in loaded && !CreatedIn(f.log, cid)
    ensures var (g, b') := BuildBlocks(env, f, b, c);
      && cid in g.chains && g.log == f.log
      && g.chains[cid].nextBlockHeight
          == f.chains[cid].nextBlockHeight + (if ChainBody(env.h, f.items, cid) != [] then 1 else 0)
      && (f.chains[cid].nextBlockHeight > 0 && ChainBody(env.h, f.items, cid) != [] ==> !NothingUnder(b'.eSealed, cid))
  {
    hide *;
    ReadyChains(env, loaded, f, b, c);
    SuffixOfReady(env, loaded, f, b, c);
    CreatedSplits(f, cid);
    NotOwned(loaded, f, cid);
    BuildBlocksShape(env, f, b, c);
    ReopenedMeans(env, f, b, c);
    var t, was := b.db.eTables, f.chains[cid];
    var w := ChainAfter(env.h, t, was, f.items, cid);
    var more := AddedToChain(env, f, b, c, cid);
    AfterWithout(env.h, t, was, f.items, cid);
    NextHeight(env.h, b.nextDBHeight, w);
    OldOpens(env, loaded, f, b, c, cid);
    ReadyBuilds(env, f, b, c);
    IdleHasNoBody(f.chains, cid);
    if was.nextBlockHeight > 0 && w.nextBlock.body != [] {
      StrangerHeader(was);
      StoredUnder(b.eSealed, more, cid);
    }
  }

  lemma NotOwned(loaded: set<Digest>, f: Front, cid: Digest)
    requires |f.items| <= |f.log| && cid !in loaded && !CreatedIn(Settled(f), cid)
    ensures !Owned(loaded, f, cid)
  {
    hide CreatedIn;
  }

  lemma NextHeight(h: Hashing, height: nat, w: EBlock.EChain)
    ensures NextOf(h, height, w).nextBlockHeight == w.nextBlockHeight + (if w.nextBlock.body != [] then 1 else 0)
  {
    hide EBlock.MakeEBlock, BlockOf;
  }

  lemma StoredUnder(bs: seq<EBlock.Block>, more: seq<EBlock.Block>, cid: Digest)
    requires ChainBlocks(more, cid) != []
    ensures !NothingUnder(bs + more, cid)
  {
    hide ChainBlocks;
    var j := FirstStored(more, cid);
    assert (bs + more)[|bs| + j] == more[j];
  }

  lemma CreatedEarlier(f: Front, g: Front, cid: Digest)
    requires |f.log| <= |g.log| && g.log[..|f.log|] == f.log && CreatedIn(f.log, cid)
    ensures CreatedIn(g.log, cid)
  {
    var k :| 0 <= k < |f.log| && f.log[k].RevealChainItem? && f.log[k].first.chainID == cid;
    assert g.log[k] == g.log[..|f.log|][k];
  }

  lemma GrowsMeans(f: Front, g: Front, cid: Digest)
    requires Grows(f, g) && !CreatedIn(g.log, cid)
    ensures !CreatedIn(f.log, cid) && (cid in f.chains ==> cid in g.chains && g.chains[cid] == f.chains[cid])
  {
    hide CreatedIn;
    if CreatedIn(f.log, cid) {
      CreatedEarlier(f, g, cid);
    }
  }

  /** An uncreated chain never gets shorter. */
  lemma StepKeepsHeight(env: Env, loaded: set<Digest>, s: State, step: Step, cid: Digest)
    requires Inv(env, loaded, s) && CanStep(env, s, step)
    requires cid in s.front.chains && cid !in loaded && !CreatedIn(DoStep(env, s, step).front.log, cid)
    ensures var g := DoStep(env, s, step).front;
      !CreatedIn(s.front.log, cid) && cid in g.chains
          && s.front.chains[cid].nextBlockHeight <= g.chains[cid].nextBlockHeight
  {
    hide Inv, CanBuild, Serve, CloseList, BuildBlocks, Grows, CreatedIn, FrontInv, Ready;
    InvFront(env, loaded, s);
    match step
    case Message(ev) =>
      GrowsByServe(env, s.front, ev);
      GrowsMeans(s.front, Serve(env, s.front, ev).0, cid);
    case Close(order, clock, c) =>
      var f := CloseList(env, s.front, order, clock);
      CloseIsReady(env, loaded, s, order, clock, c);
      LogOfBuild(env, f, s.back, c);
      GrowsByCloseList(env, loaded, ReplayBlocks(s.back.ecSealed), s.front, order, clock);
      GrowsMeans(s.front, f, cid);
      UncreatedClose(env, loaded, f, s.back, c, cid);
  }

  lemma LogOfBuild(env: Env, f: Front, b: Back, c: Closing)
    requires CanBuild(env, f, b, c)
    ensures BuildBlocks(env, f, b, c).0.log == f.log
  {
    BuildBlocksShape(env, f, b, c);
    hide CanBuild, BuildBlocks, SealAll;
  }

  lemma {:induction false} HeightStays(env: Env, states: seq<State>, steps: seq<Step>, i: nat, k: nat, cid: Digest)
    requires IsRun(env, states, steps) && i <= k < |states| && Boot(env, states[0])
    requires cid in states[i].front.chains && cid !in states[0].front.chains && !CreatedIn(states[k].front.log, cid)
    ensures cid in states[k].front.chains
    ensures states[i].front.chains[cid].nextBlockHeight <= states[k].front.chains[cid].nextBlockHeight
    decreases k
  {
    hide Boot, DoStep, CanStep, Inv, CreatedIn;
    if i < k {
      var loaded := states[0].front.chains.Keys;
      BootInv(env, states[0]);
      RunKeepsInv(env, loaded, states, steps, k - 1);
      UncreatedBefore(env, loaded, states[k - 1], steps[k - 1], cid);
      HeightStays(env, states, steps, i, k - 1, cid);
      StepKeepsHeight(env, loaded, states[k - 1], steps[k - 1], cid);
    }
  }

  lemma UncreatedBefore(env: Env, loaded: set<Digest>, s: State, step: Step, cid: Digest)
    requires Inv(env, loaded, s) && CanStep(env, s, step) && !CreatedIn(DoStep(env, s, step).front.log, cid)
    ensures !CreatedIn(s.front.log, cid)
    ensures step.Close? ==> !CreatedIn(CloseList(env, s.front, step.order, step.clock).log, cid)
  {
    hide Inv, CanBuild, Serve, CloseList, BuildBlocks, Grows, CreatedIn, FrontInv, Ready;
    InvFront(env, loaded, s);
    match step
    case Message(ev) =>
      GrowsByServe(env, s.front, ev);
      GrowsMeans(s.front, Serve(env, s.front, ev).0, cid);
    case Close(order, clock, c) =>
      var f := CloseList(env, s.front, order, clock);
      LogOfBuild(env, f, s.back, c);
      GrowsByCloseList(env, loaded, ReplayBlocks(s.back.ecSealed), s.front, order, clock);
      GrowsMeans(s.front, f, cid);
  }

  /** A period in which an uncreated chain gets something to seal. */
  ghost predicate SealsUncreated(env: Env, states: seq<State>, steps: seq<Step>, i: nat, cid: Digest)
    requires |states| == |steps| + 1 && i < |steps|
  {
    steps[i].Close? && ChainBody(env.h, CloseList(env, states[i].front, steps[i].order, steps[i].clock).items, cid) != []
  }

  lemma ListKnowsChain(env: Env, loaded: set<Digest>, s: State, order: seq<Digest>, clock: int, cid: Digest)
    requires Inv(env, loaded, s) && ChainBody(env.h, CloseList(env, s.front, order, clock).items, cid) != []
    ensures cid in CloseList(env, s.front, order, clock).chains
  {
    hide *;
    var f := CloseList(env, s.front, order, clock);
    InvFront(env, loaded, s);
    CloseListKeepsFrontInv(env, loaded, ReplayBlocks(s.back.ecSealed), s.front, order, clock);
    SuffixOf(env, loaded, ReplayBlocks(s.back.ecSealed), f);
    BodyNeedsChain(env, loaded, f, cid);
  }

  /** What one period does to an uncreated chain. */
  lemma UncreatedPeriod(env: Env, loaded: set<Digest>, s: State, order: seq<Digest>, clock: int, c: Closing, cid: Digest)
    requires Inv(env, loaded, s) && CanStep(env, s, Close(order, clock, c)) && cid !in loaded
    requires !CreatedIn(DoStep(env, s, Close(order, clock, c)).front.log, cid)
    requires ChainBody(env.h, CloseList(env, s.front, order, clock).items, cid) != []
    ensures var s' := DoStep(env, s, Close(order, clock, c));
      && cid in s'.front.chains && s'.front.chains[cid].nextBlockHeight > 0
      && (cid in s.front.chains && s.front.chains[cid].nextBlockHeight > 0 ==> !NothingUnder(s'.back.eSealed, cid))
  {
    hide Inv, CanBuild, CloseList, BuildBlocks, Grows, CreatedIn, FrontInv, Ready, NothingUnder, ChainBody;
    var f := CloseList(env, s.front, order, clock);
    InvFront(env, loaded, s);
    UncreatedBefore(env, loaded, s, Close(order, clock, c), cid);
    CloseIsReady(env, loaded, s, order, clock, c);
    ListKnowsChain(env, loaded, s, order, clock, cid);
    UncreatedClose(env, loaded, f, s.back, c, cid);
    GrowsByCloseList(env, loaded, ReplayBlocks(s.back.ecSealed), s.front, order, clock);
    GrowsMeans(s.front, f, cid);
  }

  /** The failing runs: a chain that nobody created gets entries in two periods. Its second block is
      stored as number 1 with no number 0 below it, and from then on the chain cannot be read; a reveal
      that creates it makes the block unclosable (ClosableIff). */
  lemma TwoPeriodsLeaveGap(env: Env, states: seq<State>, steps: seq<Step>, i: nat, k: nat, cid: Digest)
    requires IsRun(env, states, steps) && i < k < |steps| && Boot(env, states[0])
    requires SealsUncreated(env, states, steps, i, cid) && SealsUncreated(env, states, steps, k, cid)
    requires cid !in states[0].front.chains && !CreatedIn(states[k + 1].front.log, cid)
    requires cid[31] < 255 && !BlocksCollide(env.h, states[k + 1].back.eSealed)
    ensures !NothingUnder(states[k + 1].back.eSealed, cid)
    ensures InitEChainFromDB(env.h, states[k + 1].back.db.eTables, cid) == Err(Panic)
  {
    assert |states| == |steps| + 1;
    hide *;
    TwoPeriodsStore(env, states, steps, i, k, cid);
    var loaded := states[0].front.chains.Keys;
    BootInv(env, states[0]);
    RunKeepsInv(env, loaded, states, steps, k + 1);
    UncreatedNotInTable(env, loaded, states[k + 1], cid);
    ReadsIn(env, loaded, states[k + 1], cid);
    OnlyPanics(env.h, states[k + 1].back.db.eTables, cid);
  }

  lemma OnlyPanics(h: Hashing, t: Tables, cid: Digest)
    ensures InitEChainFromDB(h, t, cid).Ok? || InitEChainFromDB(h, t, cid) == Err(Panic)
  {
    hide FetchAllEBlocksByChain, SortBySequence, EBlock.MakeEBlock;
  }

  lemma UncreatedNotInTable(env: Env, loaded: set<Digest>, s: State, cid: Digest)
    requires Inv(env, loaded, s) && cid in s.front.chains && cid !in loaded && !CreatedIn(s.front.log, cid)
    ensures cid !in s.back.db.chains && cid != ZERO_HASH
  {
    assert Suffix(s.front) && !Reserved(cid);
    hide *;
    ReservedZero();
    CreatedSplits(s.front, cid);
    SuffixCounts(s.front);
    NotOwned(loaded, s.front, cid);
    OwnedInTable(env, loaded, s, cid);
  }

  lemma SuffixCounts(f: Front)
    requires Suffix(f)
    ensures |f.items| <= |f.log|
  {
  }

  lemma TwoPeriodsStore(env: Env, states: seq<State>, steps: seq<Step>, i: nat, k: nat, cid: Digest)
    requires IsRun(env, states, steps) && i < k < |steps| && Boot(env, states[0])
    requires SealsUncreated(env, states, steps, i, cid) && SealsUncreated(env, states, steps, k, cid)
    requires cid !in states[0].front.chains && !CreatedIn(states[k + 1].front.log, cid)
    ensures cid in states[k + 1].front.chains && !NothingUnder(states[k + 1].back.eSealed, cid)
  {
    hide Boot, DoStep, CanStep, Inv, CreatedIn, NothingUnder, CloseList, ChainBody;
    var loaded := states[0].front.chains.Keys;
    BootInv(env, states[0]);
    RunKeepsInv(env, loaded, states, steps, i);
    RunKeepsInv(env, loaded, states, steps, k);
    UncreatedBefore(env, loaded, states[k], steps[k], cid);
    UncreatedThroughout(env, states, steps, i + 1, k, cid);
    UncreatedPeriod(env, loaded, states[i], steps[i].order, steps[i].clock, steps[i].closing, cid);
    HeightStays(env, states, steps, i + 1, k, cid);
    UncreatedPeriod(env, loaded, states[k], steps[k].order, steps[k].clock, steps[k].closing, cid);
  }

  lemma {:induction false} UncreatedThroughout(env: Env, states: seq<State>, steps: seq<Step>, i: nat, k: nat,
      cid: Digest)
    requires IsRun(env, states, steps) && i <= k < |states| && Boot(env, states[0])
    requires !CreatedIn(states[k].front.log, cid)
    ensures !CreatedIn(states[i].front.log, cid)
    decreases k
  {
    hide Boot, DoStep, CanStep, Inv, CreatedIn;
    if i < k {
      BootInv(env, states[0]);
      RunKeepsInv(env, states[0].front.chains.Keys, states, steps, k - 1);
      UncreatedBefore(env, states[0].front.chains.Keys, states[k - 1], steps[k - 1], cid);
      UncreatedThroughout(env, states, steps, i, k - 1, cid);
    }
  }
}
