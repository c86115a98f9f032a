/** The server as a state machine, and the invariant of its in-memory half over every run. */
module Server {
  import opened Basics
  import opened Entries
  import opened Messages
  import opened Ledger
  import opened ReplayFilter
  import opened ECLedger
  import opened Balances
  import opened Commits
  import opened ChargedOnce
  import opened ChainOrder
  import opened Builder
  import EBlock
  import ECBlock

  datatype State = State(front: Front, back: Back)

  /** A step is a message, or the end of minute 10, which closes the block. */
  datatype Step =
    | Message(ev: Event)
    | Close(order: seq<Digest>, clock: int, closing: Closing)

  ghost predicate CanStep(env: Env, s: State, step: Step) {
    match step
    case Message(_) => s.front.rate > 0
    case Close(order, clock, c) =>
      c.rate > 0 && c.fBlock.chainID == FACTOID_CHAINID && CanBuild(env, CloseList(env, s.front, order, clock), s.back, c)
  }

  ghost function DoStep(env: Env, s: State, step: Step): State
    requires CanStep(env, s, step)
  {
    match step
    case Message(ev) => State(Serve(env, s.front, ev).0, s.back)
    case Close(order, clock, c) =>
      var (f, b) := BuildBlocks(env, CloseList(env, s.front, order, clock), s.back, c);
      State(f, b)
  }

  /** A run: the states before, between and after the steps. */
  ghost predicate IsRun(env: Env, states: seq<State>, steps: seq<Step>) {
    && |states| == |steps| + 1
    && forall i :: 0 <= i < |steps| ==>
        CanStep(env, states[i], steps[i]) && states[i + 1] == DoStep(env, states[i], steps[i])
  }

  // ---------------------------------------------------------------- the in-memory invariant

  /** The process list is the end of the history. */
  predicate Suffix(f: Front) {
    |f.items| <= |f.log| && f.items == f.log[|f.log| - |f.items|..]
  }

  /** Between blocks no chain has an open entry, every chain is stored under its own id, and none of
      them is one of the server's own chains. */
  predicate ChainsIdle(chains: map<Digest, EBlock.EChain>) {
    forall cid :: cid in chains ==>
      && chains[cid].nextBlock.body == [] && chains[cid].chainID == cid && !Reserved(cid)
      && (chains[cid].nextBlock.header.chainID == cid || chains[cid].nextBlock.header.chainID == ZERO_HASH)
  }

  /** A chain whose creation is still on the process list is as its reveal left it. */
  predicate NewChainsWait(f: Front) {
    forall i :: 0 <= i < |f.items| && f.items[i].RevealChainItem? ==>
      f.items[i].first.chainID in f.chains && f.chains[f.items[i].first.chainID] == EBlock.NewChain(f.items[i].first)
  }

  /** Everything about the in-memory state but the replay filter. */
  predicate Core(env: Env, loaded: set<Digest>, base: map<Digest, int>, f: Front) {
    && Limits(f) && Books(env, f) && Balanced(base, f) && Ordered(loaded, f)
    && Suffix(f) && ChainsIdle(f.chains) && NewChainsWait(f)
  }

  predicate FrontInv(env: Env, loaded: set<Digest>, base: map<Digest, int>, f: Front) {
    Core(env, loaded, base, f) && Once(env.h, f.seen, f.log)
  }

  lemma SuffixGrows(f: Front, g: Front, more: seq<Item>)
    requires Suffix(f) && g.items == f.items + more && g.log == f.log + more
    ensures Suffix(g)
  {
  }

  /** Accepting anything but a reveal. */
  lemma OtherKeepsChains(f: Front, g: Front, i: Item)
    requires Suffix(f) && NewChainsWait(f) && !IsReveal(i)
    requires g.chains == f.chains
    requires (g.items == f.items && g.log == f.log) || (g.items == f.items + [i] && g.log == f.log + [i])
    ensures Suffix(g) && NewChainsWait(g)
  {
    hide EBlock.NewChain;
    if g.items == f.items + [i] {
      SuffixGrows(f, g, [i]);
    }
  }

  lemma CommitEntryKeepsCore(env: Env, loaded: set<Digest>, base: map<Digest, int>, f: Front, c: CommitEntry,
                             clock: int)
    requires Core(env, loaded, base, f)
    ensures Core(env, loaded, base, ProcessCommitEntry(env, f, c, clock).0)
  {
    hide Books, Balanced, Ordered, Suffix, NewChainsWait, ChainsIdle, InTime, AddTo;
    var g := ProcessCommitEntry(env, f, c, clock).0;
    CommitEntryKeepsBooks(env, f, c, clock);
    CommitEntryKeepsBalance(env, base, f, c, clock);
    NoRevealKeepsOrdered(loaded, f, g, CommitEntryItem(c));
    OtherKeepsChains(f, g, CommitEntryItem(c));
  }

  lemma CommitChainKeepsCore(env: Env, loaded: set<Digest>, base: map<Digest, int>, f: Front, c: CommitChain,
                             clock: int)
    requires Core(env, loaded, base, f)
    ensures Core(env, loaded, base, ProcessCommitChain(env, f, c, clock).0)
  {
    hide Books, Balanced, Ordered, Suffix, NewChainsWait, ChainsIdle, InTime, AddTo;
    var g := ProcessCommitChain(env, f, c, clock).0;
    CommitChainKeepsBooks(env, f, c, clock);
    CommitChainKeepsBalance(env, base, f, c, clock);
    NoRevealKeepsOrdered(loaded, f, g, CommitChainItem(c));
    OtherKeepsChains(f, g, CommitChainItem(c));
  }

  lemma BuyKeepsCore(env: Env, loaded: set<Digest>, base: map<Digest, int>, f: Front, tx: FctTx)
    requires Core(env, loaded, base, f)
    ensures f.rate > 0 && Core(env, loaded, base, ProcessBuyEntryCredit(env, f, tx).0)
  {
    hide Ordered, Suffix, NewChainsWait, ChainsIdle, AddOutputs, Replay, PendingEntries, PendingChains, Matched;
    var g := ProcessBuyEntryCredit(env, f, tx).0;
    BuyKeepsBalance(env, base, f, tx);
    OtherKeepsBooks(env, f, FactoidItem(tx));
    NoRevealKeepsOrdered(loaded, f, g, FactoidItem(tx));
    OtherKeepsChains(f, g, FactoidItem(tx));
  }

  lemma MinuteKeepsCore(env: Env, loaded: set<Digest>, base: map<Digest, int>, f: Front, m: byte)
    requires Core(env, loaded, base, f)
    ensures Core(env, loaded, base, Accept(f, MinuteItem(m)))
  {
    hide Books, Balanced, Ordered, Suffix, NewChainsWait, ChainsIdle;
    MinuteKeepsBalance(base, f, m);
    OtherKeepsBooks(env, f, MinuteItem(m));
    NoRevealKeepsOrdered(loaded, f, Accept(f, MinuteItem(m)), MinuteItem(m));
    OtherKeepsChains(f, Accept(f, MinuteItem(m)), MinuteItem(m));
  }

  /** The new chain map after a reveal: the old one, or one fresh chain more. */
  predicate ChainsAfterReveal(f: Front, g: Front, e: Entry) {
    || g.chains == f.chains
    || (e.chainID !in f.chains && !Reserved(e.chainID) && g.chains == f.chains[e.chainID := EBlock.NewChain(e)])
  }

  predicate CreatesOnlyNew(f: Front, g: Front, e: Entry) {
    g.items == f.items + [RevealChainItem(e)] ==>
      e.chainID !in f.chains && e.chainID in g.chains && g.chains[e.chainID] == EBlock.NewChain(e)
  }

  lemma RevealEntryChains(env: Env, f: Front, e: Entry, hash: Digest)
    requires hash in f.commitEntries
    ensures var g := RevealCommittedEntry(env, f, e, hash).0; g.chains == f.chains && CreatesOnlyNew(f, g, e)
  {
    hide MarshalEntry, EntryCost, EBlock.NewChain;
    DifferentLast(f.items, RevealEntryItem(e), RevealChainItem(e));
  }

  lemma DifferentLast(s: seq<Item>, a: Item, b: Item)
    requires a != b
    ensures s + [a] != s + [b] && s != s + [b]
  {
    assert (s + [a])[|s|] == a && (s + [b])[|s|] == b;
  }

  lemma RevealChainChains(env: Env, f: Front, e: Entry, hash: Digest)
    requires hash in f.commitChains && !Reserved(e.chainID)
    ensures var g := RevealCommittedChain(env, f, e, hash).0; ChainsAfterReveal(f, g, e) && CreatesOnlyNew(f, g, e)
  {
    hide ChainRevealFault, EBlock.NewChain, Reserved, AddOrphan;
    var g := RevealCommittedChain(env, f, e, hash).0;
    OrphanShape(f, hash, MsgRevealEntry(e));
    OrphanShape(f.(chains := f.chains[e.chainID := EBlock.NewChain(e)]), hash, MsgRevealEntry(e));
    if e.chainID in f.chains {
      assert g.chains == f.chains && g.items == f.items;
    } else {
      assert g.chains == f.chains[e.chainID := EBlock.NewChain(e)];
    }
  }

  lemma RevealChains(env: Env, f: Front, e: Entry)
    ensures var g := ProcessRevealEntry(env, f, e).0; ChainsAfterReveal(f, g, e) && CreatesOnlyNew(f, g, e)
  {
    hide RevealCommittedEntry, RevealCommittedChain, EntryHash, Reserved, EBlock.NewChain;
    var hash := EntryHash(env.h, e);
    if hash in f.commitEntries && !Reserved(e.chainID) {
      RevealEntryChains(env, f, e, hash);
    } else if hash in f.commitChains && !Reserved(e.chainID) {
      RevealChainChains(env, f, e, hash);
    }
  }

  lemma NewChainIdle(chains: map<Digest, EBlock.EChain>, e: Entry)
    requires ChainsIdle(chains) && !Reserved(e.chainID)
    ensures ChainsIdle(chains[e.chainID := EBlock.NewChain(e)])
  {
  }

  /** A chain that is about to be created is not waiting already. */
  lemma WaitersAreKnown(f: Front, g: Front, e: Entry, more: seq<Item>)
    requires NewChainsWait(f) && g.items == f.items + more
    requires ChainsAfterReveal(f, g, e)
    requires more == [] || more == [RevealEntryItem(e)]
      || (more == [RevealChainItem(e)] && e.chainID in g.chains && g.chains[e.chainID] == EBlock.NewChain(e))
    ensures NewChainsWait(g)
  {
    hide EBlock.NewChain, Reserved;
    forall i | 0 <= i < |g.items| && g.items[i].RevealChainItem?
      ensures g.items[i].first.chainID in g.chains
      ensures g.chains[g.items[i].first.chainID] == EBlock.NewChain(g.items[i].first)
    {
      if i < |f.items| {
        assert g.items[i] == f.items[i];
      }
    }
  }

  lemma RevealKeepsCore(env: Env, loaded: set<Digest>, base: map<Digest, int>, f: Front, e: Entry)
    requires Core(env, loaded, base, f)
    ensures Core(env, loaded, base, ProcessRevealEntry(env, f, e).0)
  {
    hide Limits, Books, Balanced, Ordered, Suffix, NewChainsWait, ChainsIdle, ProcessRevealEntry, EBlock.NewChain,
      Reserved;
    var g := ProcessRevealEntry(env, f, e).0;
    assert f.totalItems == 0 by { LimitsMeans(f); }
    RevealKeepsLimits(env, f, e);
    RevealKeepsBooks(env, f, e);
    RevealKeepsBalance(env, base, f, e);
    RevealKeepsOrdered(env, loaded, f, e);
    RevealShape(env, f, e);
    RevealChains(env, f, e);
    var more := g.items[|f.items|..];
    SuffixGrows(f, g, more);
    WaitersAreKnown(f, g, e, more);
    if g.chains != f.chains {
      NewChainIdle(f.chains, e);
    }
  }

  lemma LimitsMeans(f: Front)
    requires Limits(f)
    ensures f.totalItems == 0
  {
  }

  /** The filter's memory is no part of the core. */
  lemma CoreIgnoresFilter(env: Env, loaded: set<Digest>, base: map<Digest, int>, f: Front, seen: Log)
    requires Core(env, loaded, base, f)
    ensures Core(env, loaded, base, f.(seen := seen))
  {
    hide PendingEntries, PendingChains, Matched, Replay, ECEntries;
  }

  /** Neither is the orphan pool, as long as it shrinks. */
  lemma CoreWithoutOrphan(env: Env, loaded: set<Digest>, base: map<Digest, int>, f: Front, k: Digest)
    requires Core(env, loaded, base, f)
    ensures Core(env, loaded, base, f.(orphans := f.orphans - {k}))
  {
    hide PendingEntries, PendingChains, Matched, Replay, ECEntries;
  }

  lemma ServeKeepsCore(env: Env, loaded: set<Digest>, base: map<Digest, int>, f: Front, ev: Event)
    requires f.rate > 0 && Core(env, loaded, base, f)
    ensures Core(env, loaded, base, Serve(env, f, ev).0)
  {
    hide Core, ProcessCommitChain, ProcessCommitEntry, ProcessRevealEntry, ProcessBuyEntryCredit, Fresh, Record,
      GetMilliTime;
    match ev
    case OnCommitChain(c, valid, now, clock) =>
      var g := Pass(f, CommitChainSigHash(env.h, c), GetMilliTime(c.milliTime) / 1000, now).0;
      CoreIgnoresFilter(env, loaded, base, f, g.seen);
      CommitChainKeepsCore(env, loaded, base, g, c, clock);
    case OnCommitEntry(c, valid, now, clock) =>
      var g := Pass(f, CommitEntrySigHash(env.h, c), GetMilliTime(c.milliTime) / 1000, now).0;
      CoreIgnoresFilter(env, loaded, base, f, g.seen);
      CommitEntryKeepsCore(env, loaded, base, g, c, clock);
    case OnRevealEntry(e, valid) =>
      RevealKeepsCore(env, loaded, base, f, e);
    case OnFactoidTX(tx, valid, now, added) =>
      var g := Pass(f, tx.sigHash, tx.milliTimestamp / 1000, now).0;
      CoreIgnoresFilter(env, loaded, base, f, g.seen);
      BuyKeepsCore(env, loaded, base, g, tx);
    case OnMinute(m) =>
      MinuteKeepsCore(env, loaded, base, f, m);
  }

  lemma ServeKeepsFrontInv(env: Env, loaded: set<Digest>, base: map<Digest, int>, f: Front, ev: Event)
    requires f.rate > 0 && FrontInv(env, loaded, base, f)
    ensures FrontInv(env, loaded, base, Serve(env, f, ev).0)
  {
    assert Limits(f);
    hide Limits, Books, Balanced, Ordered, Suffix, NewChainsWait, ChainsIdle, Once, Serve;
    ServeKeepsCore(env, loaded, base, f, ev);
    ServeKeepsOnce(env, f, ev);
  }

  /** Retrying an orphan: only reveals are ever there. */
  lemma RetryKeepsFrontInv(env: Env, loaded: set<Digest>, base: map<Digest, int>, f: Front, k: Digest, clock: int)
    requires FrontInv(env, loaded, base, f) && k in f.orphans
    ensures FrontInv(env, loaded, base, RetryOrphan(env, f, k, clock))
  {
    assert f.orphans[k].MsgRevealEntry?;
    hide Core, Once, ProcessRevealEntry, ProcessCommitEntry, ProcessCommitChain;
    var e := f.orphans[k].entry;
    RevealKeepsCore(env, loaded, base, f, e);
    RevealOnce(env, f, e);
    CoreWithoutOrphan(env, loaded, base, ProcessRevealEntry(env, f, e).0, k);
  }

  lemma {:induction false} DrainKeepsFrontInv(env: Env, loaded: set<Digest>, base: map<Digest, int>, f: Front,
                                              order: seq<Digest>, clock: int)
    requires FrontInv(env, loaded, base, f)
    ensures FrontInv(env, loaded, base, ProcessFromOrphanPool(env, f, order, clock))
    decreases |order|
  {
    hide FrontInv, RetryOrphan;
    if order != [] {
      var n := |order| - 1;
      DrainKeepsFrontInv(env, loaded, base, f, order[..n], clock);
      var g := ProcessFromOrphanPool(env, f, order[..n], clock);
      if order[n] in g.orphans {
        RetryKeepsFrontInv(env, loaded, base, g, order[n], clock);
      }
    }
  }

  lemma CloseListKeepsFrontInv(env: Env, loaded: set<Digest>, base: map<Digest, int>, f: Front, order: seq<Digest>,
                               clock: int)
    requires FrontInv(env, loaded, base, f)
    ensures FrontInv(env, loaded, base, CloseList(env, f, order, clock))
  {
    hide Core, Once, ProcessFromOrphanPool;
    var g := ProcessFromOrphanPool(env, f, order, clock);
    DrainKeepsFrontInv(env, loaded, base, f, order, clock);
    MinuteKeepsCore(env, loaded, base, g, 10);
    UnkeyedKeepsOnce(env.h, g.seen, g.log, MinuteItem(10));
  }
}
