/** In which order chains and their entries are accepted, and how a chain can be registered without
    ever being paid for. */
module ChainOrder {
  import opened Basics
  import opened Entries
  import opened Messages
  import opened Ledger
  import opened Acceptance
  import EBlock

  /** `loaded` are the chains that were in the database at start-up. */
  predicate Ordered(loaded: set<Digest>, f: Front) {
    && loaded <= f.chains.Keys
    && (forall i :: 0 <= i < |f.log| && IsReveal(f.log[i]) ==> Revealed(f.log[i]).chainID in f.chains)
    && (forall i :: 0 <= i < |f.log| && f.log[i].RevealChainItem? ==> f.log[i].first.chainID !in loaded)
    && (forall i, j :: 0 <= i < j < |f.log| && IsReveal(f.log[i]) && f.log[j].RevealChainItem? ==>
          Revealed(f.log[i]).chainID != f.log[j].first.chainID)
  }

  /** Every known chain was loaded or paid for. */
  predicate AllCreated(loaded: set<Digest>, f: Front) {
    forall cid :: cid in f.chains ==> cid in loaded || CreatedIn(f.log, cid)
  }

  /** The reveal registers its chain and then fails a check: the chain is left registered, unpaid. */
  predicate Poisons(env: Env, f: Front, e: Entry) {
    var x := NameOf(env.h, e);
    Registers(f, e, x) && !Founds(env.h, f.commitChains[x], e)
  }

  lemma PoisonMeans(env: Env, f: Front, e: Entry)
    ensures var hash := EntryHash(env.h, e);
      Poisons(env, f, e) <==>
        && !Reserved(e.chainID) && hash !in f.commitEntries && hash in f.commitChains && e.chainID !in f.chains
        && ChainRevealFault(env, f.commitChains[hash], e) != None
  {
    hide NameOf, EntryHash, Reserved, Unreserved, ChainRevealFault, Founds;
    NameIsHash(env.h, e);
    UnreservedMeans(e.chainID);
    if EntryHash(env.h, e) in f.commitChains {
      FaultMeans(env, f.commitChains[EntryHash(env.h, e)], e);
    }
  }

  lemma NoRevealKeepsOrdered(loaded: set<Digest>, f: Front, g: Front, i: Item)
    requires Ordered(loaded, f) && g.chains == f.chains && !IsReveal(i)
    requires g.log == f.log || g.log == f.log + [i]
    ensures Ordered(loaded, g)
    ensures AllCreated(loaded, f) ==> AllCreated(loaded, g)
  {
    if AllCreated(loaded, f) {
      forall cid | cid in g.chains && cid !in loaded
        ensures CreatedIn(g.log, cid)
      {
        assert CreatedIn(f.log, cid);
        var k :| 0 <= k < |f.log| && f.log[k].RevealChainItem? && f.log[k].first.chainID == cid;
        assert g.log[k] == f.log[k];
      }
    }
  }

  /** Accepting a reveal keeps the order if its chain is new exactly when it is a chain reveal. */
  lemma AcceptKeepsOrdered(loaded: set<Digest>, f: Front, g: Front, i: Item)
    requires Ordered(loaded, f) && IsReveal(i) && g.log == f.log + [i]
    requires f.chains.Keys <= g.chains.Keys && Revealed(i).chainID in g.chains
    requires i.RevealChainItem? ==> Revealed(i).chainID !in f.chains
    ensures Ordered(loaded, g)
  {
    forall k | 0 <= k < |g.log|
      ensures k < |f.log| ==> g.log[k] == f.log[k]
      ensures k == |f.log| ==> g.log[k] == i
    {
    }
  }

  lemma MoreChainsKeepOrdered(loaded: set<Digest>, f: Front, g: Front)
    requires Ordered(loaded, f) && g.log == f.log && f.chains.Keys <= g.chains.Keys
    ensures Ordered(loaded, g)
  {
  }

  lemma RevealEntryKeepsOrdered(env: Env, loaded: set<Digest>, f: Front, e: Entry, hash: Digest)
    requires Ordered(loaded, f) && hash in f.commitEntries
    ensures Ordered(loaded, RevealCommittedEntry(env, f, e, hash).0)
  {
    hide MarshalEntry, EntryCost, Ordered;
    var g := RevealCommittedEntry(env, f, e, hash).0;
    if g.log == f.log {
      MoreChainsKeepOrdered(loaded, f, g);
    } else {
      AcceptKeepsOrdered(loaded, f, g, RevealEntryItem(e));
    }
  }

  lemma RevealChainKeepsOrdered(env: Env, loaded: set<Digest>, f: Front, e: Entry, hash: Digest)
    requires Ordered(loaded, f) && hash in f.commitChains
    ensures Ordered(loaded, RevealCommittedChain(env, f, e, hash).0)
  {
    hide ChainRevealFault, EBlock.NewChain, Ordered;
    var g := RevealCommittedChain(env, f, e, hash).0;
    if g.log == f.log {
      MoreChainsKeepOrdered(loaded, f, g);
    } else {
      AcceptKeepsOrdered(loaded, f, g, RevealChainItem(e));
    }
  }

  lemma RevealKeepsOrdered(env: Env, loaded: set<Digest>, f: Front, e: Entry)
    requires Ordered(loaded, f)
    ensures Ordered(loaded, ProcessRevealEntry(env, f, e).0)
  {
    hide RevealCommittedEntry, RevealCommittedChain, EntryHash, Ordered, Reserved;
    var hash := EntryHash(env.h, e);
    if hash in f.commitEntries {
      RevealEntryKeepsOrdered(env, loaded, f, e, hash);
    } else if hash in f.commitChains {
      RevealChainKeepsOrdered(env, loaded, f, e, hash);
    }
  }

  lemma CreatedGrows(log: seq<Item>, more: seq<Item>, cid: Digest)
    requires CreatedIn(log, cid)
    ensures CreatedIn(log + more, cid)
  {
    var k :| 0 <= k < |log| && log[k].RevealChainItem? && log[k].first.chainID == cid;
    assert (log + more)[k] == log[k];
  }

  lemma UnknownIsNotCreated(loaded: set<Digest>, f: Front, cid: Digest)
    requires Ordered(loaded, f) && cid !in f.chains
    ensures cid !in loaded && !CreatedIn(f.log, cid)
  {
    assert forall i :: 0 <= i < |f.log| && f.log[i].RevealChainItem? ==> IsReveal(f.log[i]);
  }

  lemma PoisonLeavesUnpaid(env: Env, loaded: set<Digest>, f: Front, e: Entry)
    requires Ordered(loaded, f) && Poisons(env, f, e)
    ensures !AllCreated(loaded, ProcessRevealEntry(env, f, e).0)
  {
    hide ChainRevealFault, Poisons, EBlock.NewChain, EntryHash, Reserved, CreatedIn, Ordered;
    var g := ProcessRevealEntry(env, f, e).0;
    PoisonMeans(env, f, e);
    assert e.chainID in g.chains && g.log == f.log;
    UnknownIsNotCreated(loaded, f, e.chainID);
  }

  lemma RevealEntryKeepsCreated(env: Env, loaded: set<Digest>, f: Front, e: Entry, hash: Digest)
    requires AllCreated(loaded, f) && hash in f.commitEntries
    ensures AllCreated(loaded, RevealCommittedEntry(env, f, e, hash).0)
  {
    hide MarshalEntry, EntryCost, CreatedIn;
    var g := RevealCommittedEntry(env, f, e, hash).0;
    assert g.chains == f.chains && (g.log == f.log || g.log == f.log + [RevealEntryItem(e)]);
    forall cid | cid in g.chains && cid !in loaded
      ensures CreatedIn(g.log, cid)
    {
      CreatedGrows(f.log, [RevealEntryItem(e)], cid);
    }
  }

  lemma RevealChainKeepsCreated(env: Env, loaded: set<Digest>, f: Front, e: Entry, hash: Digest)
    requires AllCreated(loaded, f) && hash in f.commitChains && f.totalItems == 0
    requires e.chainID in f.chains || ChainRevealFault(env, f.commitChains[hash], e) == None
    ensures AllCreated(loaded, RevealCommittedChain(env, f, e, hash).0)
  {
    hide ChainRevealFault, EBlock.NewChain, CreatedIn;
    var g := RevealCommittedChain(env, f, e, hash).0;
    if e.chainID in f.chains {
      assert g.chains == f.chains && g.log == f.log;
    } else {
      var log := f.log + [RevealChainItem(e)];
      assert g.log == log && g.chains.Keys == f.chains.Keys + {e.chainID};
      assert CreatedIn(log, e.chainID) by {
        LastCreates(f.log, e);
      }
      forall cid | cid in g.chains && cid !in loaded
        ensures CreatedIn(g.log, cid)
      {
        if cid != e.chainID {
          CreatedGrows(f.log, [RevealChainItem(e)], cid);
        }
      }
    }
  }

  lemma LastCreates(log: seq<Item>, e: Entry)
    ensures CreatedIn(log + [RevealChainItem(e)], e.chainID)
  {
    assert (log + [RevealChainItem(e)])[|log|] == RevealChainItem(e);
  }

  /** Exactly when a reveal keeps the promise that every known chain was paid for: when it is not one
      of those that register their chain and then fail. */
  lemma CreatedUnlessPoisoned(env: Env, loaded: set<Digest>, f: Front, e: Entry)
    requires Ordered(loaded, f) && AllCreated(loaded, f) && f.totalItems == 0
    ensures AllCreated(loaded, ProcessRevealEntry(env, f, e).0) <==> !Poisons(env, f, e)
  {
    hide RevealCommittedEntry, RevealCommittedChain, EntryHash, Ordered, AllCreated, Reserved, ChainRevealFault, Poisons;
    var hash := EntryHash(env.h, e);
    PoisonMeans(env, f, e);
    if Poisons(env, f, e) {
      PoisonLeavesUnpaid(env, loaded, f, e);
    } else if hash in f.commitEntries {
      RevealEntryKeepsCreated(env, loaded, f, e, hash);
    } else if hash in f.commitChains && !Reserved(e.chainID) {
      RevealChainKeepsCreated(env, loaded, f, e, hash);
    }
  }

  /** Each chain is created at most once, and no entry of it is accepted before that. */
  lemma CreationComesFirst(loaded: set<Digest>, f: Front, j: nat)
    requires Ordered(loaded, f) && j < |f.log| && f.log[j].RevealChainItem?
    ensures f.log[j].first.chainID !in loaded
    ensures forall i :: 0 <= i < |f.log| && f.log[i].RevealChainItem? && f.log[i].first.chainID == f.log[j].first.chainID ==> i == j
    ensures forall i :: 0 <= i < |f.log| && f.log[i].RevealEntryItem? && f.log[i].entry.chainID == f.log[j].first.chainID ==> j < i
  {
    assert IsReveal(f.log[j]);
    assert forall i :: 0 <= i < |f.log| && (f.log[i].RevealChainItem? || f.log[i].RevealEntryItem?) ==>
        IsReveal(f.log[i]);
  }

  /** With one credit committed for the chain, revealing its first entry registers the chain and is refused. */
  lemma RegisteredUnpaid(env: Env, f: Front, e: Entry, cc: CommitChain, clock: int)
    requires Unreserved(e.chainID) && e.chainID !in f.chains && |MarshalEntry(e)| <= 35 + 1024 && f.totalItems == 0
    requires cc.entryHash == NameOf(env.h, e) && cc.credits == 1 && Near(BEValue(cc.milliTime) / 1000, clock)
    requires 1 <= Balance(f.credits, cc.ecPubKey) < TWO_31
    requires cc.entryHash !in f.commitChains && cc.entryHash !in f.commitEntries
    ensures var f1 := ProcessCommitChain(env, f, cc, clock).0;
      var f2 := ProcessRevealEntry(env, f1, e).0;
      && Poisons(env, f1, e)
      && f2.log == f.log + [CommitChainItem(cc)] && f2.commitEntries == f.commitEntries && f2.totalItems == 0
      && e.chainID in f2.chains && Balance(f2.credits, cc.ecPubKey) == Balance(f.credits, cc.ecPubKey) - 1
  {
    hide ProcessCommitChain, ProcessRevealEntry, EntryHash, NameOf, MarshalEntry, Near, BEValue, Joined, Reserved,
      Unreserved, Charged, Fledgling;
    NameIsHash(env.h, e);
    UnreservedMeans(e.chainID);
    ChainCommitAccepted(env, f, cc, clock);
    ChargeIsExact(f.credits, cc.ecPubKey, 1);
    RevealAccepted(env, ProcessCommitChain(env, f, cc, clock).0, e);
  }

  /** Committing the entry and revealing it puts it on the list, if its chain is known. */
  lemma ThenListed(env: Env, f: Front, e: Entry, ce: CommitEntry, clock: int)
    requires Unreserved(e.chainID) && e.chainID in f.chains && |MarshalEntry(e)| <= 35 + 1024 && f.totalItems == 0
    requires ce.entryHash == NameOf(env.h, e) && ce.credits == 1 && Near(BEValue(ce.milliTime) / 1000, clock)
    requires 1 <= Balance(f.credits, ce.ecPubKey) && ce.entryHash !in f.commitEntries
    ensures ProcessRevealEntry(env, ProcessCommitEntry(env, f, ce, clock).0, e).0.log
         == f.log + [CommitEntryItem(ce)] + [RevealEntryItem(e)]
  {
    hide ProcessCommitEntry, ProcessRevealEntry, EntryHash, NameOf, MarshalEntry, Near, BEValue, Unreserved, Charged;
    EntryCommitAccepted(env, f, ce, clock);
    RevealAccepted(env, ProcessCommitEntry(env, f, ce, clock).0, e);
  }

  /** How the promise fails: any chain id that a chain reveal has poisoned accepts entries. With one
      credit committed for the chain, revealing its first entry registers the chain and is refused;
      committing the same hash as an entry and revealing again puts the entry on the process list of a
      chain that nobody created. */
  lemma EntryWithoutChain(env: Env, f: Front, e: Entry, cc: CommitChain, ce: CommitEntry, clock: int)
    requires Unreserved(e.chainID) && e.chainID !in f.chains && |MarshalEntry(e)| <= 35 + 1024 && f.totalItems == 0
    requires cc.entryHash == NameOf(env.h, e) && cc.credits == 1 && Near(BEValue(cc.milliTime) / 1000, clock)
    requires ce.entryHash == NameOf(env.h, e) && ce.credits == 1 && Near(BEValue(ce.milliTime) / 1000, clock)
    requires ce.ecPubKey == cc.ecPubKey && 2 <= Balance(f.credits, cc.ecPubKey) < TWO_31
    requires cc.entryHash !in f.commitChains && cc.entryHash !in f.commitEntries
    ensures var f1 := ProcessCommitChain(env, f, cc, clock).0;
      var f2 := ProcessRevealEntry(env, f1, e).0;
      var f3 := ProcessCommitEntry(env, f2, ce, clock).0;
      var f4 := ProcessRevealEntry(env, f3, e).0;
      && Poisons(env, f1, e)
      && f4.log == f.log + [CommitChainItem(cc), CommitEntryItem(ce), RevealEntryItem(e)]
  {
    hide *;
    RegisteredUnpaid(env, f, e, cc, clock);
    ThenListed(env, ProcessRevealEntry(env, ProcessCommitChain(env, f, cc, clock).0, e).0, e, ce, clock);
  }
}
