/** The server's processor (process/processor.go): the maps, the process list, the replay filter and
    the open blocks that its handlers update in place. */
module Processor {
  import opened Basics
  import opened Entries
  import opened Messages
  import opened Ledger
  import opened ProcessList
  import ReplayFilter
  import EBlock

  /** The messages of a process list. */
  function Msgs(items: seq<PLItem<Item>>): (s: seq<Item>)
    ensures |s| == |items|
  {
    seq(|items|, i requires 0 <= i < |items| => items[i].msg)
  }

  lemma MsgsSnoc(items: seq<PLItem<Item>>, x: PLItem<Item>)
    ensures Msgs(items + [x]) == Msgs(items) + [x.msg]
  {
  }

  class Processor {
    const env: Env
    const filter: ReplayFilter.Filter
    var factoshisPerCredit: u64
    var eCreditMap: map<Digest, int>
    var commitEntryMap: map<Digest, CommitEntry>
    var commitChainMap: map<Digest, CommitChain>
    var chainIDMap: map<Digest, EBlock.EChain>
    var orphans: map<Digest, Msg>
    var myProcessList: ProcessList<Item>
    /** Every item accepted since the server started. */
    ghost var log: seq<Item>

    ghost function Repr(): set<object>
      reads this, myProcessList, myProcessList.plItems
    {
      {this, myProcessList, myProcessList.plItems, myProcessList.plItems.cells, filter, filter.buckets}
    }

    ghost predicate Valid()
      reads Repr()
    {
      myProcessList.Valid() && filter.Valid()
    }

    /** The process list is the same object; only its backing array may have been replaced. */
    twostate predicate SameList()
      reads this, myProcessList.plItems
    {
      && myProcessList == old(myProcessList)
      && (myProcessList.plItems.cells == old(myProcessList.plItems.cells) || fresh(myProcessList.plItems.cells))
    }

    /** The abstract state. */
    ghost function View(): Front
      requires Valid()
      reads Repr()
    {
      Front(factoshisPerCredit, eCreditMap, commitEntryMap, commitChainMap, chainIDMap, orphans,
            myProcessList.totalItems, Msgs(myProcessList.Items()), filter.log, log)
    }

    constructor (env: Env, rate: u64, credits: map<Digest, int>, chains: map<Digest, EBlock.EChain>)
      ensures Valid() && fresh(Repr()) && this.env == env
      ensures View() == Front(rate, credits, map[], map[], chains, map[], 0, [], {}, [])
    {
      this.env := env;
      filter := new ReplayFilter.Filter();
      factoshisPerCredit, eCreditMap, chainIDMap := rate, credits, chains;
      commitEntryMap, commitChainMap, orphans, log := map[], map[], map[], [];
      myProcessList := new ProcessList<Item>(1);
    }

    /** plMgr.AddMyProcessListItem, with the history. */
    method AcceptItem(i: Item)
      requires Valid() && |View().items| < TWO_31
      modifies this`log, myProcessList, myProcessList.plItems, myProcessList.plItems.cells
      ensures Valid() && SameList()
      ensures View() == Accept(old(View()), i)
    {
      ghost var before := myProcessList.Items();
      myProcessList.AddMyProcessListItem(i);
      MsgsSnoc(before, PLItem(|before|, i));
      log := log + [i];
    }

    /** process/mempool.go:50-61 */
    method AddOrphanMsg(m: Msg, hash: Digest) returns (o: Outcome)
      requires Valid()
      modifies this`orphans
      ensures Valid() && Repr() == old(Repr())
      ensures View() == AddOrphan(old(View()), hash, m) && o == OrphanOutcome(old(View()))
    {
      if |orphans| > MAX_ORPHAN_SIZE {
        return Refused(PoolFull);
      }
      orphans := orphans[hash := m];
      return Done;
    }

    /** The end of every handler: onto the process list, or to the orphans if the list is full. */
    method Enqueue(i: Item, m: Msg, hash: Digest) returns (o: Outcome)
      requires Valid() && |View().items| < TWO_31
      modifies this`orphans, this`log, myProcessList, myProcessList.plItems, myProcessList.plItems.cells
      ensures Valid() && SameList()
      ensures (View(), o) == var f := old(View());
        if f.totalItems >= MAX_PLIST_SIZE then (AddOrphan(f, hash, m), OrphanOutcome(f)) else (Accept(f, i), Done)
    {
      var exceeding := myProcessList.IsMyPListExceedingLimit();
      if exceeding {
        o := AddOrphanMsg(m, hash);
      } else {
        AcceptItem(i);
        o := Done;
      }
    }

    method ChargeEntry(c: CommitEntry)
      requires Valid()
      modifies this`commitEntryMap, this`eCreditMap
      ensures Valid() && Repr() == old(Repr())
      ensures View() == old(View()).(commitEntries := old(commitEntryMap)[c.entryHash := c],
                                     credits := AddTo(old(eCreditMap), c.ecPubKey, -(c.credits as int)))
    {
      commitEntryMap := commitEntryMap[c.entryHash := c];
      eCreditMap := AddTo(eCreditMap, c.ecPubKey, -(c.credits as int));
    }

    /** process/processor.go:646-693 */
    method ProcessCommitEntry(c: CommitEntry, clock: int) returns (o: Outcome)
      requires Valid() && |View().items| < TWO_31
      modifies Repr()
      ensures Valid() && SameList()
      ensures (View(), o) == Ledger.ProcessCommitEntry(env, old(View()), c, clock)
    {
      hide InTime, AddOrphan, AddTo, OrphanOutcome, Accept;
      if !InTime(c.milliTime, clock) {
        return Refused(NotInTime);
      }
      if c.entryHash in commitEntryMap {
        return Refused(AlreadyCommitted);
      }
      if c.credits > MAX_ENTRY_CREDITS {
        return Refused(TooManyCredits);
      }
      if Balance(eCreditMap, c.ecPubKey) < c.credits {
        return Refused(NotEnoughCredits);
      }
      ChargeEntry(c);
      o := Enqueue(CommitEntryItem(c), MsgCommitEntry(c), env.wireSha(MsgCommitEntry(c)));
    }

    method ChargeChain(c: CommitChain)
      requires Valid()
      modifies this`commitChainMap, this`eCreditMap
      ensures Valid() && Repr() == old(Repr())
      ensures View() == old(View()).(commitChains := old(commitChainMap)[c.entryHash := c],
                                     credits := AddTo(old(eCreditMap), c.ecPubKey, -(c.credits as int)))
    {
      commitChainMap := commitChainMap[c.entryHash := c];
      eCreditMap := AddTo(eCreditMap, c.ecPubKey, -(c.credits as int));
    }

    /** process/processor.go:696-743 */
    method ProcessCommitChain(c: CommitChain, clock: int) returns (o: Outcome)
      requires Valid() && |View().items| < TWO_31
      modifies Repr()
      ensures Valid() && SameList()
      ensures (View(), o) == Ledger.ProcessCommitChain(env, old(View()), c, clock)
    {
      hide InTime, AddOrphan, AddTo, OrphanOutcome, Accept;
      if !InTime(c.milliTime, clock) {
        return Refused(NotInTime);
      }
      if c.entryHash in commitChainMap {
        return Refused(AlreadyCommitted);
      }
      if c.credits > MAX_CHAIN_CREDITS {
        return Refused(TooManyCredits);
      }
      if Balance(eCreditMap, c.ecPubKey) < c.credits {
        return Refused(NotEnoughCredits);
      }
      ChargeChain(c);
      o := Enqueue(CommitChainItem(c), MsgCommitChain(c), env.wireSha(MsgCommitChain(c)));
    }

    method RemoveCommitEntry(hash: Digest)
      requires Valid()
      modifies this`commitEntryMap
      ensures Valid() && Repr() == old(Repr())
      ensures View() == old(View()).(commitEntries := old(commitEntryMap) - {hash})
    {
      commitEntryMap := commitEntryMap - {hash};
    }

    method RemoveCommitChain(hash: Digest)
      requires Valid()
      modifies this`commitChainMap
      ensures Valid() && Repr() == old(Repr())
      ensures View() == old(View()).(commitChains := old(commitChainMap) - {hash})
    {
      commitChainMap := commitChainMap - {hash};
    }

    method RegisterChain(e: Entry)
      requires Valid()
      modifies this`chainIDMap
      ensures Valid() && Repr() == old(Repr())
      ensures View() == old(View()).(chains := old(chainIDMap)[e.chainID := EBlock.NewChain(e)])
    {
      chainIDMap := chainIDMap[e.chainID := EBlock.NewChain(e)];
    }

    /** process/processor.go:534-573 */
    method RevealEntry(e: Entry, hash: Digest) returns (o: Outcome)
      requires Valid() && |View().items| < TWO_31 && hash in commitEntryMap
      modifies Repr()
      ensures Valid() && SameList()
      ensures (View(), o) == Ledger.RevealCommittedEntry(env, old(View()), e, hash)
    {
      hide MarshalEntry, EntryCost, AddOrphan, OrphanOutcome;
      var msg := MsgRevealEntry(e);
      if e.chainID !in chainIDMap {
        var _ := AddOrphanMsg(msg, hash);
        return Refused(NoSuchChain);
      }
      var cost := EntryCost(MarshalEntry(e));
      if cost.Err? {
        return Refused(TooLarge);
      }
      if commitEntryMap[hash].credits < cost.value {
        var _ := AddOrphanMsg(msg, hash);
        return Refused(Underpaid);
      }
      var exceeding := myProcessList.IsMyPListExceedingLimit();
      if exceeding {
        o := AddOrphanMsg(msg, hash);
        return;
      }
      AcceptItem(RevealEntryItem(e));
      RemoveCommitEntry(hash);
      return Done;
    }

    /** process/processor.go:574-637 */
    method RevealChain(e: Entry, hash: Digest) returns (o: Outcome)
      requires Valid() && |View().items| < TWO_31 && hash in commitChainMap
      modifies Repr()
      ensures Valid() && SameList()
      ensures (View(), o) == Ledger.RevealCommittedChain(env, old(View()), e, hash)
    {
      hide ChainRevealFault, AddOrphan, OrphanOutcome, Accept, EBlock.NewChain;
      var msg := MsgRevealEntry(e);
      if e.chainID in chainIDMap {
        var _ := AddOrphanMsg(msg, hash);
        return Refused(ChainExists);
      }
      RegisterChain(e);
      var why := CheckChainReveal(commitChainMap[hash], e);
      if why.Some? {
        if why.value == Underpaid {
          var _ := AddOrphanMsg(msg, hash);
        }
        return Refused(why.value);
      }
      o := EnqueueChain(e, hash);
    }

    /** process/processor.go:588-615, in that order. */
    method CheckChainReveal(c: CommitChain, e: Entry) returns (why: Option<Reason>)
      ensures why == ChainRevealFault(env, c, e)
    {
      var cost := EntryCost(MarshalEntry(e));
      if cost.Err? {
        return Some(TooLarge);
      }
      if c.credits < cost.value + 10 {
        return Some(Underpaid);
      }
      if NewChainID(env.h, e) != e.chainID {
        return Some(WrongChainID);
      }
      if c.chainIDHash != DoubleSha(env.h, e.chainID) {
        return Some(WrongChainIDHash);
      }
      var eh: Bytes, cid: Bytes := c.entryHash, e.chainID;
      if c.weld != DoubleSha(env.h, eh + cid) {
        return Some(WrongWeld);
      }
      return None;
    }

    /** process/processor.go:617-637 */
    method EnqueueChain(e: Entry, hash: Digest) returns (o: Outcome)
      requires Valid() && |View().items| < TWO_31
      modifies Repr()
      ensures Valid() && SameList()
      ensures (View(), o) == var g := old(View());
        if g.totalItems >= MAX_PLIST_SIZE then (AddOrphan(g, hash, MsgRevealEntry(e)), OrphanOutcome(g))
        else (Accept(g, RevealChainItem(e)).(commitChains := g.commitChains - {hash}), Done)
    {
      hide AddOrphan, OrphanOutcome;
      var exceeding := myProcessList.IsMyPListExceedingLimit();
      if exceeding {
        o := AddOrphanMsg(MsgRevealEntry(e), hash);
        return;
      }
      AcceptItem(RevealChainItem(e));
      RemoveCommitChain(hash);
      return Done;
    }

    /** process/processor.go:523-643 */
    method ProcessRevealEntry(e: Entry) returns (o: Outcome)
      requires Valid() && |View().items| < TWO_31
      modifies Repr()
      ensures Valid() && SameList()
      ensures (View(), o) == Ledger.ProcessRevealEntry(env, old(View()), e)
    {
      hide RevealCommittedEntry, RevealCommittedChain, EntryHash, Reserved;
      var hash := EntryHash(env.h, e);
      if Reserved(e.chainID) {
        return Refused(UnsupportedChain);
      }
      if hash in commitEntryMap {
        o := RevealEntry(e, hash);
      } else if hash in commitChainMap {
        o := RevealChain(e, hash);
      } else {
        o := Refused(NoCommit);
      }
    }

    /** process/processor.go:748-756 */
    method AddCredits(tx: FctTx)
      requires Valid() && factoshisPerCredit > 0
      modifies this`eCreditMap
      ensures Valid() && Repr() == old(Repr())
      ensures View() == old(View()).(credits := AddOutputs(old(eCreditMap), factoshisPerCredit, tx.ecOutputs))
    {
      hide AddTo;
      for i := 0 to |tx.ecOutputs|
        invariant Valid() && Repr() == old(Repr())
        invariant View() == old(View()).(credits := eCreditMap)
        invariant eCreditMap == AddOutputs(old(eCreditMap), factoshisPerCredit, tx.ecOutputs[..i])
      {
        assert tx.ecOutputs[..i + 1][..i] == tx.ecOutputs[..i];
        var cred := CreditsFor(tx.ecOutputs[i].1, factoshisPerCredit);
        eCreditMap := AddTo(eCreditMap, tx.ecOutputs[i].0, cred);
      }
      assert tx.ecOutputs[..|tx.ecOutputs|] == tx.ecOutputs;
    }

    /** process/processor.go:746-769 */
    method ProcessBuyEntryCredit(tx: FctTx) returns (o: Outcome)
      requires Valid() && |View().items| < TWO_31 && factoshisPerCredit > 0
      modifies Repr()
      ensures Valid() && SameList()
      ensures (View(), o) == Ledger.ProcessBuyEntryCredit(env, old(View()), tx)
    {
      hide AddOrphan, OrphanOutcome, AddOutputs, Accept;
      AddCredits(tx);
      o := Enqueue(FactoidItem(tx), MsgFactoidTX(tx), env.wireSha(MsgFactoidTX(tx)));
    }

    // -------------------------------------------------------------- orphans

    method RemoveOrphan(k: Digest)
      requires Valid()
      modifies this`orphans
      ensures Valid() && Repr() == old(Repr())
      ensures View() == old(View()).(orphans := old(orphans) - {k})
    {
      orphans := orphans - {k};
    }

    /** One round of process/processor.go:773-802. */
    method RetryOrphan(k: Digest, clock: int)
      requires Valid() && |View().items| < TWO_31 && k in orphans
      modifies Repr()
      ensures Valid() && SameList()
      ensures View() == Ledger.RetryOrphan(env, old(View()), k, clock)
    {
      hide Ledger.ProcessCommitChain, Ledger.ProcessCommitEntry, Ledger.ProcessRevealEntry;
      var o: Outcome;
      match orphans[k] {
        case MsgCommitChain(c) => o := ProcessCommitChain(c, clock);
        case MsgCommitEntry(c) => o := ProcessCommitEntry(c, clock);
        case MsgRevealEntry(e) => o := ProcessRevealEntry(e);
        case MsgFactoidTX(_) => o := Refused(BadMessage);
      }
      if o.Done? {
        RemoveOrphan(k);
      }
    }

    /** process/processor.go:772-804. The order in which Go delivers the keys is not fixed; `order` is
        the one that was taken. */
    method ProcessFromOrphanPool(clock: int) returns (ghost order: seq<Digest>)
      requires Valid() && |View().items| + |orphans| < TWO_31
      modifies Repr()
      ensures Valid() && SameList()
      ensures View() == Ledger.ProcessFromOrphanPool(env, old(View()), order, clock)
      ensures |View().items| <= |old(View()).items| + |old(orphans)|
    {
      hide Ledger.RetryOrphan;
      order := [];
      var todo := orphans.Keys;
      while todo != {}
        invariant Valid() && SameList()
        invariant View() == Ledger.ProcessFromOrphanPool(env, old(View()), order, clock)
        invariant |View().items| + |todo| <= |old(View()).items| + |old(orphans)|
        decreases |todo|
      {
        var k :| k in todo;
        assert (order + [k])[..|order|] == order;
        ghost var f := View();
        if k in orphans {
          RetryAddsOne(env, f, k, clock);
          RetryOrphan(k, clock);
        }
        todo := todo - {k};
        order := order + [k];
      }
    }

    // -------------------------------------------------------------- serving

    /** The clock has not run backwards, and was first read at least a day after the epoch. */
    ghost predicate ClockFine(now: int)
      requires Valid()
      reads Repr()
    {
      filter.lasttime <= ReplayFilter.Hours(now) && (!filter.used ==> ReplayFilter.NUM_BUCKETS <= ReplayFilter.Hours(now))
    }

    method IsTSValid(hash: Digest, timestamp: int, now: int) returns (ok: bool)
      requires Valid() && ClockFine(now)
      modifies filter, filter.buckets
      ensures Valid() && Repr() == old(Repr())
      ensures (View(), ok) == Pass(old(View()), hash, timestamp, now)
    {
      ok := filter.IsTSValid(hash, timestamp, now);
    }

    /** process/processor.go:260-277 */
    method ServeCommitChain(c: CommitChain, valid: bool, now: int, clock: int) returns (o: Outcome)
      requires Valid() && |View().items| < TWO_31 && factoshisPerCredit > 0 && (valid ==> ClockFine(now))
      modifies Repr()
      ensures Valid() && SameList()
      ensures (View(), o) == Serve(env, old(View()), OnCommitChain(c, valid, now, clock))
    {
      hide Ledger.ProcessCommitChain, ReplayFilter.Fresh, ReplayFilter.Record, GetMilliTime, CommitChainSigHash;
      if !valid {
        return Refused(BadMessage);
      }
      var ok := IsTSValid(CommitChainSigHash(env.h, c), GetMilliTime(c.milliTime) / 1000, now);
      if !ok {
        return Refused(BadTimestamp);
      }
      o := ProcessCommitChain(c, clock);
    }

    /** process/processor.go:281-298 */
    method ServeCommitEntry(c: CommitEntry, valid: bool, now: int, clock: int) returns (o: Outcome)
      requires Valid() && |View().items| < TWO_31 && factoshisPerCredit > 0 && (valid ==> ClockFine(now))
      modifies Repr()
      ensures Valid() && SameList()
      ensures (View(), o) == Serve(env, old(View()), OnCommitEntry(c, valid, now, clock))
    {
      hide Ledger.ProcessCommitEntry, ReplayFilter.Fresh, ReplayFilter.Record, GetMilliTime, CommitEntrySigHash;
      if !valid {
        return Refused(BadMessage);
      }
      var ok := IsTSValid(CommitEntrySigHash(env.h, c), GetMilliTime(c.milliTime) / 1000, now);
      if !ok {
        return Refused(BadTimestamp);
      }
      o := ProcessCommitEntry(c, clock);
    }

    /** process/processor.go:302-311 */
    method ServeRevealEntry(e: Entry, valid: bool) returns (o: Outcome)
      requires Valid() && |View().items| < TWO_31 && factoshisPerCredit > 0
      modifies Repr()
      ensures Valid() && SameList()
      ensures (View(), o) == Serve(env, old(View()), OnRevealEntry(e, valid))
    {
      hide Ledger.ProcessRevealEntry;
      if !valid {
        return Refused(BadMessage);
      }
      o := ProcessRevealEntry(e);
    }

    /** process/processor.go:394-420 */
    method ServeFactoidTX(tx: FctTx, valid: bool, now: int, added: bool) returns (o: Outcome)
      requires Valid() && |View().items| < TWO_31 && factoshisPerCredit > 0 && (valid ==> ClockFine(now))
      modifies Repr()
      ensures Valid() && SameList()
      ensures (View(), o) == Serve(env, old(View()), OnFactoidTX(tx, valid, now, added))
    {
      hide Ledger.ProcessBuyEntryCredit, ReplayFilter.Fresh, ReplayFilter.Record;
      if !valid {
        return Done;
      }
      var ok := IsTSValid(tx.sigHash, tx.milliTimestamp / 1000, now);
      if !ok {
        return Refused(BadTimestamp);
      }
      if added {
        o := ProcessBuyEntryCredit(tx);
      } else {
        o := Done;
      }
    }

    /** process/processor.go:342-346: minutes 1 to 9. */
    method ServeMinute(m: byte) returns (o: Outcome)
      requires Valid() && |View().items| < TWO_31 && factoshisPerCredit > 0
      modifies Repr()
      ensures Valid() && SameList()
      ensures (View(), o) == Serve(env, old(View()), OnMinute(m))
    {
      if 1 <= m < 10 {
        AcceptItem(MinuteItem(m));
      }
      o := Done;
    }

    /** process/processor.go:326-333, before buildBlocks. */
    method EndProcessList(clock: int) returns (ghost order: seq<Digest>)
      requires Valid() && |View().items| + |orphans| < TWO_31
      modifies Repr()
      ensures Valid() && SameList()
      ensures View() == CloseList(env, old(View()), order, clock)
    {
      hide Ledger.ProcessFromOrphanPool;
      order := ProcessFromOrphanPool(clock);
      AcceptItem(MinuteItem(10));
    }
  }

  /** One retry accepts at most one item. */
  lemma RetryAddsOne(env: Env, f: Front, k: Digest, clock: int)
    requires k in f.orphans
    ensures |Ledger.RetryOrphan(env, f, k, clock).items| <= |f.items| + 1
  {
    hide Ledger.ProcessRevealEntry, InTime, AddTo;
    if f.orphans[k].MsgRevealEntry? {
      RevealShape(env, f, f.orphans[k].entry);
    }
  }
}
