/** What closing a block does to each chain, each table and each sealed block. */
module BuildProofs {
  import opened Basics
  import opened Entries
  import opened Messages
  import opened Ledger
  import opened ECLedger
  import opened EntryStore
  import opened Builder
  import opened Minutes
  import EBlock
  import DirectoryBlock

  // ---------------------------------------------------------------- the process list, chain by chain

  /** Chain reveals on the list concern chains that are as their reveal left them, that can be read from
      the database, and that no earlier item reveals an entry of. */
  predicate CreationsFresh(h: Hashing, t: Tables, chains: map<Digest, EBlock.EChain>, items: seq<Item>) {
    forall i :: 0 <= i < |items| && items[i].RevealChainItem? ==>
      var e := items[i].first;
      && e.chainID in chains && chains[e.chainID] == EBlock.NewChain(e)
      && InitEChainFromDB(h, t, e.chainID).Ok?
      && forall j :: 0 <= j < i && IsReveal(items[j]) ==> Revealed(items[j]).chainID != e.chainID
  }

  predicate BodiesEmpty(chains: map<Digest, EBlock.EChain>) {
    forall cid :: cid in chains ==> chains[cid].nextBlock.body == []
  }

  /** A chain after the process list: created chains start from the database. */
  function ChainAfter(h: Hashing, t: Tables, chain: EBlock.EChain, items: seq<Item>, cid: Digest): EBlock.EChain {
    var body := ChainBody(h, items, cid);
    var read := InitEChainFromDB(h, t, cid);
    if CreatedIn(items, cid) && read.Ok? then
      chain.(nextBlock := read.value.1.(body := body), nextBlockHeight := read.value.0)
    else chain.(nextBlock := chain.nextBlock.(body := body))
  }

  /** A chain read from the database has an empty open block of its own. */
  lemma ReadIsOpen(h: Hashing, t: Tables, cid: Digest)
    requires InitEChainFromDB(h, t, cid).Ok?
    ensures var (n, block) := InitEChainFromDB(h, t, cid).value;
      block.body == [] && block.header.chainID == cid && block.header.ebSequence == n % TWO_32
  {
    hide FetchAllEBlocksByChain, SortBySequence, EBlock.KeyMR, EBlock.FullHash;
  }

  lemma CreatesSnoc(items: seq<Item>, i: Item, cid: Digest)
    ensures CreatedIn(items + [i], cid) <==> CreatedIn(items, cid) || (i.RevealChainItem? && i.first.chainID == cid)
  {
    var all := items + [i];
    assert all[|items|] == i;
    if CreatedIn(items, cid) {
      var k :| 0 <= k < |items| && items[k].RevealChainItem? && items[k].first.chainID == cid;
      assert all[k] == items[k];
    }
    if k :| 0 <= k < |all| && all[k].RevealChainItem? && all[k].first.chainID == cid && k < |items| {
      assert items[k] == all[k];
    }
  }

  lemma {:induction false} NoRevealNoBody(h: Hashing, items: seq<Item>, cid: Digest)
    requires forall j :: 0 <= j < |items| && IsReveal(items[j]) ==> Revealed(items[j]).chainID != cid
    ensures ChainBody(h, items, cid) == [] && cid !in Touched(items) && !CreatedIn(items, cid)
    decreases |items|
  {
    hide EntryHash;
    if items != [] {
      NoRevealNoBody(h, items[..|items| - 1], cid);
      assert forall j :: 0 <= j < |items| && items[j].RevealChainItem? ==> IsReveal(items[j]);
    }
  }

  lemma BodySnoc(h: Hashing, items: seq<Item>, i: Item, cid: Digest)
    ensures ChainBody(h, items + [i], cid) ==
      if IsRevealOf(i, cid) then ChainBody(h, items, cid) + [EntryHash(h, Revealed(i))]
      else if i.MinuteItem? && cid in Touched(items) then ChainBody(h, items, cid) + [EBlock.MinuteMarker(i.minute)]
      else ChainBody(h, items, cid)
  {
    hide EntryHash;
    assert (items + [i])[..|items|] == items;
  }

  lemma FreshPrefix(h: Hashing, t: Tables, chains: map<Digest, EBlock.EChain>, items: seq<Item>, i: Item)
    requires CreationsFresh(h, t, chains, items + [i])
    ensures CreationsFresh(h, t, chains, items)
    ensures i.RevealChainItem? ==>
      && i.first.chainID in chains && chains[i.first.chainID] == EBlock.NewChain(i.first)
      && InitEChainFromDB(h, t, i.first.chainID).Ok?
      && forall j :: 0 <= j < |items| && IsReveal(items[j]) ==> Revealed(items[j]).chainID != i.first.chainID
  {
    hide InitEChainFromDB, EBlock.MakeEBlock, EBlock.NewChain;
    var all := items + [i];
    assert all[|items|] == i;
    forall k | 0 <= k < |items|
      ensures items[k] == all[k]
    {
    }
  }

  /** One item acts on one chain as ChainAfter says. */
  lemma ItemOnChain(h: Hashing, t: Tables, rate: u64, w: Work, r: Work, chain: EBlock.EChain, before: seq<Item>,
                    i: Item, cid: Digest)
    requires rate > 0 && (IsReveal(i) ==> Revealed(i).chainID in w.chains)
    requires cid in w.chains && w.chains[cid] == ChainAfter(h, t, chain, before, cid)
    requires r == BuildItem(h, t, rate, w, before, i)
    requires i.RevealChainItem? && i.first.chainID == cid ==>
      && chain == EBlock.NewChain(i.first)
      && InitEChainFromDB(h, t, cid).Ok?
      && forall j :: 0 <= j < |before| && IsReveal(before[j]) ==> Revealed(before[j]).chainID != cid
    ensures cid in r.chains && r.chains[cid] == ChainAfter(h, t, chain, before + [i], cid)
  {
    hide InitEChainFromDB, EntryHash, Touched, ChainBody, EntriesOf, CreatedIn;
    CreatesSnoc(before, i, cid);
    BodySnoc(h, before, i, cid);
    if i.RevealChainItem? && i.first.chainID == cid {
      NoRevealNoBody(h, before, cid);
      ReadIsOpen(h, t, cid);
      assert w.chains[cid].firstEntry == i.first;
    }
  }

  /** After the whole list every chain is as ChainAfter says. */
  lemma {:induction false} ListOnChains(h: Hashing, t: Tables, rate: u64, w: Work, items: seq<Item>, cid: Digest)
    requires rate > 0 && ChainsKnown(items, w.chains) && CreationsFresh(h, t, w.chains, items) && BodiesEmpty(w.chains)
    requires cid in w.chains
    ensures BuildFromProcessList(h, t, rate, w, items).chains[cid] == ChainAfter(h, t, w.chains[cid], items, cid)
    decreases |items|
  {
    hide BuildItem, ChainAfter, CreationsFresh;
    if items == [] {
      NothingOnChain(h, t, w.chains[cid], cid);
    } else {
      var n := |items| - 1;
      var before, i := items[..n], items[n];
      assert items == before + [i];
      FreshPrefix(h, t, w.chains, before, i);
      ListOnChains(h, t, rate, w, before, cid);
      var v := BuildFromProcessList(h, t, rate, w, before);
      ItemOnChain(h, t, rate, v, BuildItem(h, t, rate, v, before, i), w.chains[cid], before, i, cid);
    }
  }

  lemma NothingOnChain(h: Hashing, t: Tables, chain: EBlock.EChain, cid: Digest)
    requires chain.nextBlock.body == []
    ensures ChainAfter(h, t, chain, [], cid) == chain
  {
    assert ChainBody(h, [], cid) == [];
  }

  // ---------------------------------------------------------------- the chain table

  lemma ItemOnTable(h: Hashing, t: Tables, rate: u64, w: Work, before: seq<Item>, i: Item, cid: Digest)
    requires rate > 0 && (IsReveal(i) ==> Revealed(i).chainID in w.chains)
    requires i.RevealChainItem? ==> InitEChainFromDB(h, t, i.first.chainID).Ok?
    ensures var r := BuildItem(h, t, rate, w, before, i); var new_ := i.RevealChainItem? && i.first.chainID == cid;
      && (cid in r.chainTable <==> cid in w.chainTable || new_)
      && (cid in r.chainTable ==> r.chainTable[cid] == if new_ then w.chains[cid].firstEntry else w.chainTable[cid])
      && (forall k :: k in w.chains ==> r.chains[k].firstEntry == w.chains[k].firstEntry)
  {
    hide InitEChainFromDB, EntryHash, Touched, EntriesOf;
  }

  /** The chain table gains exactly the created chains, and no first entry changes. */
  lemma {:induction false} ListOnTable(h: Hashing, t: Tables, rate: u64, w: Work, items: seq<Item>, cid: Digest)
    requires rate > 0 && ChainsKnown(items, w.chains) && CreationsReadable(h, t, items)
    ensures var r := BuildFromProcessList(h, t, rate, w, items);
      && (cid in r.chainTable <==> cid in w.chainTable || CreatedIn(items, cid))
      && (cid in r.chainTable && cid !in w.chainTable ==>
          cid in w.chains && r.chainTable[cid] == w.chains[cid].firstEntry)
      && (cid in w.chainTable && cid in w.chains && w.chainTable[cid] == w.chains[cid].firstEntry ==>
          r.chainTable[cid] == w.chainTable[cid])
      && (cid in w.chainTable && cid !in w.chains ==> r.chainTable[cid] == w.chainTable[cid])
      && (forall k :: k in w.chains ==> r.chains[k].firstEntry == w.chains[k].firstEntry)
    decreases |items|
  {
    hide BuildItem, InitEChainFromDB, CreatedIn;
    if items == [] {
      assert !CreatedIn(items, cid) by { NothingCreates(cid); }
    } else {
      var n := |items| - 1;
      var before, i := items[..n], items[n];
      assert items == before + [i];
      CreatesSnoc(before, i, cid);
      ListOnTable(h, t, rate, w, before, cid);
      ItemOnTable(h, t, rate, BuildFromProcessList(h, t, rate, w, before), before, i, cid);
    }
  }

  lemma NothingCreates(cid: Digest)
    ensures !CreatedIn([], cid)
  {
  }

  // ---------------------------------------------------------------- the entries that get stored

  lemma ItemStoresEntries(h: Hashing, t: Tables, rate: u64, w: Work, before: seq<Item>, i: Item)
    requires rate > 0 && (IsReveal(i) ==> Revealed(i).chainID in w.chains)
    requires i.RevealChainItem? ==>
        w.chains[i.first.chainID].firstEntry == i.first && InitEChainFromDB(h, t, i.first.chainID).Ok?
    ensures var r := BuildItem(h, t, rate, w, before, i);
      && w.entries.Keys <= r.entries.Keys
      && (IsReveal(i) ==> EntryHash(h, Revealed(i)) in r.entries)
  {
    hide InitEChainFromDB, EntryHash, Touched, EntriesOf, MarkChains;
  }

  /** Every revealed entry is stored under its hash. */
  lemma {:induction false} ListStoresEntries(h: Hashing, t: Tables, rate: u64, w: Work, items: seq<Item>)
    requires rate > 0 && ChainsKnown(items, w.chains) && CreationsFresh(h, t, w.chains, items) && BodiesEmpty(w.chains)
    ensures var r := BuildFromProcessList(h, t, rate, w, items);
      && w.entries.Keys <= r.entries.Keys
      && forall j :: 0 <= j < |items| && IsReveal(items[j]) ==> EntryHash(h, Revealed(items[j])) in r.entries
    decreases |items|
  {
    hide BuildItem, CreationsFresh, EntryHash, InitEChainFromDB;
    if items != [] {
      var n := |items| - 1;
      var before, i := items[..n], items[n];
      assert items == before + [i];
      FreshPrefix(h, t, w.chains, before, i);
      ListStoresEntries(h, t, rate, w, before);
      var v := BuildFromProcessList(h, t, rate, w, before);
      if i.RevealChainItem? {
        ListOnChains(h, t, rate, w, before, i.first.chainID);
      }
      ItemStoresEntries(h, t, rate, v, before, i);
      forall j | 0 <= j < |items| && IsReveal(items[j])
        ensures EntryHash(h, Revealed(items[j])) in BuildItem(h, t, rate, v, before, i).entries
      {
        if j < n {
          assert before[j] == items[j];
        }
      }
    }
  }

  /** Every entry of the table is stored under its own hash. */
  predicate Named(h: Hashing, entries: map<Digest, Entry>) {
    forall x :: x in entries ==> EntryHash(h, entries[x]) == x
  }

  lemma ItemKeepsNamed(h: Hashing, t: Tables, rate: u64, w: Work, before: seq<Item>, i: Item)
    requires rate > 0 && (IsReveal(i) ==> Revealed(i).chainID in w.chains) && Named(h, w.entries)
    ensures Named(h, BuildItem(h, t, rate, w, before, i).entries)
  {
    hide InitEChainFromDB, EntryHash, Touched, EntriesOf, MarkChains;
  }

  lemma {:induction false} ListKeepsNamed(h: Hashing, t: Tables, rate: u64, w: Work, items: seq<Item>)
    requires rate > 0 && ChainsKnown(items, w.chains) && Named(h, w.entries)
    ensures Named(h, BuildFromProcessList(h, t, rate, w, items).entries)
    decreases |items|
  {
    hide BuildItem, Named;
    if items != [] {
      var n := |items| - 1;
      ListKeepsNamed(h, t, rate, w, items[..n]);
      ItemKeepsNamed(h, t, rate, BuildFromProcessList(h, t, rate, w, items[..n]), items[..n], items[n]);
    }
  }

  /** What a block body can hold. */
  lemma {:induction false} BodyElements(h: Hashing, items: seq<Item>, cid: Digest, k: nat)
    requires k < |ChainBody(h, items, cid)|
    ensures var d := ChainBody(h, items, cid)[k];
      EBlock.IsMinuteMarker(d) || exists j :: 0 <= j < |items| && IsReveal(items[j]) && d == EntryHash(h, Revealed(items[j]))
    decreases |items|
  {
    hide EntryHash;
    var n := |items| - 1;
    var before := items[..n];
    if k < |ChainBody(h, before, cid)| {
      BodyElements(h, before, cid, k);
      var d := ChainBody(h, before, cid)[k];
      assert ChainBody(h, items, cid)[k] == d;
      if !EBlock.IsMinuteMarker(d) {
        var j :| 0 <= j < |before| && IsReveal(before[j]) && d == EntryHash(h, Revealed(before[j]));
        assert items[j] == before[j];
      }
    } else if IsRevealOf(items[n], cid) {
      assert ChainBody(h, items, cid)[k] == EntryHash(h, Revealed(items[n]));
    } else {
      EBlock.MarkerFacts(items[n].minute);
    }
  }

  lemma {:induction false} BodyLength(h: Hashing, items: seq<Item>, cid: Digest)
    ensures |ChainBody(h, items, cid)| <= |items|
    decreases |items|
  {
    hide EntryHash;
    if items != [] {
      BodyLength(h, items[..|items| - 1], cid);
    }
  }

  // ---------------------------------------------------------------- sealing the entry blocks

  /** The block that a chain with new entries seals. */
  function BlockOf(h: Hashing, dbHeight: nat, chain: EBlock.EChain): EBlock.Block
    requires chain.nextBlock.body != []
  {
    EBlock.Built(h, chain.nextBlock.(header := chain.nextBlock.header.(ebHeight := dbHeight % TWO_32)))
  }

  /** The chain after it. */
  function NextOf(h: Hashing, dbHeight: nat, chain: EBlock.EChain): EBlock.EChain {
    if chain.nextBlock.body == [] then chain
    else
      chain.(nextBlock := EBlock.MakeEBlock(h, chain.chainID, chain.nextBlockHeight + 1,
          Some(BlockOf(h, dbHeight, chain))),
             nextBlockHeight := chain.nextBlockHeight + 1)
  }

  function NewBlocks(h: Hashing, dbHeight: nat, chains: map<Digest, EBlock.EChain>,
                     keys: seq<Digest>): seq<EBlock.Block>
    requires forall k :: k in keys ==> k in chains
  {
    if keys == [] then []
    else
      var n := |keys| - 1;
      NewBlocks(h, dbHeight, chains, keys[..n])
        + if chains[keys[n]].nextBlock.body == [] then [] else [BlockOf(h, dbHeight, chains[keys[n]])]
  }

  function EntriesFor(h: Hashing, blocks: seq<EBlock.Block>): seq<DirectoryBlock.DBEntry>
    requires NonEmptyBodies(blocks)
  {
    seq(|blocks|, i requires 0 <= i < |blocks| => DirectoryBlock.DBEntry(blocks[i].header.chainID,
        EBlock.KeyMR(h, blocks[i])))
  }

  predicate Distinct(keys: seq<Digest>) {
    forall i, j :: 0 <= i < j < |keys| ==> keys[i] != keys[j]
  }

  lemma {:induction false} NewBlocksNonEmpty(h: Hashing, dbHeight: nat, chains: map<Digest, EBlock.EChain>,
                                             keys: seq<Digest>)
    requires forall k :: k in keys ==> k in chains
    ensures NonEmptyBodies(NewBlocks(h, dbHeight, chains, keys))
    ensures |NewBlocks(h, dbHeight, chains, keys)| <= |keys|
    decreases |keys|
  {
    hide EBlock.Built;
    if keys != [] {
      NewBlocksNonEmpty(h, dbHeight, chains, keys[..|keys| - 1]);
    }
  }

  /** Sealing chain by chain, all at once: every listed chain moves on, and the new blocks are stored
      and listed in that order. */
  lemma {:induction false} SealChainsIs(h: Hashing, dbHeight: nat, s: Sealing, keys: seq<Digest>)
    requires (forall k :: k in keys ==> k in s.chains) && Distinct(keys)
    ensures NonEmptyBodies(NewBlocks(h, dbHeight, s.chains, keys))
    ensures var r := SealChains(h, dbHeight, s, keys);
      && (forall k :: k in s.chains ==> r.chains[k] == if k in keys then NextOf(h, dbHeight, s.chains[k])
          else s.chains[k])
      && r.dbEntries == s.dbEntries + EntriesFor(h, NewBlocks(h, dbHeight, s.chains, keys))
      && r.eSealed == s.eSealed + NewBlocks(h, dbHeight, s.chains, keys)
      && (s.eTables == StoreAll(h, s.eSealed) ==> r.eTables == StoreAll(h, r.eSealed))
    decreases |keys|
  {
    hide EBlock.Built, EBlock.MakeEBlock, EBlock.KeyMR, StoreEBlock, StoreAll;
    NewBlocksNonEmpty(h, dbHeight, s.chains, keys);
    if keys == [] {
      assert s.eSealed + [] == s.eSealed;
      assert s.dbEntries + EntriesFor(h, []) == s.dbEntries;
    } else {
      var n := |keys| - 1;
      var before, k := keys[..n], keys[n];
      assert k !in before;
      assert forall x :: x in keys <==> x in before || x == k;
      SealChainsIs(h, dbHeight, s, before);
      var m := SealChains(h, dbHeight, s, before);
      SealOneChain(h, dbHeight, s, m, before, k);
      assert NewBlocks(h, dbHeight, s.chains, keys)
          == NewBlocks(h, dbHeight, s.chains, before) + if s.chains[k].nextBlock.body == [] then []
              else [BlockOf(h, dbHeight, s.chains[k])];
    }
  }

  lemma SealOneChain(h: Hashing, dbHeight: nat, s: Sealing, m: Sealing, before: seq<Digest>, k: Digest)
    requires k in s.chains && k in m.chains && m.chains[k] == s.chains[k]
    requires forall x :: x in before ==> x in s.chains
    requires NonEmptyBodies(NewBlocks(h, dbHeight, s.chains, before))
    requires m.dbEntries == s.dbEntries + EntriesFor(h, NewBlocks(h, dbHeight, s.chains, before))
    requires m.eSealed == s.eSealed + NewBlocks(h, dbHeight, s.chains, before)
    ensures var more := if s.chains[k].nextBlock.body == [] then [] else [BlockOf(h, dbHeight, s.chains[k])];
      var blocks := NewBlocks(h, dbHeight, s.chains, before) + more;
      var r := SealChain(h, dbHeight, m, k);
      && r.chains == m.chains[k := NextOf(h, dbHeight, s.chains[k])]
      && NonEmptyBodies(blocks)
      && r.dbEntries == s.dbEntries + EntriesFor(h, blocks)
      && r.eSealed == s.eSealed + blocks
      && (m.eTables == StoreAll(h, m.eSealed) ==> r.eTables == StoreAll(h, r.eSealed))
  {
    hide EBlock.MakeEBlock, EBlock.KeyMR, StoreEBlock, NewBlocks, EBlock.Built;
    var blocks := NewBlocks(h, dbHeight, s.chains, before);
    if s.chains[k].nextBlock.body == [] {
      assert blocks + [] == blocks;
      assert m.chains[k := m.chains[k]] == m.chains;
    } else {
      var b := BlockOf(h, dbHeight, s.chains[k]);
      assert (m.eSealed + [b])[..|m.eSealed|] == m.eSealed;
      assert EntriesFor(h, blocks + [b])
          == EntriesFor(h, blocks) + [DirectoryBlock.DBEntry(b.header.chainID, EBlock.KeyMR(h, b))];
      assert s.eSealed + blocks + [b] == s.eSealed + (blocks + [b]);
    }
  }

  // ---------------------------------------------------------------- which chain a new block belongs to

  lemma {:induction false} ChainBlocksAppend(a: seq<EBlock.Block>, b: seq<EBlock.Block>, cid: Digest)
    ensures ChainBlocks(a + b, cid) == ChainBlocks(a, cid) + ChainBlocks(b, cid)
    decreases |b|
  {
    if b == [] {
      assert a + b == a;
    } else {
      assert (a + b)[..|a + b| - 1] == a + b[..|b| - 1];
      ChainBlocksAppend(a, b[..|b| - 1], cid);
    }
  }

  /** Each chain's header names it, or nothing at all. */
  predicate HeadersOwn(chains: map<Digest, EBlock.EChain>) {
    forall cid :: cid in chains ==>
      chains[cid].nextBlock.header.chainID == cid || chains[cid].nextBlock.header.chainID == ZERO_HASH
  }

  /** Among the new blocks exactly the one that chain cid sealed, if any, is listed under cid. */
  lemma {:induction false} NewBlocksOfChain(h: Hashing, dbHeight: nat, chains: map<Digest, EBlock.EChain>,
                                            keys: seq<Digest>, cid: Digest)
    requires (forall k :: k in keys ==> k in chains) && Distinct(keys) && HeadersOwn(chains)
    requires cid != ZERO_HASH
    ensures ChainBlocks(NewBlocks(h, dbHeight, chains, keys), cid)
      == if cid in keys && chains[cid].nextBlock.body != [] && chains[cid].nextBlock.header.chainID == cid
         then [BlockOf(h, dbHeight, chains[cid])] else []
    decreases |keys|
  {
    hide EBlock.Built, BlockOf;
    if keys != [] {
      var n := |keys| - 1;
      var before, k := keys[..n], keys[n];
      assert k !in before;
      assert forall x :: x in keys <==> x in before || x == k;
      NewBlocksOfChain(h, dbHeight, chains, before, cid);
      if chains[k].nextBlock.body != [] {
        var b := BlockOf(h, dbHeight, chains[k]);
        BlockHeader(h, dbHeight, chains[k]);
        ChainBlocksAppend(NewBlocks(h, dbHeight, chains, before), [b], cid);
        assert [b][..0] == [];
        assert ChainBlocks([b], cid) == if b.header.chainID == cid then [b] else [];
      } else {
        assert NewBlocks(h, dbHeight, chains, before) + [] == NewBlocks(h, dbHeight, chains, before);
      }
    }
  }

  lemma BlockHeader(h: Hashing, dbHeight: nat, chain: EBlock.EChain)
    requires chain.nextBlock.body != []
    ensures var b := BlockOf(h, dbHeight, chain);
      && b.header.chainID == chain.nextBlock.header.chainID && b.header.ebSequence == chain.nextBlock.header.ebSequence
      && b.header.prevKeyMR == chain.nextBlock.header.prevKeyMR
          && b.header.prevLedgerKeyMR == chain.nextBlock.header.prevLedgerKeyMR
      && b.header.ebHeight == dbHeight % TWO_32 && b.body == chain.nextBlock.body
      && EBlock.Built(h, b) == b
  {
  }
}
