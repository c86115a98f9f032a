/** What every period leaves behind, in bytes: how the blocks of each chain lead to one another, what the
    admin and entry credit blocks record, and that every published entry is stored. */
module Records {
  import opened Basics
  import opened Entries
  import opened Messages
  import opened Ledger
  import opened Acceptance
  import opened ECLedger
  import opened EntryStore
  import opened Builder
  import opened BuildProofs
  import opened Server
  import opened ServerBlocks
  import opened CloseProofs
  import opened Runs
  import Merkle
  import EBlock
  import ECBlock
  import AdminBlock
  import DirectoryBlock

  // ---------------------------------------------------------------- links

  /** The header of a directory block leads to the block before it. */
  predicate DirLeads(h: Hashing, hd: DirectoryBlock.Header, prev: DirectoryBlock.Block) {
    var head: Bytes, body: Bytes := h.sha256(DirectoryBlock.MarshalHeader(prev.header)), prev.header.bodyMR;
    && hd.prevKeyMR == h.sha256(head + body)
    && hd.prevLedgerKeyMR
        == h.sha256(DirectoryBlock.MarshalHeader(prev.header) + DirectoryBlock.MarshalEntries(prev.entries))
  }

  /** The header of an entry credit block does. */
  predicate ECLeads(h: Hashing, hd: ECBlock.ECHeader, prev: ECBlock.Block) {
    && |prev.header.expansion| < TWO_64
    && hd.prevHeaderHash == h.sha256(ECBlock.MarshalHeader(prev.header))
    && hd.prevLedgerKeyMR == h.sha256(ECBlock.MarshalHeader(prev.header) + ECBlock.MarshalBody(prev.body))
  }

  /** The header of an admin block does. */
  predicate AdminLeads(h: Hashing, hd: AdminBlock.Header, prev: AdminBlock.Block) {
    hd.prevLedgerKeyMR == h.sha512(AdminBlock.MarshalHeader(prev.header) + AdminBlock.MarshalEntries(prev.entries))[..32]
  }

  /** The header of an entry block does. */
  predicate EntryLeads(h: Hashing, hd: EBlock.Header, prev: EBlock.Block) {
    prev.body != [] &&
    var head: Bytes := h.sha256(EBlock.MarshalHeader(prev.header));
    && hd.prevKeyMR == h.sha256(head + Merkle.Root(h, prev.body))
    && hd.prevLedgerKeyMR == h.sha256(EBlock.MarshalHeader(prev.header) + EBlock.MarshalBody(prev.body))
  }

  lemma DirLinkInBytes(h: Hashing, hd: DirectoryBlock.Header, prev: DirectoryBlock.Block)
    requires hd.prevKeyMR == DirectoryBlock.KeyMR(h, prev) && hd.prevLedgerKeyMR == DirectoryBlock.DBHash(h, prev)
    ensures DirLeads(h, hd, prev)
  {
    DirectoryBlock.KeyMRIsOneBranch(h, prev);
    hide DirectoryBlock.MarshalHeader, DirectoryBlock.MarshalEntries, Merkle.Root;
  }

  lemma DirLinks(h: Hashing, b: Back, i: nat)
    requires Tidy(h, b) && i < |b.dBlocks|
    ensures b.dBlocks[i].header.dbHeight == i && b.dBlocks[i].header.blockCount == |b.dBlocks[i].entries|
    ensures b.dBlocks[i].header.bodyMR == DirectoryBlock.BodyMR(h, b.dBlocks[i].entries)
    ensures DirLeads(h, if i + 1 < |b.dBlocks| then b.dBlocks[i + 1].header else b.dNext.header, b.dBlocks[i])
  {
    hide DirLeads, DirectoryBlock.KeyMR, DirectoryBlock.DBHash, DirectoryBlock.BodyMR, Storable, StoreAll,
        EntriesStored, Named;
    assert DirectoryBlock.LinkedAt(h, b.dBlocks, i);
    if i + 1 < |b.dBlocks| {
      assert DirectoryBlock.LinkedAt(h, b.dBlocks, i + 1);
      DirLinkInBytes(h, b.dBlocks[i + 1].header, b.dBlocks[i]);
    } else {
      DirLinkInBytes(h, b.dNext.header, b.dBlocks[i]);
    }
  }

  lemma ECLinks(h: Hashing, b: Back, i: nat)
    requires OwnLinked(h, b) && i < |b.ecSealed|
    ensures ECLeads(h, if i + 1 < |b.ecSealed| then b.ecSealed[i + 1].header else b.ecNext.header, b.ecSealed[i])
    ensures b.ecSealed[0].header.prevHeaderHash == ZERO_HASH && b.ecSealed[0].header.prevLedgerKeyMR == ZERO_HASH
    ensures b.ecSealed[i].header.ecChainID == EC_CHAINID
  {
    hide ECBlock.MarshalHeader, ECBlock.MarshalBody, AdminBlock.Linked, AdminBlock.Follows;
    assert ECBlock.Follows(h, b.ecSealed[0].header, b.ecSealed[..0]);
    assert ECBlock.Follows(h, b.ecSealed[i].header, b.ecSealed[..i]);
    if i + 1 < |b.ecSealed| {
      assert ECBlock.Follows(h, b.ecSealed[i + 1].header, b.ecSealed[..i + 1]);
      assert b.ecSealed[..i + 1][i] == b.ecSealed[i];
    }
  }

  lemma AdminLinks(h: Hashing, b: Back, i: nat)
    requires OwnLinked(h, b) && i < |b.aSealed|
    ensures AdminLeads(h, if i + 1 < |b.aSealed| then b.aSealed[i + 1].header else b.aNext.header, b.aSealed[i])
    ensures b.aSealed[0].header.prevLedgerKeyMR == ZERO_HASH && b.aSealed[i].header.adminChainID == ADMIN_CHAINID
  {
    hide AdminBlock.MarshalHeader, AdminBlock.MarshalEntries, AdminBlock.Consistent, ECBlock.Linked, ECBlock.Follows;
    assert AdminBlock.Follows(h, b.aSealed[0].header, b.aSealed[..0]);
    assert AdminBlock.Follows(h, b.aSealed[i].header, b.aSealed[..i]);
    if i + 1 < |b.aSealed| {
      assert AdminBlock.Follows(h, b.aSealed[i + 1].header, b.aSealed[..i + 1]);
      assert b.aSealed[..i + 1][i] == b.aSealed[i];
    }
  }

  /** The three heads of a directory block are the hashes of the blocks of its period. */
  predicate HeadsInBytes(h: Hashing, d: DirectoryBlock.Block, a: AdminBlock.Block, ec: ECBlock.Block, f: FBlock) {
    && |d.entries| >= 3 && |ec.header.expansion| < TWO_64
    && d.entries[0].chainID == ADMIN_CHAINID
    && d.entries[0].keyMR == h.sha256(AdminBlock.MarshalHeader(a.header) + AdminBlock.MarshalEntries(a.entries))
    && d.entries[1].chainID == EC_CHAINID && d.entries[1].keyMR == h.sha256(ECBlock.MarshalHeader(ec.header))
    && d.entries[2].chainID == FACTOID_CHAINID && d.entries[2].keyMR == f.hash
    && forall j :: 3 <= j < |d.entries| ==> d.entries[j].chainID !in {ADMIN_CHAINID, EC_CHAINID, FACTOID_CHAINID}
  }

  lemma HeadsAt(h: Hashing, b: Back, i: nat)
    requires AllRecorded(h, b) && i < |b.dBlocks|
    ensures |b.ecSealed| == |b.aSealed| == |b.fSealed| == |b.dBlocks|
    ensures HeadsInBytes(h, b.dBlocks[i], b.aSealed[i], b.ecSealed[i], b.fSealed[i])
    ensures b.ecSealed[i].header.ebHeight == i
        && b.ecSealed[i].header.bodyHash == h.sha256(ECBlock.MarshalBody(b.ecSealed[i].body))
    ensures b.ecSealed[i].header.objectCount == |b.ecSealed[i].body|
        && b.ecSealed[i].header.bodySize == |ECBlock.MarshalBody(b.ecSealed[i].body)|
    ensures b.aSealed[i].header.dbHeight == i && b.aSealed[i].header.messageCount == |b.aSealed[i].entries|
  {
    hide ECBlock.MarshalHeader, ECBlock.MarshalBody, AdminBlock.MarshalHeader, AdminBlock.MarshalEntries;
    assert RecordedAt(h, b, i);
  }

  /** Block i of each of the server's chains: what it says of itself, how the directory lists it, and how the
      next block of its chain, sealed or open, leads back to it. */
  predicate StandsAt(h: Hashing, b: Back, i: nat) {
    && i < |b.dBlocks| == |b.ecSealed| == |b.aSealed| == |b.fSealed|
    && var (d, ec, a) := (b.dBlocks[i], b.ecSealed[i], b.aSealed[i]);
    && d.header.dbHeight == i && ec.header.ebHeight == i && a.header.dbHeight == i
    && d.header.blockCount == |d.entries| && d.header.bodyMR == DirectoryBlock.BodyMR(h, d.entries)
    && ec.header.ecChainID == EC_CHAINID && ec.header.bodyHash == h.sha256(ECBlock.MarshalBody(ec.body))
    && ec.header.objectCount == |ec.body| && ec.header.bodySize == |ECBlock.MarshalBody(ec.body)|
    && a.header.adminChainID == ADMIN_CHAINID && a.header.messageCount == |a.entries|
    && HeadsInBytes(h, d, a, ec, b.fSealed[i])
    && var open := i + 1 == |b.dBlocks|;
    && DirLeads(h, if open then b.dNext.header else b.dBlocks[i + 1].header, d)
    && ECLeads(h, if open then b.ecNext.header else b.ecSealed[i + 1].header, ec)
    && AdminLeads(h, if open then b.aNext.header else b.aSealed[i + 1].header, a)
  }

  /** The first blocks lead nowhere. */
  predicate StartsBare(b: Back)
    requires b.ecSealed != [] && b.aSealed != []
  {
    && b.ecSealed[0].header.prevHeaderHash == ZERO_HASH && b.ecSealed[0].header.prevLedgerKeyMR == ZERO_HASH
    && b.aSealed[0].header.prevLedgerKeyMR == ZERO_HASH
  }

  lemma RecordedParts(h: Hashing, b: Back)
    requires Recorded(h, b)
    ensures AllRecorded(h, b) && OwnLinked(h, b)
  {
    hide AllRecorded, OwnLinked, TablesRight;
  }

  lemma LinksIn(h: Hashing, b: Back, i: nat)
    requires Tidy(h, b) && Recorded(h, b) && i < |b.dBlocks|
    ensures StandsAt(h, b, i) && StartsBare(b)
  {
    hide Tidy, Recorded, AllRecorded, OwnLinked, HeadsInBytes, DirLeads, ECLeads, AdminLeads, ECBlock.MarshalBody,
      DirectoryBlock.BodyMR;
    RecordedParts(h, b);
    HeadsAt(h, b, i);
    DirLinks(h, b, i);
    ECLinks(h, b, i);
    AdminLinks(h, b, i);
  }

  /** Links over a run, restarts included: in every reachable state, each block of the directory chain, the
      entry credit chain and the admin chain says what it holds and where it stands, is listed by the hash of
      its bytes, and is the one that its successor, sealed or open, leads back to by the right hashes. */
  lemma LinksOverRun(env: Env, states: seq<State>, steps: seq<Step>, n: nat, i: nat)
    requires IsRun(env, states, steps) && n < |states| && Boot(env, states[0]) && i < |states[n].back.dBlocks|
    ensures StandsAt(env.h, states[n].back, i) && StartsBare(states[n].back)
  {
    hide *;
    BootInv(env, states[0]);
    RunKeepsInv(env, states[0].front.chains.Keys, states, steps, n);
    InvParts(env, states[0].front.chains.Keys, states[n]);
    LinksIn(env.h, states[n].back, i);
  }

  lemma InvParts(env: Env, loaded: set<Digest>, s: State)
    requires Inv(env, loaded, s)
    ensures Tidy(env.h, s.back) && Recorded(env.h, s.back)
  {
    hide OpensRight, ChainsRight, BlocksCollide, AllListed, Recorded, FrontInv, TableRight, Tidy;
  }

  // ---------------------------------------------------------------- entry chains

  lemma EntryLinkInBytes(h: Hashing, hd: EBlock.Header, blocks: seq<EBlock.Block>)
    requires blocks != [] && EBlock.Follows(h, hd, blocks)
    requires var last := blocks[|blocks| - 1]; last.body != [] && EBlock.Built(h, last) == last
    ensures EntryLeads(h, hd, blocks[|blocks| - 1])
  {
    hide EBlock.KeyMR, EBlock.FullHash, EBlock.Built, EBlock.MarshalHeader, EBlock.MarshalBody, Merkle.Root;
    EBlock.LinksInBytes(h, blocks[|blocks| - 1]);
  }

  /** Block k of an entry chain. */
  predicate EntryStandsAt(h: Hashing, blocks: seq<EBlock.Block>, open: EBlock.Block, cid: Digest, k: nat) {
    && k < |blocks| && blocks[k].body != []
    && blocks[k].header.chainID == cid && blocks[k].header.ebSequence == k
    && blocks[k].header.bodyMR == Merkle.Root(h, blocks[k].body) && blocks[k].header.entryCount == |blocks[k].body|
    && (k == 0 ==> blocks[0].header.prevKeyMR == ZERO_HASH && blocks[0].header.prevLedgerKeyMR == ZERO_HASH)
    && EntryLeads(h, if k + 1 == |blocks| then open.header else blocks[k + 1].header, blocks[k])
  }

  lemma StoredIsBuilt(h: Hashing, eSealed: seq<EBlock.Block>, cid: Digest, k: nat)
    requires Storable(h, eSealed) && k < |ChainBlocks(eSealed, cid)|
    ensures var b := ChainBlocks(eSealed, cid)[k];
      0 < |b.body| < TWO_32 && EBlock.Built(h, b) == b && b.header.chainID == cid
  {
    hide ChainBlocks, EBlock.Built;
    ChainBlocksStored(eSealed, cid, k);
    ChainBlocksNamed(eSealed, cid, k);
  }

  lemma BuiltSays(h: Hashing, b: EBlock.Block)
    requires 0 < |b.body| < TWO_32 && EBlock.Built(h, b) == b
    ensures b.header.bodyMR == Merkle.Root(h, b.body) && b.header.entryCount == |b.body|
  {
    hide Merkle.Root;
  }

  lemma EntryLeadsAt(h: Hashing, blocks: seq<EBlock.Block>, open: EBlock.Header, k: nat)
    requires EBlock.Linked(h, blocks) && EBlock.Follows(h, open, blocks) && k < |blocks|
    requires blocks[k].body != [] && EBlock.Built(h, blocks[k]) == blocks[k]
    ensures EntryLeads(h, if k + 1 == |blocks| then open else blocks[k + 1].header, blocks[k])
    ensures blocks[0].header.prevKeyMR == ZERO_HASH && blocks[0].header.prevLedgerKeyMR == ZERO_HASH
  {
    hide EntryLeads, EBlock.KeyMR, EBlock.FullHash, EBlock.Built;
    assert EBlock.Follows(h, blocks[0].header, blocks[..0]);
    if k + 1 < |blocks| {
      assert EBlock.Follows(h, blocks[k + 1].header, blocks[..k + 1]);
      assert blocks[..k + 1][k] == blocks[k];
      EntryLinkInBytes(h, blocks[k + 1].header, blocks[..k + 1]);
    } else {
      EntryLinkInBytes(h, open, blocks);
    }
  }

  lemma EntryStandsByParts(h: Hashing, blocks: seq<EBlock.Block>, open: EBlock.Block, cid: Digest, k: nat)
    requires EBlock.Linked(h, blocks) && EBlock.Follows(h, open.header, blocks) && k < |blocks|
    requires 0 < |blocks[k].body| < TWO_32 && EBlock.Built(h, blocks[k]) == blocks[k]
    requires blocks[k].header.chainID == cid && blocks[k].header.ebSequence == k
    ensures EntryStandsAt(h, blocks, open, cid, k)
  {
    hide EntryLeads, EBlock.Built, EBlock.Linked, EBlock.Follows, Merkle.Root;
    EntryLeadsAt(h, blocks, open.header, k);
    BuiltSays(h, blocks[k]);
  }

  lemma NumberedAt(eSealed: seq<EBlock.Block>, cid: Digest, k: nat)
    requires Consecutive(eSealed, cid) && k < |ChainBlocks(eSealed, cid)|
    ensures ChainBlocks(eSealed, cid)[k].header.ebSequence == k
  {
    hide ChainBlocks;
  }

  lemma EntryLinksIn(h: Hashing, eSealed: seq<EBlock.Block>, cid: Digest, chain: EBlock.EChain, k: nat)
    requires Storable(h, eSealed) && LiveAt(h, eSealed, cid, chain) && k < |ChainBlocks(eSealed, cid)|
    ensures EntryStandsAt(h, ChainBlocks(eSealed, cid), chain.nextBlock, cid, k)
  {
    hide *;
    LiveFacts(h, eSealed, cid, chain);
    StoredIsBuilt(h, eSealed, cid, k);
    NumberedAt(eSealed, cid, k);
    EntryStandsByParts(h, ChainBlocks(eSealed, cid), chain.nextBlock, cid, k);
  }

  /** The same for entry chains: the stored blocks of a loaded or created chain are numbered, say what they
      hold, and lead back one to the other, the open block included; unless stored blocks collide, and except
      for ids that end in 255, whose chains start over. */
  lemma EntryLinksOverRun(env: Env, states: seq<State>, steps: seq<Step>, n: nat, cid: Digest, k: nat)
    requires IsRun(env, states, steps) && n < |states| && Boot(env, states[0]) && states[n].front.items == []
    requires cid in states[n].front.chains && (cid in states[0].front.chains || CreatedIn(states[n].front.log, cid))
    requires cid[31] < 255 && k < |ChainBlocks(states[n].back.eSealed, cid)|
    ensures || BlocksCollide(env.h, states[n].back.eSealed)
            || (EntryStandsAt(env.h, ChainBlocks(states[n].back.eSealed, cid), states[n].front.chains[cid].nextBlock,
                cid, k)
                && states[n].front.chains[cid].nextBlock.header.chainID == cid
                && states[n].front.chains[cid].nextBlockHeight == |ChainBlocks(states[n].back.eSealed, cid)|)
  {
    hide *;
    BootInv(env, states[0]);
    SettledNow(states[0].front.chains.Keys, states[n].front, cid);
    RunKeepsInv(env, states[0].front.chains.Keys, states, steps, n);
    if !BlocksCollide(env.h, states[n].back.eSealed) {
      LiveIn(env, states[0].front.chains.Keys, states[n], cid);
      LiveFacts(env.h, states[n].back.eSealed, cid, states[n].front.chains[cid]);
      EntryLinksIn(env.h, states[n].back.eSealed, cid, states[n].front.chains[cid], k);
    }
  }

  lemma LiveIn(env: Env, loaded: set<Digest>, s: State, cid: Digest)
    requires Inv(env, loaded, s) && !BlocksCollide(env.h, s.back.eSealed) && |s.front.items| <= |s.front.log|
    requires cid in s.front.chains && Owned(loaded, s.front, cid) && cid[31] < 255
    ensures Storable(env.h, s.back.eSealed) && LiveAt(env.h, s.back.eSealed, cid, s.front.chains[cid])
  {
    hide FrontInv, AllListed, Recorded, Storable, StoreAll, LiveAt, ZerosOwned, Owned, OpensRight, EntriesStored, Named,
      TableRight, BlocksCollide, DirectoryBlock.Linked, DirectoryBlock.Numbered;
    assert ChainRight(env.h, loaded, s.front, s.back.eSealed, s.back.nextDBHeight, cid);
  }

  // ---------------------------------------------------------------- published entries

  /** The entries revealed in the first n items of the history are stored. */
  predicate StoredUpTo(h: Hashing, log: seq<Item>, n: nat, entries: map<Digest, Entry>)
    requires n <= |log|
  {
    forall j :: 0 <= j < n && IsReveal(log[j]) ==> EntryHash(h, Revealed(log[j])) in entries
  }

  lemma StoredGrows(h: Hashing, f: Front, g: Front, entries: map<Digest, Entry>)
    requires Grows(f, g) && |f.items| <= |f.log| && StoredUpTo(h, f.log, |f.log| - |f.items|, entries)
    ensures |g.items| <= |g.log| && StoredUpTo(h, g.log, |g.log| - |g.items|, entries)
  {
    hide EntryHash;
    forall j | 0 <= j < |g.log| - |g.items|
      ensures g.log[j] == f.log[j]
    {
      assert g.log[..|f.log|][j] == f.log[j];
    }
  }

  lemma PeriodIsStored(env: Env, f: Front, b: Back, c: Closing, j: nat)
    requires ChainsReady(env, f, b, c) && j < |f.items| && IsReveal(f.items[j])
    ensures EntryHash(env.h, Revealed(f.items[j])) in SealAll(env, f, b, c).work.entries
  {
    hide SealAll, StoreAll, Storable, EntryHash, BuildFromProcessList, ChainsIdle, CreationsFresh;
    SealedBasics(env, f, b, c);
    IdleIsEmpty(f.chains);
    ListStoresEntries(env.h, b.db.eTables, f.rate, WorkOf(f, b), f.items);
  }

  lemma CloseStores(env: Env, loaded: set<Digest>, f: Front, b: Back, c: Closing)
    requires Ready(env, loaded, f, b, c) && |f.items| <= |f.log|
    requires StoredUpTo(env.h, f.log, |f.log| - |f.items|, b.db.entries)
    ensures var (g, b') := BuildBlocks(env, f, b, c);
      g.items == [] && g.log == f.log && StoredUpTo(env.h, g.log, |g.log|, b'.db.entries)
  {
    hide *;
    ReadyChains(env, loaded, f, b, c);
    SuffixOfReady(env, loaded, f, b, c);
    BuildBlocksShape(env, f, b, c);
    ReopenedMeans(env, f, b, c);
    OldEntriesStay(env, f, b, c);
    var off, entries := |f.log| - |f.items|, SealAll(env, f, b, c).work.entries;
    forall j | 0 <= j < |f.log| && IsReveal(f.log[j])
      ensures EntryHash(env.h, Revealed(f.log[j])) in entries
    {
      if j < off {
        StoredAt(env.h, f.log, off, b.db.entries, j);
      } else {
        SuffixAt(f, j);
        PeriodIsStored(env, f, b, c, j - off);
      }
    }
    StoredByParts(env.h, f.log, entries);
  }

  lemma StoredAt(h: Hashing, log: seq<Item>, n: nat, entries: map<Digest, Entry>, j: nat)
    requires j < n <= |log| && StoredUpTo(h, log, n, entries) && IsReveal(log[j])
    ensures EntryHash(h, Revealed(log[j])) in entries
  {
    hide EntryHash;
  }

  lemma StoredByParts(h: Hashing, log: seq<Item>, entries: map<Digest, Entry>)
    requires forall j :: 0 <= j < |log| && IsReveal(log[j]) ==> EntryHash(h, Revealed(log[j])) in entries
    ensures StoredUpTo(h, log, |log|, entries)
  {
    hide EntryHash;
  }

  lemma SuffixAt(f: Front, j: nat)
    requires Suffix(f) && |f.log| - |f.items| <= j < |f.log|
    ensures f.items[j - (|f.log| - |f.items|)] == f.log[j]
  {
  }

  lemma StepKeepsStored(env: Env, loaded: set<Digest>, s: State, step: Step)
    requires Inv(env, loaded, s) && CanStep(env, s, step) && |s.front.items| <= |s.front.log|
    requires StoredUpTo(env.h, s.front.log, |s.front.log| - |s.front.items|, s.back.db.entries)
    ensures var t := DoStep(env, s, step);
      |t.front.items| <= |t.front.log|
          && StoredUpTo(env.h, t.front.log, |t.front.log| - |t.front.items|, t.back.db.entries)
  {
    InvFront(env, loaded, s);
    hide Inv, FrontInv, Grows, StoredUpTo, Serve, CloseList, CanBuild, BuildBlocks, Ready;
    match step
    case Message(ev) =>
      GrowsByServe(env, s.front, ev);
      StoredGrows(env.h, s.front, Serve(env, s.front, ev).0, s.back.db.entries);
    case Close(order, clock, c) =>
      var f := CloseList(env, s.front, order, clock);
      GrowsByCloseList(env, loaded, ReplayBlocks(s.back.ecSealed), s.front, order, clock);
      StoredGrows(env.h, s.front, f, s.back.db.entries);
      CloseIsReady(env, loaded, s, order, clock, c);
      CloseStores(env, loaded, f, s.back, c);
  }

  lemma {:induction false} StoredThroughout(env: Env, states: seq<State>, steps: seq<Step>, n: nat)
    requires IsRun(env, states, steps) && n < |states| && Boot(env, states[0])
    ensures var (f, b) := (states[n].front, states[n].back);
      |f.items| <= |f.log| && StoredUpTo(env.h, f.log, |f.log| - |f.items|, b.db.entries)
    decreases n
  {
    hide Boot, DoStep, CanStep, Inv, StoredUpTo;
    if n == 0 {
      NothingPublished(env, states[0]);
    } else {
      StoredThroughout(env, states, steps, n - 1);
      BootInv(env, states[0]);
      RunKeepsInv(env, states[0].front.chains.Keys, states, steps, n - 1);
      StepKeepsStored(env, states[0].front.chains.Keys, states[n - 1], steps[n - 1]);
    }
  }

  lemma NothingPublished(env: Env, s: State)
    requires Boot(env, s)
    ensures s.front.items == [] && s.front.log == [] && StoredUpTo(env.h, s.front.log, 0, s.back.db.entries)
  {
    hide BackInv, ChainsAsRead, ChainsIdle;
  }

  /** The string hashed to name an entry. */
  function NameInput(h: Hashing, e: Entry): (x: Bytes)
    ensures |x| == 64 + |MarshalEntry(e)| && x[64..] == MarshalEntry(e) && NameOf(h, e) == h.sha256(x)
  {
    var wide: Bytes := h.sha512(MarshalEntry(e));
    wide + MarshalEntry(e)
  }

  /** Entries that can be paid for and have one name are equal, or the strings it is the hash of collide. */
  lemma OneName(h: Hashing, e: Entry, e': Entry)
    requires NameOf(h, e) == NameOf(h, e') && |MarshalEntry(e)| <= 35 + 10240
    ensures e == e' || Collides(h, NameInput(h, e), NameInput(h, e'))
  {
    hide NameOf, MarshalEntry, UnmarshalEntry, EntryCost;
    if NameInput(h, e) == NameInput(h, e') {
      assert MarshalEntry(e) == NameInput(h, e)[64..] == MarshalEntry(e');
      EntryCostMeaning(MarshalEntry(e));
      PayableEntryRoundTrips(e);
      PayableEntryRoundTrips(e');
    }
  }

  lemma NamedIn(env: Env, loaded: set<Digest>, s: State, x: Digest)
    requires Inv(env, loaded, s) && x in s.back.db.entries
    ensures NameOf(env.h, s.back.db.entries[x]) == x
  {
    InvParts(env, loaded, s);
    hide Inv, EntryHash, NameOf, DirectoryBlock.Linked, DirectoryBlock.Numbered, Storable, StoreAll, EntriesStored;
    NameIsHash(env.h, s.back.db.entries[x]);
  }

  /** Nothing published is lost: every entry accepted in a closed period is in the database under its name,
      unless another entry with that name is, and then the two strings that were hashed collide. */
  lemma PublishedIsStored(env: Env, states: seq<State>, steps: seq<Step>, n: nat, j: nat)
    requires IsRun(env, states, steps) && n < |states| && Boot(env, states[0])
    requires j < |states[n].front.log| - |states[n].front.items| && IsReveal(states[n].front.log[j])
    ensures var (e, entries) := (Revealed(states[n].front.log[j]), states[n].back.db.entries);
      && NameOf(env.h, e) in entries
      && (entries[NameOf(env.h, e)] == e
          || Collides(env.h, NameInput(env.h, e), NameInput(env.h, entries[NameOf(env.h, e)])))
  {
    hide *;
    var loaded, e := states[0].front.chains.Keys, Revealed(states[n].front.log[j]);
    StoredThroughout(env, states, steps, n);
    StoredAt(env.h, states[n].front.log, |states[n].front.log| - |states[n].front.items|, states[n].back.db.entries, j);
    NameIsHash(env.h, e);
    BootInv(env, states[0]);
    RunKeepsInv(env, loaded, states, steps, n);
    NamedIn(env, loaded, states[n], NameOf(env.h, e));
    RevealedSize(env, states, steps, n, j);
    OneName(env.h, e, states[n].back.db.entries[NameOf(env.h, e)]);
  }

  lemma RevealedSize(env: Env, states: seq<State>, steps: seq<Step>, n: nat, j: nat)
    requires IsRun(env, states, steps) && n < |states| && Boot(env, states[0])
    requires j < |states[n].front.log| && IsReveal(states[n].front.log[j])
    ensures |MarshalEntry(Revealed(states[n].front.log[j]))| <= 35 + 10240
  {
    hide *;
    FirstIsReveal(states[n].front.log[j]);
    RevealKinds(states[n].front.log[j]);
    if states[n].front.log[j].RevealChainItem? {
      var i := ChainsFoundedOverRun(env, states, steps, n, j);
    } else {
      var i := EntriesPaidOverRun(env, states, steps, n, j);
    }
  }

  lemma RevealKinds(i: Item)
    ensures IsReveal(i) <==> i.RevealEntryItem? || i.RevealChainItem?
  {
  }

  // ---------------------------------------------------------------- the entry credit block

  /** How many records a process list makes. */
  function Count(items: seq<Item>): nat {
    if items == [] then 0
    else
      Count(items[1..]) + match items[0]
        case CommitEntryItem(_) => 1
        case CommitChainItem(_) => 1
        case MinuteItem(_) => 1
        case FactoidItem(tx) => |tx.ecOutputs|
        case RevealEntryItem(_) => 0
        case RevealChainItem(_) => 0
  }

  lemma {:induction false} CountSplits(a: seq<Item>, b: seq<Item>)
    ensures Count(a + b) == Count(a) + Count(b)
    decreases |a|
  {
    if a == [] {
      assert a + b == b;
    } else {
      assert (a + b)[1..] == a[1..] + b;
      CountSplits(a[1..], b);
    }
  }

  lemma {:induction false} IncreasesCount(rate: u64, txid: Digest, outputs: seq<(Digest, u64)>)
    requires rate > 0
    ensures |Increases(rate, txid, outputs)| == |outputs|
    decreases |outputs|
  {
    if outputs != [] {
      IncreasesCount(rate, txid, outputs[..|outputs| - 1]);
    }
  }

  lemma SmallPlace(n: nat)
    requires n < TWO_64
    ensures n % TWO_64 == n
  {
  }

  lemma CreditsMean(amount: u64, rate: u64)
    requires rate > 0
    ensures CreditsFor(amount, rate) == ToInt32(amount / rate)
  {
  }

  lemma {:induction false} IncreaseAt(rate: u64, txid: Digest, outputs: seq<(Digest, u64)>, k: nat)
    requires rate > 0 && k < |outputs| < TWO_64
    ensures |Increases(rate, txid, outputs)| == |outputs|
    ensures Increases(rate, txid, outputs)[k]
         == ECBlock.Increase(IncreaseBalance(outputs[k].0, txid, k, CreditsFor(outputs[k].1, rate) % TWO_64))
    decreases |outputs|
  {
    hide CreditsFor;
    var n := |outputs| - 1;
    IncreasesCount(rate, txid, outputs);
    IncreasesCount(rate, txid, outputs[..n]);
    if k < n {
      IncreaseAt(rate, txid, outputs[..n], k);
    } else {
      SmallPlace(n);
    }
  }

  lemma {:induction false} CountIsLength(rate: u64, items: seq<Item>)
    requires rate > 0
    ensures |ECEntries(rate, items)| == Count(items)
    decreases |items|
  {
    if items != [] {
      var n := |items| - 1;
      CountIsLength(rate, items[..n]);
      assert items == items[..n] + [items[n]] && [items[n]][1..] == [];
      CountSplits(items[..n], [items[n]]);
      if items[n].FactoidItem? {
        IncreasesCount(rate, items[n].tx.hash, items[n].tx.ecOutputs);
      }
    }
  }

  /** The records of item i stand behind those of the items before it. */
  lemma {:induction false} RecordsOfItem(rate: u64, items: seq<Item>, i: nat)
    requires rate > 0 && i < |items|
    ensures Count(items[..i]) + |EntriesOf(rate, items[i])| <= |ECEntries(rate, items)|
    ensures ECEntries(rate, items)[Count(items[..i])..Count(items[..i]) + |EntriesOf(rate, items[i])|]
        == EntriesOf(rate, items[i])
    decreases |items|
  {
    hide EntriesOf, Count;
    var n := |items| - 1;
    var es, before := ECEntries(rate, items), ECEntries(rate, items[..n]);
    assert es == before + EntriesOf(rate, items[n]);
    if i < n {
      var at, size := Count(items[..i]), |EntriesOf(rate, items[i])|;
      RecordsOfItem(rate, items[..n], i);
      assert items[..n][..i] == items[..i];
      assert es[at..at + size] == before[at..at + size];
    } else {
      CountIsLength(rate, items[..n]);
      assert es[|before|..|es|] == EntriesOf(rate, items[n]);
    }
  }

  /** The record of output k of a purchase. */
  function Bought(rate: u64, tx: FctTx, k: nat): ECBlock.ECEntry
    requires rate > 0 && k < |tx.ecOutputs| && k < TWO_64
  {
    var (key, amount) := tx.ecOutputs[k];
    ECBlock.Increase(IncreaseBalance(key, tx.hash, k, ToInt32(amount / rate) % TWO_64))
  }

  predicate Holds(es: seq<ECBlock.ECEntry>, at: nat, e: ECBlock.ECEntry) {
    at < |es| && es[at] == e
  }

  lemma BoughtAt(rate: u64, tx: FctTx, k: nat)
    requires rate > 0 && k < |tx.ecOutputs| < TWO_64
    ensures |EntriesOf(rate, FactoidItem(tx))| == |tx.ecOutputs|
        && EntriesOf(rate, FactoidItem(tx))[k] == Bought(rate, tx, k)
  {
    hide Increases, ToInt32, CreditsFor;
    IncreaseAt(rate, tx.hash, tx.ecOutputs, k);
    CreditsMean(tx.ecOutputs[k].1, rate);
  }

  /** The records of one item stand at place `at`: a commit or minute has one, a purchase one for each output,
      and a reveal none. */
  predicate RecordsItem(es: seq<ECBlock.ECEntry>, at: nat, rate: u64, i: Item)
    requires rate > 0
  {
    match i
    case CommitEntryItem(c) => Holds(es, at, ECBlock.EntryCommit(c))
    case CommitChainItem(c) => Holds(es, at, ECBlock.ChainCommit(c))
    case MinuteItem(m) => Holds(es, at, ECBlock.Minute(m))
    case FactoidItem(tx) =>
      |tx.ecOutputs| < TWO_64 ==> forall k :: 0 <= k < |tx.ecOutputs| ==> Holds(es, at + k, Bought(rate, tx, k))
    case RevealEntryItem(_) => true
    case RevealChainItem(_) => true
  }

  /** Behind what was there, the list puts its records in the order of acceptance, and nothing else. */
  lemma RecordAt(rate: u64, before: seq<ECBlock.ECEntry>, items: seq<Item>, i: nat)
    requires rate > 0 && i < |items|
    ensures |before + ECEntries(rate, items)| == |before| + Count(items)
    ensures RecordsItem(before + ECEntries(rate, items), |before| + Count(items[..i]), rate, items[i])
  {
    hide ECEntries, Count, Bought, Increases;
    CountIsLength(rate, items);
    RecordsOfItem(rate, items, i);
    var es, at := before + ECEntries(rate, items), |before| + Count(items[..i]);
    var mine := ECEntries(rate, items)[Count(items[..i])..Count(items[..i]) + |EntriesOf(rate, items[i])|];
    match items[i]
    case FactoidItem(tx) =>
      if |tx.ecOutputs| < TWO_64 {
        forall k | 0 <= k < |tx.ecOutputs|
          ensures Holds(es, at + k, Bought(rate, tx, k))
        {
          BoughtAt(rate, tx, k);
          assert mine[k] == es[at + k];
        }
      }
    case RevealEntryItem(_) =>
    case RevealChainItem(_) =>
    case _ => assert mine[0] == es[at];
  }

  // ---------------------------------------------------------------- the admin block

  /** The minute is that of the first marker on the list. */
  predicate FirstMarker(items: seq<Item>, m: byte) {
    exists k :: 0 <= k < |items| && items[k] == MinuteItem(m) && forall j :: 0 <= j < k ==> !items[j].MinuteItem?
  }

  predicate Takes(es: seq<AdminBlock.ABEntry>) {
    es != [] && !es[|es| - 1].EndOfMinute?
  }

  /** What a list does to the entries of the admin block: if they do not end in a marker, its first marker is
      added, and nothing else. */
  predicate Marked(es: seq<AdminBlock.ABEntry>, items: seq<Item>, after: seq<AdminBlock.ABEntry>) {
    if Takes(es) && (exists j :: 0 <= j < |items| && items[j].MinuteItem?) then
      exists m :: FirstMarker(items, m) && after == es + [AdminBlock.EndOfMinute(m)]
    else after == es
  }

  lemma ItemOnAdmin(h: Hashing, t: Tables, rate: u64, w: Work, before: seq<Item>, i: Item)
    requires rate > 0 && (IsReveal(i) ==> Revealed(i).chainID in w.chains)
    ensures BuildItem(h, t, rate, w, before, i).abEntries
         == if i.MinuteItem? && Takes(w.abEntries) then w.abEntries + [AdminBlock.EndOfMinute(i.minute)] else w.abEntries
  {
    hide InitEChainFromDB, EntryHash, EntriesOf, MarkChains;
  }

  lemma MarkedSnoc(es: seq<AdminBlock.ABEntry>, items: seq<Item>, i: Item, mid: seq<AdminBlock.ABEntry>,
      after: seq<AdminBlock.ABEntry>)
    requires Marked(es, items, mid)
    requires after == if i.MinuteItem? && Takes(mid) then mid + [AdminBlock.EndOfMinute(i.minute)] else mid
    ensures Marked(es, items + [i], after)
  {
    var all := items + [i];
    if Takes(es) {
      if j :| 0 <= j < |items| && items[j].MinuteItem? {
        var m :| FirstMarker(items, m) && mid == es + [AdminBlock.EndOfMinute(m)];
        var k :| 0 <= k < |items| && items[k] == MinuteItem(m) && forall j :: 0 <= j < k ==> !items[j].MinuteItem?;
        assert all[k] == items[k] && all[j] == items[j];
        assert FirstMarker(all, m);
      } else if i.MinuteItem? {
        assert all[|items|] == i;
        assert FirstMarker(all, i.minute);
      }
    }
  }

  lemma {:induction false} ListMarks(h: Hashing, t: Tables, rate: u64, w: Work, items: seq<Item>)
    requires rate > 0 && ChainsKnown(items, w.chains)
    ensures Marked(w.abEntries, items, BuildFromProcessList(h, t, rate, w, items).abEntries)
    decreases |items|
  {
    hide BuildItem, Marked;
    if items == [] {
      NothingMarked(w.abEntries);
    } else {
      var n := |items| - 1;
      ListMarks(h, t, rate, w, items[..n]);
      var v := BuildFromProcessList(h, t, rate, w, items[..n]);
      ItemOnAdmin(h, t, rate, v, items[..n], items[n]);
      assert items == items[..n] + [items[n]];
      MarkedSnoc(w.abEntries, items[..n], items[n], v.abEntries,
          BuildItem(h, t, rate, v, items[..n], items[n]).abEntries);
    }
  }

  lemma NothingMarked(es: seq<AdminBlock.ABEntry>)
    ensures Marked(es, [], es)
  {
  }

  // ---------------------------------------------------------------- one period

  /** Behind what was there stand the records of every item, in order, and nothing else. */
  predicate RecordsList(before: seq<ECBlock.ECEntry>, rate: u64, items: seq<Item>, body: seq<ECBlock.ECEntry>)
    requires rate > 0
  {
    && before <= body && |body| == |before| + Count(items)
    && forall i :: 0 <= i < |items| ==> RecordsItem(body, |before| + Count(items[..i]), rate, items[i])
  }

  /** What closing a block with list `items` at exchange rate `rate` turns the open blocks into. */
  predicate PeriodOf(b: Back, b': Back, rate: u64, items: seq<Item>, c: Closing)
    requires rate > 0
  {
    && b'.dBlocks != [] && b'.ecSealed != [] && b'.aSealed != [] && b'.fSealed == b.fSealed + [c.fBlock]
    && var (d, ec, a) := (b'.dBlocks[|b'.dBlocks| - 1], b'.ecSealed[|b'.ecSealed| - 1], b'.aSealed[|b'.aSealed| - 1]);
    && d.header.networkID == c.networkID && d.header.timestamp == c.timestamp
    && RecordsList(b.ecNext.body, rate, items, ec.body)
    && b'.ecNext.body == [ECBlock.ServerIndex(0)]
    && Marked(b.aNext.entries, items, a.entries)
    && b'.aNext.entries == [AdminBlock.DBSignature(ZERO_HASH, c.pubKey, c.sign(DirectoryBlock.MarshalHeader(d.header)))]
  }

  lemma RecordsOfList(rate: u64, before: seq<ECBlock.ECEntry>, items: seq<Item>, body: seq<ECBlock.ECEntry>)
    requires rate > 0 && body == before + ECEntries(rate, items) && items != []
    ensures RecordsList(before, rate, items, body)
  {
    hide ECEntries, Count, RecordsItem;
    RecordAt(rate, before, items, 0);
    forall i | 0 <= i < |items|
      ensures RecordsItem(body, |before| + Count(items[..i]), rate, items[i])
    {
      RecordAt(rate, before, items, i);
    }
  }

  lemma SealedDirSays(h: Hashing, open: DirectoryBlock.Block, networkID: u32, timestamp: u32, next: nat)
    ensures SealDBlock(h, open, networkID, timestamp, next).0.header.networkID == networkID
    ensures SealDBlock(h, open, networkID, timestamp, next).0.header.timestamp == timestamp
  {
    hide DirectoryBlock.BodyMR, DirectoryBlock.KeyMR, DirectoryBlock.DBHash;
  }

  lemma SealedECSays(h: Hashing, open: ECBlock.Block)
    requires ECBlock.Sizable(open)
    ensures SealECBlock(h, open).0.body == open.body && SealECBlock(h, open).1.body == [ECBlock.ServerIndex(0)]
  {
    hide ECBlock.Sizable, ECBlock.NextECBlock;
  }

  lemma SealedAdminSays(open: AdminBlock.Block)
    requires |open.header.expansion| == open.header.expansionSize && |open.entries| < TWO_32
    ensures AdminBlock.Sealed(open).entries == open.entries
  {
  }

  lemma ListFacts(env: Env, f: Front, b: Back, c: Closing)
    requires CanBuild(env, f, b, c)
    ensures f.rate > 0 && ChainsKnown(f.items, f.chains) && |b.aNext.header.expansion| == b.aNext.header.expansionSize
    ensures WorkOf(f, b).chains == f.chains && WorkOf(f, b).abEntries == b.aNext.entries
        && WorkOf(f, b).ecBody == b.ecNext.body
  {
    hide CreationsReadable, ECBlock.Sizable, KeysMatch, ChainsKnown;
  }

  lemma PeriodByParts(env: Env, f: Front, b: Back, c: Closing)
    requires CanBuild(env, f, b, c) && f.items != []
    ensures f.rate > 0 && PeriodOf(b, BuildBlocks(env, f, b, c).1, f.rate, f.items, c)
  {
    hide *;
    ListFacts(env, f, b, c);
    SealAllParts(env, f, b, c);
    BuildBlocksShape(env, f, b, c);
    var s, w := SealAll(env, f, b, c), WorkOf(f, b);
    BuildGrowsBodies(env.h, b.db.eTables, f.rate, w, f.items);
    ListMarks(env.h, b.db.eTables, f.rate, w, f.items);
    RecordsOfList(f.rate, b.ecNext.body, f.items, s.work.ecBody);
    SealedECSays(env.h, b.ecNext.(body := s.work.ecBody));
    SealedAdminSays(b.aNext.(entries := s.work.abEntries));
    SealedDirSays(env.h, b.dNext.(entries := s.seal.dbEntries), c.networkID, c.timestamp, b.nextDBHeight + 1);
    PeriodMeans(b, BuildBlocks(env, f, b, c).1, f.rate, f.items, c, s);
  }

  lemma PeriodMeans(b: Back, b': Back, rate: u64, items: seq<Item>, c: Closing, s: Sealed)
    requires rate > 0
    requires b'.dBlocks == b.dBlocks + [s.dir] && b'.ecSealed == b.ecSealed + [s.ec]
        && b'.aSealed == b.aSealed + [s.admin]
    requires b'.fSealed == b.fSealed + [c.fBlock]
    requires s.dir.header.networkID == c.networkID && s.dir.header.timestamp == c.timestamp
    requires RecordsList(b.ecNext.body, rate, items, s.ec.body)
    requires b'.ecNext.body == [ECBlock.ServerIndex(0)] && Marked(b.aNext.entries, items, s.admin.entries)
    requires b'.aNext.entries
        == [AdminBlock.DBSignature(ZERO_HASH, c.pubKey, c.sign(DirectoryBlock.MarshalHeader(s.dir.header)))]
    ensures PeriodOf(b, b', rate, items, c)
  {
    hide RecordsList, Marked, DirectoryBlock.MarshalHeader;
    assert b'.dBlocks[|b'.dBlocks| - 1] == s.dir && b'.ecSealed[|b'.ecSealed| - 1] == s.ec;
  }

  /** Over a run: whenever a block closes, the entry credit block records every commit, minute and purchase of
      the period once, in the order of acceptance; the admin block its first minute; the next admin block
      starts with the signature of the new directory block; and the list has ended with minute 10. */
  lemma PeriodOverRun(env: Env, states: seq<State>, steps: seq<Step>, n: nat)
    requires IsRun(env, states, steps) && n < |steps| && Boot(env, states[0]) && steps[n].Close?
    ensures var f := CloseList(env, states[n].front, steps[n].order, steps[n].clock);
      && f.items != [] && f.items[|f.items| - 1] == MinuteItem(10) && f.rate > 0
      && PeriodOf(states[n].back, states[n + 1].back, f.rate, f.items, steps[n].closing)
      && states[n + 1].front.items == [] && states[n + 1].front.log == f.log && states[n + 1].front.credits == f.credits
      && states[n + 1].front.rate == steps[n].closing.rate
  {
    hide Boot, PeriodOf, ProcessFromOrphanPool, BuildBlocks, CanBuild, Inv;
    var f := CloseList(env, states[n].front, steps[n].order, steps[n].clock);
    assert CanStep(env, states[n], steps[n]);
    PeriodByParts(env, f, states[n].back, steps[n].closing);
    BuildBlocksShape(env, f, states[n].back, steps[n].closing);
  }
}
