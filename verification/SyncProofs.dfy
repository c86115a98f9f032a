/** What a client's database always satisfies while it catches up: no gaps, and everything that a
    stored directory block refers to is stored, before anything is cleared from the pool. */
module SyncProofs {
  import opened Basics
  import opened Entries
  import opened EntryStore
  import opened Builder
  import opened ECLedger
  import opened BuildProofs
  import opened ServerBlocks
  import opened Signatures
  import opened Validator
  import opened SyncUp
  import Merkle
  import ProcessList
  import EBlock
  import ECBlock
  import AdminBlock
  import DirectoryBlock

  // ---------------------------------------------------------------- the client as a state machine

  datatype ClientStep = Arrive(m: PoolMsg) | Check | Save | Clean

  ghost predicate CanDo(h: Hashing, c: ClientState, step: ClientStep) {
    match step
    case Arrive(m) => Decoded(m)
    case Check => c.phase.Idle? && c.disk.height >= -1
    case Save => c.phase.Checked?
    case Clean => c.phase.Saved?
  }

  ghost function Do(h: Hashing, t: Trust, c: ClientState, step: ClientStep): ClientState
    requires CanDo(h, c, step)
  {
    match step
    case Arrive(m) => OnArrival(h, c, m)
    case Check => OnCheck(h, t, c)
    case Save => OnSave(h, c)
    case Clean => OnClean(c)
  }

  ghost predicate IsSync(h: Hashing, t: Trust, states: seq<ClientState>, steps: seq<ClientStep>) {
    && |states| == |steps| + 1
    && forall i :: 0 <= i < |steps| ==> CanDo(h, states[i], steps[i]) && states[i + 1] == Do(h, t, states[i], steps[i])
  }

  // ---------------------------------------------------------------- the invariant

  predicate MsgRight(h: Hashing, k: PoolKey, m: PoolMsg) {
    && Decoded(m) && (m.EMsg? ==> m.eBlock.body != [] && EBlock.Built(h, m.eBlock) == m.eBlock)
    && OwnKey(h, m) == k
  }

  /** Every message is in the pool under its own hash. */
  predicate WellKeyed(h: Hashing, pool: Pool) {
    forall k :: k in pool ==> MsgRight(h, k, pool[k])
  }

  predicate SlotsRight(blocks: seq<Option<DirectoryBlock.Block>>) {
    forall i :: 0 <= i < |blocks| && blocks[i].Some? ==> blocks[i].value.header.dbHeight == i
  }

  /** The stored heights are 0 to the newest, without a gap. */
  ghost predicate GapFree(d: Disk) {
    && d.height >= -1
    && (forall k :: k in d.dBlocks <==> 0 <= k <= d.height)
    && (forall k :: k in d.dBlocks ==> d.dBlocks[k].header.dbHeight == k)
  }

  predicate AllStored(h: Hashing, d: Disk, b: DirectoryBlock.Block) {
    forall j :: 0 <= j < |b.entries| ==> Listed(h, d.db, d.eStored, b.entries[j])
  }

  /** Everything that a stored directory block lists is stored, and so is every entry of every stored
      entry block. */
  predicate Closed(h: Hashing, d: Disk) {
    Stocked(h, d.db, d.eStored) && forall k :: k in d.dBlocks ==> AllStored(h, d, d.dBlocks[k])
  }

  // Entry credit blocks are another matter: writing one builds its header first (process/syncup.go:303-308,
  // common/ecblock.go:80-101), so what is stored need not have the key that the block came under.

  predicate CameAs(h: Hashing, ec: ECBlock.Block, key: Digest) {
    ECBlock.Sizable(ec) && ECBlock.HeaderHash(h, ec) == key
  }

  predicate WrittenAs(h: Hashing, ec: ECBlock.Block, key: Digest) {
    ECBlock.Sizable(ec) && ECBlock.HeaderHash(h, ECBlock.Built(h, ec)) == key
  }

  predicate Came(h: Hashing, ecs: seq<ECBlock.Block>, key: Digest) {
    exists i :: 0 <= i < |ecs| && CameAs(h, ecs[i], key)
  }

  predicate Written(h: Hashing, ecs: seq<ECBlock.Block>, key: Digest) {
    exists i :: 0 <= i < |ecs| && WrittenAs(h, ecs[i], key)
  }

  ghost predicate ECTableRight(h: Hashing, d: Disk) {
    && (forall i :: 0 <= i < |d.ecStored| ==> ECBlock.Sizable(d.ecStored[i]))
    && (forall key :: key in d.db.ecBlocks <==> Written(h, d.ecStored, key))
  }

  /** The part is stored; an entry credit block at least came under the listed key, and was written. */
  predicate Kept(h: Hashing, d: Disk, e: DirectoryBlock.DBEntry) {
    if e.chainID == EC_CHAINID then Came(h, d.ecStored, e.keyMR) else Listed(h, d.db, d.eStored, e)
  }

  predicate AllKept(h: Hashing, d: Disk, b: DirectoryBlock.Block) {
    forall j :: 0 <= j < |b.entries| ==> Kept(h, d, b.entries[j])
  }

  ghost predicate Keeps(h: Hashing, d: Disk) {
    Stocked(h, d.db, d.eStored) && ECTableRight(h, d) && forall k :: k in d.dBlocks ==> AllKept(h, d, d.dBlocks[k])
  }

  predicate PartAtHand(pool: Pool, entries: map<Digest, Entry>, e: DirectoryBlock.DBEntry) {
    && ByHash(e.keyMR) in pool
    && (!OwnChain(e.chainID) ==>
          pool[ByHash(e.keyMR)].EMsg? && BodyAtHand(pool, entries, pool[ByHash(e.keyMR)].eBlock.body))
  }

  predicate KeysThere(pool: Pool, es: seq<DirectoryBlock.DBEntry>) {
    forall j :: 0 <= j < |es| ==> ByHash(es[j].keyMR) in pool
  }

  predicate AllAtHand(pool: Pool, entries: map<Digest, Entry>, es: seq<DirectoryBlock.DBEntry>) {
    forall j :: 0 <= j < |es| ==> PartAtHand(pool, entries, es[j])
  }

  predicate PhaseRight(h: Hashing, c: ClientState) {
    match c.phase
    case Checked(b, snap) =>
      && b.header.dbHeight == c.disk.height + 1
      && WellKeyed(h, snap) && snap.Keys <= c.pool.Keys && AllAtHand(snap, c.disk.db.entries, b.entries)
    case Saved(b) => c.disk.height in c.disk.dBlocks && c.disk.dBlocks[c.disk.height] == b && KeysThere(c.pool, b.entries)
    case _ => true
  }

  ghost predicate SyncInv(h: Hashing, c: ClientState) {
    && WellKeyed(h, c.pool) && SlotsRight(c.blocks)
    && GapFree(c.disk) && Keeps(h, c.disk) && c.disk.credits == ReplayBlocks(c.disk.ecStored)
    && PhaseRight(h, c)
  }

  /** A client with nothing, as the constructor of Client makes it. */
  lemma EmptyClient(h: Hashing)
    ensures SyncInv(h, ClientState(map[], [], EmptyDisk(), Idle))
  {
    assert StoreAll(h, []) == NoTables;
    assert ReplayBlocks([]) == map[];
  }

  // ---------------------------------------------------------------- arrivals

  lemma AddKeepsKeys(h: Hashing, pool: Pool, m: PoolMsg)
    requires WellKeyed(h, pool) && Decoded(m)
    requires (m.EMsg? ==> m.eBlock.body != [] && EBlock.Built(h, m.eBlock) == m.eBlock)
    ensures WellKeyed(h, AddBlockMsg(pool, OwnKey(h, m), m)) && pool.Keys <= AddBlockMsg(pool, OwnKey(h, m), m).Keys
  {
    hide OwnKey, EBlock.Built, Decoded;
  }

  /** Building a header twice is building it once, and does not change the key. */
  lemma BuiltIsBuilt(h: Hashing, eb: EBlock.Block)
    requires eb.body != []
    ensures EBlock.Built(h, EBlock.Built(h, eb)) == EBlock.Built(h, eb)
    ensures EBlock.KeyMR(h, EBlock.Built(h, eb)) == EBlock.KeyMR(h, eb)
  {
    hide Merkle.Root, EBlock.MarshalHeader;
  }

  lemma ArriveKeepsInv(h: Hashing, c: ClientState, m: PoolMsg)
    requires SyncInv(h, c) && CanDo(h, c, Arrive(m))
    ensures SyncInv(h, OnArrival(h, c, m))
  {
    hide Keeps, GapFree, WellKeyed, AllAtHand, ReplayBlocks, EBlock.Built, EBlock.KeyMR, AddBlockMsg,
      Decoded;
    match m
    case DirMsg(b) => AddKeepsKeys(h, c.pool, m);
    case EMsg(eb) =>
      if eb.body != [] {
        BuiltIsBuilt(h, eb);
        DecodedBuilt(h, eb);
        assert OwnKey(h, EMsg(EBlock.Built(h, eb))) == OwnKey(h, m);
        AddKeepsKeys(h, c.pool, EMsg(EBlock.Built(h, eb)));
      }
    case _ => AddKeepsKeys(h, c.pool, m);
  }

  lemma DecodedBuilt(h: Hashing, eb: EBlock.Block)
    requires eb.body != [] && Decoded(EMsg(eb))
    ensures Decoded(EMsg(EBlock.Built(h, eb)))
  {
  }

  // ---------------------------------------------------------------- checking

  lemma {:induction false} YesMeansAtHand(t: Trust, pool: Pool, blocks: seq<Option<DirectoryBlock.Block>>,
                                          entries: map<Digest, Entry>, es: seq<DirectoryBlock.DBEntry>)
    requires PartsAnswer(t, pool, blocks, entries, es) == Yes
    ensures AllAtHand(pool, entries, es)
    decreases |es|
  {
    hide SignatureAnswer, BodyAtHand;
    if es != [] {
      YesMeansAtHand(t, pool, blocks, entries, es[..|es| - 1]);
      var n := |es| - 1;
      forall j | 0 <= j < |es|
        ensures PartAtHand(pool, entries, es[j])
      {
        if j < n {
          assert es[..n][j] == es[j];
        }
      }
    }
  }

  lemma CheckKeepsInv(h: Hashing, t: Trust, c: ClientState)
    requires SyncInv(h, c) && c.phase.Idle?
    ensures SyncInv(h, OnCheck(h, t, c))
  {
    hide Keeps, WellKeyed, AllAtHand, ReplayBlocks, PartsAnswer, DirectoryBlock.DBHash;
    var next := NextBlock(c.blocks, c.disk.height);
    if next.Some? && BlockAnswer(h, t, c.pool, c.blocks, c.disk.db.entries, next.value) == Yes {
      YesMeansAtHand(t, c.pool, c.blocks, c.disk.db.entries, next.value.entries);
    }
  }

  // ---------------------------------------------------------------- storing

  /** What storing parts never undoes. */
  predicate DiskGrows(d: Disk, e: Disk) {
    && e.dBlocks == d.dBlocks && e.height == d.height
    && d.db.ecBlocks.Keys <= e.db.ecBlocks.Keys && d.db.aBlocks.Keys <= e.db.aBlocks.Keys
        && d.db.fBlocks.Keys <= e.db.fBlocks.Keys
    && d.db.entries.Keys <= e.db.entries.Keys
    && |d.eStored| <= |e.eStored| && e.eStored[..|d.eStored|] == d.eStored
    && |d.ecStored| <= |e.ecStored| && e.ecStored[..|d.ecStored|] == d.ecStored
  }

  lemma GrowsThenGrows(d: Disk, e: Disk, f: Disk)
    requires DiskGrows(d, e) && DiskGrows(e, f)
    ensures DiskGrows(d, f)
  {
    assert f.eStored[..|d.eStored|] == f.eStored[..|e.eStored|][..|d.eStored|];
    assert f.ecStored[..|d.ecStored|] == f.ecStored[..|e.ecStored|][..|d.ecStored|];
  }

  lemma {:induction false} InsertedEntries(h: Hashing, pool: Pool, entries: map<Digest, Entry>, body: seq<Digest>)
    requires WellKeyed(h, pool)
    ensures var (after, ok) := InsertEntries(h, pool, entries, body);
      && entries.Keys <= after.Keys
      && (ok ==> forall k :: 0 <= k < |body| && ByHash(body[k]) in pool ==> body[k] in after)
    decreases |body|
  {
    hide EntryHash, EBlock.KeyMR, AdminBlock.PartialHash, ECBlock.HeaderHash, EBlock.Built;
    if body != [] {
      var n := |body| - 1;
      InsertedEntries(h, pool, entries, body[..n]);
      if ByHash(body[n]) in pool {
        assert MsgRight(h, ByHash(body[n]), pool[ByHash(body[n])]);
      }
      assert forall k :: 0 <= k < n ==> body[..n][k] == body[k];
    }
  }

  lemma InsertedBody(h: Hashing, pool: Pool, entries: map<Digest, Entry>, body: seq<Digest>)
    requires WellKeyed(h, pool) && BodyAtHand(pool, entries, body) && InsertEntries(h, pool, entries, body).1
    ensures BodyStored(body, InsertEntries(h, pool, entries, body).0)
  {
    hide WellKeyed, EBlock.IsMinuteMarker, InsertEntries;
    InsertedEntries(h, pool, entries, body);
    forall k | 0 <= k < |body|
      ensures EBlock.IsMinuteMarker(body[k]) || body[k] in InsertEntries(h, pool, entries, body).0
    {
      assert EntryAtHand(pool, entries, body[k]);
    }
  }

  lemma StockedGrows(h: Hashing, db: Db, db': Db, bs: seq<EBlock.Block>)
    requires Stocked(h, db, bs) && db'.eTables == db.eTables && db.entries.Keys <= db'.entries.Keys
    ensures Stocked(h, db', bs)
  {
    hide StoreAll, Storable, EBlock.IsMinuteMarker;
    forall j | 0 <= j < |bs|
      ensures BodyStored(bs[j].body, db'.entries)
    {
      assert BodyStored(bs[j].body, db.entries);
    }
  }

  lemma StockedOneMore(h: Hashing, db: Db, bs: seq<EBlock.Block>, eb: EBlock.Block)
    requires Stocked(h, db, bs) && 0 < |eb.body| < TWO_32 && EBlock.Built(h, eb) == eb
    requires BodyStored(eb.body, db.entries)
    ensures Stocked(h, db.(eTables := StoreEBlock(h, db.eTables, eb)), bs + [eb])
  {
    hide StoreEBlock, BodyStored, EBlock.Built;
    var all := bs + [eb];
    assert all[..|all| - 1] == bs;
    forall j | 0 <= j < |all|
      ensures 0 < |all[j].body| < TWO_32 && EBlock.Built(h, all[j]) == all[j] && BodyStored(all[j].body, db.entries)
    {
      if j < |bs| {
        assert all[j] == bs[j];
      }
    }
  }

  lemma StoreEntryBlockKeeps(h: Hashing, pool: Pool, d: Disk, key: Digest)
    requires WellKeyed(h, pool) && Stocked(h, d.db, d.eStored)
    requires ByHash(key) in pool && pool[ByHash(key)].EMsg?
    requires BodyAtHand(pool, d.db.entries, pool[ByHash(key)].eBlock.body)
    ensures var (e, ok) := StoreEntryBlock(h, pool, d, pool[ByHash(key)].eBlock);
      && Stocked(h, e.db, e.eStored) && DiskGrows(d, e) && e.credits == d.credits && e.ecStored == d.ecStored
          && e.db.ecBlocks == d.db.ecBlocks
      && (ok ==> exists j :: 0 <= j < |e.eStored| && e.eStored[j].body != [] && EBlock.KeyMR(h, e.eStored[j]) == key)
  {
    hide Stocked, InsertEntries, BodyAtHand, BodyStored, StoreEBlock, EBlock.KeyMR, EBlock.Built,
      AdminBlock.PartialHash, ECBlock.HeaderHash;
    var eb := pool[ByHash(key)].eBlock;
    assert MsgRight(h, ByHash(key), pool[ByHash(key)]);
    var (entries, ok) := InsertEntries(h, pool, d.db.entries, eb.body);
    InsertedEntries(h, pool, d.db.entries, eb.body);
    var db1 := d.db.(entries := entries);
    StockedGrows(h, d.db, db1, d.eStored);
    if ok {
      InsertedBody(h, pool, d.db.entries, eb.body);
      StockedOneMore(h, db1, d.eStored, eb);
      var db2 := db1.(eTables := StoreEBlock(h, db1.eTables, eb));
      assert (d.eStored + [eb])[|d.eStored|] == eb;
      if eb.header.ebSequence == 0 && eb.body[0] in entries {
        StockedGrows(h, db2, db2.(chains := db2.chains[eb.header.chainID := entries[eb.body[0]]]), d.eStored + [eb]);
      }
    }
  }

  lemma ECTableGrows(h: Hashing, d: Disk, ec: ECBlock.Block, e: Disk)
    requires ECTableRight(h, d) && ECBlock.Sizable(ec) && e.ecStored == d.ecStored + [ec]
    requires e.db.ecBlocks == d.db.ecBlocks[ECBlock.HeaderHash(h, ECBlock.Built(h, ec)) := ECBlock.Built(h, ec)]
    ensures ECTableRight(h, e)
  {
    hide ECBlock.HeaderHash, ECBlock.Built, ECBlock.Sizable;
    forall key
      ensures key in e.db.ecBlocks <==> Written(h, e.ecStored, key)
    {
      assert e.ecStored[|d.ecStored|] == ec;
      if i :| 0 <= i < |d.ecStored| && WrittenAs(h, d.ecStored[i], key) {
        assert WrittenAs(h, e.ecStored[i], key);
      }
      if i :| 0 <= i < |e.ecStored| && WrittenAs(h, e.ecStored[i], key) && i < |d.ecStored| {
        assert WrittenAs(h, d.ecStored[i], key);
      }
    }
  }

  /** An entry credit block is written under the hash of its built header. */
  lemma StoreECPartKeeps(h: Hashing, pool: Pool, d: Disk, e: DirectoryBlock.DBEntry)
    requires WellKeyed(h, pool) && ECTableRight(h, d) && e.chainID == EC_CHAINID && ByHash(e.keyMR) in pool
    requires pool[ByHash(e.keyMR)].ECMsg?
    ensures var (d', ok) := StorePart(h, pool, d, e);
      && ok && ECTableRight(h, d') && Came(h, d'.ecStored, e.keyMR) && DiskGrows(d, d')
      && d' == d.(db := d'.db, credits := d'.credits, ecStored := d'.ecStored)
          && d'.db == d.db.(ecBlocks := d'.db.ecBlocks)
      && (d.credits == ReplayBlocks(d.ecStored) ==> d'.credits == ReplayBlocks(d'.ecStored))
  {
    hide ECTableRight, StoreEntryBlock, EBlock.KeyMR, EBlock.Built, AdminBlock.PartialHash, ECBlock.HeaderHash,
      ECBlock.Built, ECBlock.Sizable, Replay, AdminBlock.Consistent;
    var ec := pool[ByHash(e.keyMR)].ec;
    assert MsgRight(h, ByHash(e.keyMR), pool[ByHash(e.keyMR)]);
    var d' := StorePart(h, pool, d, e).0;
    assert d'.ecStored == d.ecStored + [ec];
    assert d'.ecStored[..|d.ecStored|] == d.ecStored && d'.ecStored[|d.ecStored|] == ec;
    assert CameAs(h, d'.ecStored[|d.ecStored|], e.keyMR);
    ECTableGrows(h, d, ec, d');
  }

  /** The parts of the server's other two chains. */
  lemma StoreOwnPartKeeps(h: Hashing, pool: Pool, d: Disk, e: DirectoryBlock.DBEntry)
    requires WellKeyed(h, pool) && OwnChain(e.chainID)
    requires !(e.chainID == EC_CHAINID && ByHash(e.keyMR) in pool && pool[ByHash(e.keyMR)].ECMsg?)
    ensures var (d', ok) := StorePart(h, pool, d, e);
      && DiskGrows(d, d') && d' == d.(db := d'.db) && d'.db == d.db.(aBlocks := d'.db.aBlocks, fBlocks := d'.db.fBlocks)
      && (ok ==> Kept(h, d', e))
  {
    hide StoreEntryBlock, EBlock.KeyMR, EBlock.Built, AdminBlock.PartialHash, ECBlock.HeaderHash, Came,
      ECBlock.Built, ECBlock.Sizable, Replay, AdminBlock.Consistent;
    ChainIDsDiffer();
    var key := ByHash(e.keyMR);
    if key in pool {
      assert MsgRight(h, key, pool[key]);
    }
  }

  lemma ECTableSame(h: Hashing, d: Disk, e: Disk)
    requires ECTableRight(h, d) && e.db.ecBlocks == d.db.ecBlocks && e.ecStored == d.ecStored
    ensures ECTableRight(h, e)
  {
    hide Written, ECBlock.Sizable;
  }

  lemma StorePartKeeps(h: Hashing, pool: Pool, d: Disk, e: DirectoryBlock.DBEntry)
    requires WellKeyed(h, pool) && Stocked(h, d.db, d.eStored) && ECTableRight(h, d)
    requires ByHash(e.keyMR) in pool && !OwnChain(e.chainID) && pool[ByHash(e.keyMR)].EMsg? ==>
      BodyAtHand(pool, d.db.entries, pool[ByHash(e.keyMR)].eBlock.body)
    ensures var (d', ok) := StorePart(h, pool, d, e);
      && Stocked(h, d'.db, d'.eStored) && ECTableRight(h, d') && DiskGrows(d, d')
      && (d.credits == ReplayBlocks(d.ecStored) ==> d'.credits == ReplayBlocks(d'.ecStored))
      && (ok ==> Kept(h, d', e))
  {
    hide WellKeyed, Stocked, ECTableRight, StoreEntryBlock, EBlock.KeyMR, BodyAtHand, AdminBlock.PartialHash,
      ECBlock.HeaderHash, ECBlock.Built, ECBlock.Sizable, Replay, Came;
    var key := ByHash(e.keyMR);
    var d' := StorePart(h, pool, d, e).0;
    if e.chainID == EC_CHAINID && key in pool && pool[key].ECMsg? {
      StoreECPartKeeps(h, pool, d, e);
      StockedGrows(h, d.db, d'.db, d.eStored);
    } else if OwnChain(e.chainID) {
      StoreOwnPartKeeps(h, pool, d, e);
      StockedGrows(h, d.db, d'.db, d.eStored);
      ECTableSame(h, d, d');
    } else if key in pool && pool[key].EMsg? {
      StoreEntryBlockKeeps(h, pool, d, e.keyMR);
      assert StorePart(h, pool, d, e) == StoreEntryBlock(h, pool, d, pool[key].eBlock);
      ECTableSame(h, d, d');
    } else {
      assert StorePart(h, pool, d, e) == (d, false);
    }
  }

  /** No entry block that was there when the check passed has been replaced by another. */
  predicate SameBlocks(snap: Pool, pool: Pool, es: seq<DirectoryBlock.DBEntry>) {
    forall j :: 0 <= j < |es| ==> SameBlock(snap, pool, es[j])
  }

  predicate SameBlock(snap: Pool, pool: Pool, e: DirectoryBlock.DBEntry) {
    var key := ByHash(e.keyMR);
    !OwnChain(e.chainID) && key in snap && key in pool && snap[key].EMsg? && pool[key].EMsg? ==> pool[key] == snap[key]
  }

  lemma StillAtHand(snap: Pool, pool: Pool, entries: map<Digest, Entry>, entries': map<Digest, Entry>,
                    body: seq<Digest>)
    requires BodyAtHand(snap, entries, body) && snap.Keys <= pool.Keys && entries.Keys <= entries'.Keys
    ensures BodyAtHand(pool, entries', body)
  {
    hide EBlock.IsMinuteMarker;
    forall k | 0 <= k < |body|
      ensures EntryAtHand(pool, entries', body[k])
    {
      assert EntryAtHand(snap, entries, body[k]);
    }
  }

  lemma CameStays(h: Hashing, ecs: seq<ECBlock.Block>, ecs': seq<ECBlock.Block>, key: Digest)
    requires Came(h, ecs, key) && |ecs| <= |ecs'| && ecs'[..|ecs|] == ecs
    ensures Came(h, ecs', key)
  {
    hide CameAs;
    var i :| 0 <= i < |ecs| && CameAs(h, ecs[i], key);
    assert ecs'[i] == ecs'[..|ecs|][i];
  }

  lemma KeptStays(h: Hashing, d: Disk, d': Disk, e: DirectoryBlock.DBEntry)
    requires Kept(h, d, e) && DiskGrows(d, d')
    ensures Kept(h, d', e)
  {
    hide Listed, Came;
    if e.chainID == EC_CHAINID {
      CameStays(h, d.ecStored, d'.ecStored, e.keyMR);
    } else {
      ListedStays(h, d.db, d.eStored, d'.db, d'.eStored, e);
    }
  }

  lemma {:induction false} StorePartsKeep(h: Hashing, snap: Pool, pool: Pool, d: Disk, es: seq<DirectoryBlock.DBEntry>)
    requires WellKeyed(h, pool) && Stocked(h, d.db, d.eStored) && ECTableRight(h, d)
    requires d.credits == ReplayBlocks(d.ecStored)
    requires AllAtHand(snap, d.db.entries, es) && snap.Keys <= pool.Keys && SameBlocks(snap, pool, es)
    ensures var (e, ok) := StoreParts(h, pool, d, es);
      && Stocked(h, e.db, e.eStored) && ECTableRight(h, e) && DiskGrows(d, e) && e.credits == ReplayBlocks(e.ecStored)
      && (ok ==> forall j :: 0 <= j < |es| ==> Kept(h, e, es[j]))
    decreases |es|
  {
    hide WellKeyed, Stocked, ECTableRight, StorePart, Kept, BodyAtHand, ReplayBlocks, DiskGrows;
    if es == [] {
      GrowsNot(d);
    } else {
      var n := |es| - 1;
      assert forall j :: 0 <= j < n ==> es[..n][j] == es[j];
      StorePartsKeep(h, snap, pool, d, es[..n]);
      var (m, ok) := StoreParts(h, pool, d, es[..n]);
      if ok {
        assert PartAtHand(snap, d.db.entries, es[n]) && SameBlock(snap, pool, es[n]);
        var key := ByHash(es[n].keyMR);
        GrowsEntries(d, m);
        if !OwnChain(es[n].chainID) && pool[key].EMsg? {
          StillAtHand(snap, pool, d.db.entries, m.db.entries, snap[key].eBlock.body);
        }
        StorePartKeeps(h, pool, m, es[n]);
        var e := StorePart(h, pool, m, es[n]).0;
        GrowsThenGrows(d, m, e);
        forall j | 0 <= j < n
          ensures Kept(h, e, es[j])
        {
          assert Kept(h, m, es[..n][j]);
          KeptStays(h, m, e, es[j]);
        }
      }
    }
  }

  lemma GrowsNot(d: Disk)
    ensures DiskGrows(d, d)
  {
  }

  lemma GrowsEntries(d: Disk, e: Disk)
    requires DiskGrows(d, e)
    ensures d.db.entries.Keys <= e.db.entries.Keys && e.dBlocks == d.dBlocks && e.height == d.height
  {
  }

  lemma KeepsGrows(h: Hashing, d: Disk, e: Disk)
    requires Keeps(h, d) && DiskGrows(d, e) && Stocked(h, e.db, e.eStored) && ECTableRight(h, e)
    ensures Keeps(h, e)
  {
    hide Stocked, Kept, ECTableRight;
    forall k | k in e.dBlocks
      ensures AllKept(h, e, e.dBlocks[k])
    {
      assert AllKept(h, d, d.dBlocks[k]);
      forall j | 0 <= j < |d.dBlocks[k].entries|
        ensures Kept(h, e, d.dBlocks[k].entries[j])
      {
        KeptStays(h, d, e, d.dBlocks[k].entries[j]);
      }
    }
  }

  lemma OneMoreKept(h: Hashing, e: Disk, b: DirectoryBlock.Block)
    requires Keeps(h, e) && AllKept(h, e, b)
    ensures Keeps(h, e.(dBlocks := e.dBlocks[b.header.dbHeight := b], height := b.header.dbHeight))
  {
    hide Stocked, Listed, Came, Written, ECBlock.Sizable;
    var f := e.(dBlocks := e.dBlocks[b.header.dbHeight := b], height := b.header.dbHeight);
    ECTableSame(h, e, f);
    forall k | k in f.dBlocks
      ensures AllKept(h, f, f.dBlocks[k])
    {
      assert k != b.header.dbHeight ==> AllKept(h, e, e.dBlocks[k]);
      forall j | 0 <= j < |f.dBlocks[k].entries|
        ensures Kept(h, f, f.dBlocks[k].entries[j])
      {
        assert Kept(h, e, f.dBlocks[k].entries[j]);
      }
    }
  }

  lemma HandyKeys(snap: Pool, pool: Pool, entries: map<Digest, Entry>, es: seq<DirectoryBlock.DBEntry>)
    requires AllAtHand(snap, entries, es) && snap.Keys <= pool.Keys
    ensures KeysThere(pool, es)
  {
    hide BodyAtHand;
    forall j | 0 <= j < |es|
      ensures ByHash(es[j].keyMR) in pool
    {
      assert PartAtHand(snap, entries, es[j]);
    }
  }

  lemma SaveKeepsInv(h: Hashing, c: ClientState)
    requires SyncInv(h, c) && c.phase.Checked? && SameBlocks(c.phase.snap, c.pool, c.phase.b.entries)
    ensures SyncInv(h, OnSave(h, c))
  {
    var b := c.phase.b;
    var (e, ok) := StoreParts(h, c.pool, c.disk, b.entries);
    assert Stocked(h, c.disk.db, c.disk.eStored) && ECTableRight(h, c.disk);
    StorePartsKeep(h, c.phase.snap, c.pool, c.disk, b.entries);
    HandyKeys(c.phase.snap, c.pool, c.disk.db.entries, b.entries);
    KeepsGrows(h, c.disk, e);
    hide WellKeyed, Stocked, StoreParts, Kept, ReplayBlocks, AllAtHand, SameBlocks, Keeps, KeysThere;
    if ok {
      OneMoreKept(h, e, b);
    }
  }

  // ---------------------------------------------------------------- replaced blocks collide

  /** Between check and store, some needed entry block was replaced in the pool by a different one
      with the same key, and here are two strings with one hash. */
  ghost predicate Swapped(h: Hashing, c: ClientState) {
    c.phase.Checked? && exists j :: 0 <= j < |c.phase.b.entries| && SwappedAt(h, c.phase.snap, c.pool, c.phase.b.entries[j])
  }

  ghost predicate SwappedAt(h: Hashing, snap: Pool, pool: Pool, e: DirectoryBlock.DBEntry) {
    var key := ByHash(e.keyMR);
    && key in snap && key in pool && snap[key].EMsg? && pool[key].EMsg?
    && snap[key].eBlock.body != [] && pool[key].eBlock.body != []
    && CollisionBetween(h, EBlock.KeyInputs(h, snap[key].eBlock), EBlock.KeyInputs(h, pool[key].eBlock))
  }

  lemma SameUnlessSwapped(h: Hashing, c: ClientState)
    requires WellKeyed(h, c.pool) && c.phase.Checked? && WellKeyed(h, c.phase.snap)
    ensures SameBlocks(c.phase.snap, c.pool, c.phase.b.entries) || Swapped(h, c)
  {
    hide EBlock.KeyMR, EBlock.Built, CollisionBetween, EBlock.KeyInputs, AdminBlock.PartialHash,
      ECBlock.HeaderHash;
    var es := c.phase.b.entries;
    if !SameBlocks(c.phase.snap, c.pool, es) {
      var j :| 0 <= j < |es| && !SameBlock(c.phase.snap, c.pool, es[j]);
      var key := ByHash(es[j].keyMR);
      assert MsgRight(h, key, c.pool[key]) && MsgRight(h, key, c.phase.snap[key]);
      EBlock.EqualKeyMR(h, c.phase.snap[key].eBlock, c.pool[key].eBlock);
      assert SwappedAt(h, c.phase.snap, c.pool, es[j]);
    }
  }

  // ---------------------------------------------------------------- clearing

  /** The pool keys that one entry of a directory block accounts for. */
  function PartKeys(pool: Pool, e: DirectoryBlock.DBEntry): set<PoolKey> {
    var key := ByHash(e.keyMR);
    if !OwnChain(e.chainID) && key in pool && pool[key].EMsg? then HashKeys(pool[key].eBlock.body) + {key} else {key}
  }

  function AllKeys(pool: Pool, es: seq<DirectoryBlock.DBEntry>): set<PoolKey> {
    if es == [] then {} else AllKeys(pool, es[..|es| - 1]) + PartKeys(pool, es[|es| - 1])
  }

  /** No entry block is listed whose key an earlier entry of the directory block already accounts for,
      by listing it or by containing it. */
  predicate Separate(pool: Pool, es: seq<DirectoryBlock.DBEntry>) {
    forall j :: 0 <= j < |es| && !OwnChain(es[j].chainID) ==> ByHash(es[j].keyMR) !in AllKeys(pool, es[..j])
  }

  predicate BlocksThere(pool: Pool, es: seq<DirectoryBlock.DBEntry>) {
    forall j :: 0 <= j < |es| ==> BlockThere(pool, es[j])
  }

  /** Clearing the pool ends well exactly when the listed entry blocks are all there and separate in this
      sense, and then removes exactly the block's own messages. */
  lemma {:induction false} ClearingIff(pool: Pool, es: seq<DirectoryBlock.DBEntry>)
    ensures DeleteParts(pool, es).Some? <==> BlocksThere(pool, es) && Separate(pool, es)
    ensures BlocksThere(pool, es) && Separate(pool, es) ==> DeleteParts(pool, es) == Some(pool - AllKeys(pool, es))
    decreases |es|
  {
    hide PartKeys;
    if es == [] {
      assert pool - {} == pool;
    } else {
      var n := |es| - 1;
      assert forall j :: 0 <= j < n ==> es[..n][j] == es[j] && es[..n][..j] == es[..j];
      ClearingIff(pool, es[..n]);
      SeparateSnoc(pool, es);
      ThereSnoc(pool, es);
      if BlocksThere(pool, es[..n]) && Separate(pool, es[..n]) {
        ClearOne(pool, AllKeys(pool, es[..n]), es[n]);
      }
    }
  }

  predicate BlockThere(pool: Pool, e: DirectoryBlock.DBEntry) {
    !OwnChain(e.chainID) ==> ByHash(e.keyMR) in pool && pool[ByHash(e.keyMR)].EMsg?
  }

  lemma ThereSnoc(pool: Pool, es: seq<DirectoryBlock.DBEntry>)
    requires es != []
    ensures var n := |es| - 1; BlocksThere(pool, es) <==> BlocksThere(pool, es[..n]) && BlockThere(pool, es[n])
  {
    hide BlockThere;
    var n := |es| - 1;
    forall j | 0 <= j < n
      ensures BlockThere(pool, es[..n][j]) <==> BlockThere(pool, es[j])
    {
      assert es[..n][j] == es[j];
    }
  }

  lemma SeparateSnoc(pool: Pool, es: seq<DirectoryBlock.DBEntry>)
    requires es != []
    ensures var n := |es| - 1;
      Separate(pool, es) <==> (Separate(pool, es[..n]) && (!OwnChain(es[n].chainID) ==>
          ByHash(es[n].keyMR) !in AllKeys(pool, es[..n])))
  {
    hide AllKeys;
    var n := |es| - 1;
    assert forall j :: 0 <= j < n ==> es[..n][j] == es[j] && es[..n][..j] == es[..j];
    if Separate(pool, es) {
      forall j | 0 <= j < n && !OwnChain(es[..n][j].chainID)
        ensures ByHash(es[..n][j].keyMR) !in AllKeys(pool, es[..n][..j])
      {
        assert !OwnChain(es[j].chainID);
      }
    } else {
      var j :| 0 <= j < |es| && !OwnChain(es[j].chainID) && ByHash(es[j].keyMR) in AllKeys(pool, es[..j]);
      if j < n {
        assert !OwnChain(es[..n][j].chainID) && ByHash(es[..n][j].keyMR) in AllKeys(pool, es[..n][..j]);
      }
    }
  }

  lemma ClearOne(pool: Pool, gone: set<PoolKey>, e: DirectoryBlock.DBEntry)
    ensures DeletePart(pool - gone, e).Some? <==> BlockThere(pool, e) && (OwnChain(e.chainID) || ByHash(e.keyMR) !in gone)
    ensures DeletePart(pool - gone, e).Some? ==> DeletePart(pool - gone, e).value == pool - (gone + PartKeys(pool, e))
  {
    hide HashKeys, OwnChain;
    var key := ByHash(e.keyMR);
    if OwnChain(e.chainID) {
      assert pool - gone - {key} == pool - (gone + {key});
    } else if key in pool && key !in gone {
      assert (pool - gone)[key] == pool[key];
      if pool[key].EMsg? {
        var ks := HashKeys(pool[key].eBlock.body);
        assert pool - gone - ks - {key} == pool - (gone + (ks + {key}));
      }
    }
  }

  /** Between storing and clearing a listed entry block has been replaced in the pool by a message of
      another kind. */
  predicate Displaced(pool: Pool, es: seq<DirectoryBlock.DBEntry>) {
    exists j :: 0 <= j < |es| && !OwnChain(es[j].chainID) && ByHash(es[j].keyMR) in pool
        && !pool[ByHash(es[j].keyMR)].EMsg?
  }

  lemma ThereUnlessDisplaced(pool: Pool, es: seq<DirectoryBlock.DBEntry>)
    requires KeysThere(pool, es)
    ensures BlocksThere(pool, es) <==> !Displaced(pool, es)
  {
    hide OwnChain;
    forall j | 0 <= j < |es|
      ensures BlockThere(pool, es[j])
          <==> !(!OwnChain(es[j].chainID) && ByHash(es[j].keyMR) in pool && !pool[ByHash(es[j].keyMR)].EMsg?)
    {
      assert ByHash(es[j].keyMR) in pool;
    }
  }

  /** When a client panics after it has stored a block with everything it refers to: exactly when the
      block lists an entry block whose key an earlier entry accounts for, or a listed entry block has
      been displaced. */
  lemma ClientStopsIff(h: Hashing, c: ClientState)
    requires SyncInv(h, c) && c.phase.Saved?
    ensures OnClean(c).phase.Dead? <==> !Separate(c.pool, c.phase.b.entries) || Displaced(c.pool, c.phase.b.entries)
  {
    hide WellKeyed, Keeps, GapFree, ReplayBlocks, Separate, BlocksThere, Displaced, DeleteParts;
    ClearingIff(c.pool, c.phase.b.entries);
    ThereUnlessDisplaced(c.pool, c.phase.b.entries);
  }

  /** How clearing fails: a directory block that lists one entry block twice stops the client, after
      everything has been stored. */
  lemma RepeatedBlockStopsClient(h: Hashing, c: ClientState, i: nat, j: nat)
    requires SyncInv(h, c) && c.phase.Saved?
    requires var es := c.phase.b.entries; i < j < |es| && !OwnChain(es[j].chainID) && es[i].keyMR == es[j].keyMR
    ensures OnClean(c).phase.Dead?
  {
    hide PartKeys, OwnChain, SyncInv, OnClean;
    ClientStopsIff(h, c);
    KeyOfEarlier(c.pool, c.phase.b.entries[..j], i);
  }

  lemma {:induction false} KeyOfEarlier(pool: Pool, es: seq<DirectoryBlock.DBEntry>, i: nat)
    requires i < |es|
    ensures ByHash(es[i].keyMR) in AllKeys(pool, es)
    decreases |es|
  {
    var n := |es| - 1;
    if i < n {
      KeyOfEarlier(pool, es[..n], i);
    }
  }

  lemma {:induction false} DeleteShrinks(pool: Pool, es: seq<DirectoryBlock.DBEntry>)
    ensures DeleteParts(pool, es).Some? ==>
      forall k :: k in DeleteParts(pool, es).value ==> k in pool && DeleteParts(pool, es).value[k] == pool[k]
    decreases |es|
  {
    hide HashKeys, OwnChain;
    if es != [] {
      DeleteShrinks(pool, es[..|es| - 1]);
    }
  }

  lemma CleanKeepsInv(h: Hashing, c: ClientState)
    requires SyncInv(h, c) && c.phase.Saved?
    ensures SyncInv(h, OnClean(c))
  {
    hide Keeps, GapFree, ReplayBlocks, MsgRight;
    DeleteShrinks(c.pool, c.phase.b.entries);
  }

  // ---------------------------------------------------------------- whole runs

  lemma StepKeepsSync(h: Hashing, t: Trust, c: ClientState, step: ClientStep)
    requires SyncInv(h, c) && CanDo(h, c, step) && !(step.Save? && Swapped(h, c))
    ensures SyncInv(h, Do(h, t, c, step))
  {
    match step
    case Arrive(m) => ArriveKeepsInv(h, c, m);
    case Check => CheckKeepsInv(h, t, c);
    case Save =>
      SameUnlessSwapped(h, c);
      SaveKeepsInv(h, c);
    case Clean => CleanKeepsInv(h, c);
  }

  /** A store step met a replaced entry block: a hash collision. */
  ghost predicate SwapIn(h: Hashing, states: seq<ClientState>, steps: seq<ClientStep>) {
    exists k :: 0 <= k < |steps| && k < |states| && steps[k].Save? && Swapped(h, states[k])
  }

  /** Client sync closure: in every state of every run, however arrivals interleave with checking,
      storing and clearing, the stored heights have no gap and everything that stored blocks refer to
      is kept, unless the run contains a hash collision: stored under the key it is listed by, or, for
      an entry credit block, received under that key and written (ClosureOverRun says when that is
      the same). */
  lemma {:induction false} SyncClosure(h: Hashing, t: Trust, states: seq<ClientState>, steps: seq<ClientStep>, i: nat)
    requires IsSync(h, t, states, steps) && i < |states| && SyncInv(h, states[0])
    ensures SyncInv(h, states[i]) || SwapIn(h, states, steps)
    decreases i
  {
    hide SyncInv, CanDo, Do, Swapped;
    if i > 0 && !SwapIn(h, states, steps) {
      SyncClosure(h, t, states, steps, i - 1);
      StepKeepsSync(h, t, states[i - 1], steps[i - 1]);
    }
  }

  // ---------------------------------------------------------------- entry credit headers

  predicate BuiltAs(h: Hashing, a: ECBlock.Block, ec: ECBlock.Block) {
    ECBlock.Sizable(a) && ECBlock.Built(h, a).header == ec.header
  }

  /** Some stored block was written with the header that this one came with. */
  predicate HeaderWritten(h: Hashing, ecs: seq<ECBlock.Block>, ec: ECBlock.Block) {
    exists x :: 0 <= x < |ecs| && BuiltAs(h, ecs[x], ec)
  }

  /** A block that came under the key came with a header that some stored block was written with; above
      all its own, if its header says what its body is. */
  predicate Matched(h: Hashing, ecs: seq<ECBlock.Block>, key: Digest) {
    exists i :: 0 <= i < |ecs| && CameAs(h, ecs[i], key) && HeaderWritten(h, ecs, ecs[i])
  }

  predicate BlockMatched(h: Hashing, ecs: seq<ECBlock.Block>, b: DirectoryBlock.Block) {
    forall j :: 0 <= j < |b.entries| && b.entries[j].chainID == EC_CHAINID ==> Matched(h, ecs, b.entries[j].keyMR)
  }

  lemma OwnHeaderMatches(h: Hashing, ecs: seq<ECBlock.Block>, i: nat, key: Digest)
    requires i < |ecs| && ECBlock.HeaderMatches(h, ecs[i]) && CameAs(h, ecs[i], key)
    ensures Matched(h, ecs, key)
  {
    hide ECBlock.HeaderHash, ECBlock.Sizable;
    assert BuiltAs(h, ecs[i], ecs[i]);
  }

  /** The headers that are hashed, as they came and as they were written. */
  function HeaderInputs(h: Hashing, ecs: seq<ECBlock.Block>): set<Bytes>
    requires forall i :: 0 <= i < |ecs| ==> ECBlock.Sizable(ecs[i])
  {
    (set i | 0 <= i < |ecs| :: HeaderBytes(ecs[i])) + (set i | 0 <= i < |ecs| :: BuiltBytes(h, ecs[i]))
  }

  function HeaderBytes(ec: ECBlock.Block): Bytes
    requires ECBlock.Sizable(ec)
  {
    ECBlock.MarshalHeader(ec.header)
  }

  function BuiltBytes(h: Hashing, ec: ECBlock.Block): Bytes
    requires ECBlock.Sizable(ec)
  {
    ECBlock.MarshalHeader(ECBlock.Built(h, ec).header)
  }

  ghost predicate HeadersCollide(h: Hashing, ecs: seq<ECBlock.Block>) {
    && (forall i :: 0 <= i < |ecs| ==> ECBlock.Sizable(ecs[i]))
    && CollisionBetween(h, HeaderInputs(h, ecs), HeaderInputs(h, ecs))
  }

  lemma SameHashSameHeader(h: Hashing, ecs: seq<ECBlock.Block>, i: nat, x: nat)
    requires (forall k :: 0 <= k < |ecs| ==> ECBlock.Sizable(ecs[k])) && i < |ecs| && x < |ecs|
    requires ECBlock.Sizable(ecs[i]) && ECBlock.Sizable(ecs[x])
    requires ECBlock.HeaderHash(h, ecs[i]) == ECBlock.HeaderHash(h, ECBlock.Built(h, ecs[x]))
    ensures ecs[i].header == ECBlock.Built(h, ecs[x]).header || HeadersCollide(h, ecs)
  {
    hide ECBlock.MarshalHeader, ECBlock.Built, ECBlock.MarshalBody;
    var u, v := HeaderBytes(ecs[i]), BuiltBytes(h, ecs[x]);
    assert u in HeaderInputs(h, ecs) && v in HeaderInputs(h, ecs);
    if u == v {
      ECBlock.HeaderRoundTrip(ecs[i].header, []);
      ECBlock.HeaderRoundTrip(ECBlock.Built(h, ecs[x]).header, []);
    } else {
      assert Collides(h, u, v);
    }
  }

  /** A listed entry credit block is stored under its key exactly if it is matched. */
  lemma WrittenIffMatched(h: Hashing, ecs: seq<ECBlock.Block>, key: Digest)
    requires (forall i :: 0 <= i < |ecs| ==> ECBlock.Sizable(ecs[i])) && Came(h, ecs, key)
    ensures HeadersCollide(h, ecs) || (Written(h, ecs, key) <==> Matched(h, ecs, key))
  {
    hide ECBlock.Sizable, ECBlock.Built, HeadersCollide, ECBlock.MarshalHeader;
    if Written(h, ecs, key) {
      var i :| 0 <= i < |ecs| && CameAs(h, ecs[i], key);
      var x :| 0 <= x < |ecs| && WrittenAs(h, ecs[x], key);
      SameHashSameHeader(h, ecs, i, x);
      if !HeadersCollide(h, ecs) {
        assert BuiltAs(h, ecs[x], ecs[i]);
        assert HeaderWritten(h, ecs, ecs[i]);
      }
    }
    if Matched(h, ecs, key) {
      var i :| 0 <= i < |ecs| && CameAs(h, ecs[i], key) && HeaderWritten(h, ecs, ecs[i]);
      var x :| 0 <= x < |ecs| && BuiltAs(h, ecs[x], ecs[i]);
      assert WrittenAs(h, ecs[x], key);
    }
  }

  lemma StoredIffMatched(h: Hashing, d: Disk, b: DirectoryBlock.Block)
    requires ECTableRight(h, d) && AllKept(h, d, b)
    ensures HeadersCollide(h, d.ecStored) || (AllStored(h, d, b) <==> BlockMatched(h, d.ecStored, b))
  {
    hide ECBlock.Sizable, Written, Matched, Came, HeadersCollide, EBlock.KeyMR;
    if !HeadersCollide(h, d.ecStored) {
      forall j | 0 <= j < |b.entries|
        ensures Listed(h, d.db, d.eStored, b.entries[j]) <==> (b.entries[j].chainID == EC_CHAINID ==>
            Matched(h, d.ecStored, b.entries[j].keyMR))
      {
        assert Kept(h, d, b.entries[j]);
        if b.entries[j].chainID == EC_CHAINID {
          WrittenIffMatched(h, d.ecStored, b.entries[j].keyMR);
        }
      }
    }
  }

  /** When a client's database is closed under reference: exactly if every listed entry credit block is
      matched, unless two of the hashed headers collide. */
  lemma ClosureIff(h: Hashing, d: Disk)
    requires Keeps(h, d)
    ensures HeadersCollide(h, d.ecStored)
        || (Closed(h, d) <==> forall k :: k in d.dBlocks ==> BlockMatched(h, d.ecStored, d.dBlocks[k]))
  {
    hide Stocked, ECTableRight, AllKept, HeadersCollide, BlockMatched, AllStored;
    if !HeadersCollide(h, d.ecStored) {
      forall k | k in d.dBlocks
        ensures AllStored(h, d, d.dBlocks[k]) <==> BlockMatched(h, d.ecStored, d.dBlocks[k])
      {
        StoredIffMatched(h, d, d.dBlocks[k]);
      }
    }
  }

  /** Closure over a run: in every state of every run everything that stored blocks refer to is stored
      exactly if every listed entry credit block is matched. The exceptions are hash collisions. */
  lemma ClosureOverRun(h: Hashing, t: Trust, states: seq<ClientState>, steps: seq<ClientStep>, i: nat)
    requires IsSync(h, t, states, steps) && i < |states| && SyncInv(h, states[0])
    ensures var d := states[i].disk;
      || SwapIn(h, states, steps) || HeadersCollide(h, d.ecStored)
      || (Closed(h, d) <==> forall k :: k in d.dBlocks ==> BlockMatched(h, d.ecStored, d.dBlocks[k]))
  {
    SyncClosure(h, t, states, steps, i);
    if !SwapIn(h, states, steps) {
      InvKeeps(h, states[i]);
      hide *;
      ClosureIff(h, states[i].disk);
    }
  }

  lemma InvKeeps(h: Hashing, c: ClientState)
    requires SyncInv(h, c)
    ensures Keeps(h, c.disk)
  {
    hide WellKeyed, Keeps, ReplayBlocks;
  }

  /** A block as it can arrive: its header counts a body of one byte more than it has, and the reader does
      not mind (ECBlock.Unmarshal). */
  function LongHeader(): ECBlock.Block {
    var e := ECBlock.NewECBlock();
    e.(header := e.header.(bodySize := 1))
  }

  lemma LongHeaderFacts(h: Hashing)
    ensures var ec := LongHeader();
      ECBlock.Sizable(ec) && ECBlock.Built(h, ec).header.bodySize == 0 && ec.header.bodySize == 1
  {
    assert ECBlock.MarshalBody(LongHeader().body) == [];
  }

  lemma LongHeaderIsRead(h: Hashing)
    ensures ECBlock.Sizable(LongHeader())
    ensures ECBlock.Unmarshal(ECBlock.MarshalHeader(LongHeader().header)) == Ok((LongHeader(), []))
  {
    LongHeaderFacts(h);
    var ec := LongHeader();
    ECBlock.HeaderRoundTrip(ec.header, []);
    assert ECBlock.UnmarshalBody(0, []) == Ok(([], []));
    hide ECBlock.MarshalHeader, ECBlock.UnmarshalHeader;
    assert ECBlock.MarshalHeader(ec.header) + [] == ECBlock.MarshalHeader(ec.header);
  }

  /** The failing run: a client that receives a directory block listing this block, and the block, checks
      and stores both; afterwards what it has stored refers to a block that it does not have, unless the
      two headers collide. */
  lemma UnmatchedBlockBreaksClosure(h: Hashing, t: Trust, b: DirectoryBlock.Block) returns (states: seq<ClientState>,
      steps: seq<ClientStep>)
    requires b.header.dbHeight == 0 && t.genesis == DirectoryBlock.DBHash(h, b)
    requires ECBlock.Sizable(LongHeader())
    requires b.entries == [DirectoryBlock.DBEntry(EC_CHAINID, ECBlock.HeaderHash(h, LongHeader()))]
    ensures IsSync(h, t, states, steps) && |states| == 5 && SyncInv(h, states[0])
    ensures states[4].phase == Saved(b) && states[4].disk.ecStored == [LongHeader()]
    ensures Closed(h, states[4].disk) ==> HeadersCollide(h, [LongHeader()])
  {
    hide DirectoryBlock.DBHash, Closed, HeadersCollide, LongHeader, IsSync, SyncInv, BlockAnswer, StoreBlock,
      AddBlockMsg, OwnKey, ECBlock.Sizable;
    var c0 := ClientState(map[], [], EmptyDisk(), Idle);
    EmptyClient(h);
    var ec := LongHeader();
    LongHeaderFacts(h);
    var c1 := OnArrival(h, c0, DirMsg(b));
    var c2 := OnArrival(h, c1, ECMsg(ec));
    ArrivalsLeave(h, c0, c1, c2, b, ec);
    CheckPasses(h, t, c2, b);
    var c3 := OnCheck(h, t, c2);
    var c4 := OnSave(h, c3);
    SaveStores(h, c3, b, ec);
    steps := [Arrive(DirMsg(b)), Arrive(ECMsg(ec)), Check, Save];
    states := [c0, c1, c2, c3, c4];
    FourSteps(h, t, states, b, ec);
  }

  lemma FourSteps(h: Hashing, t: Trust, s: seq<ClientState>, b: DirectoryBlock.Block, ec: ECBlock.Block)
    requires |s| == 5 && ECBlock.Sizable(ec)
    requires s[1] == OnArrival(h, s[0], DirMsg(b)) && s[2] == OnArrival(h, s[1], ECMsg(ec))
    requires s[2].phase == Idle && s[2].disk.height >= -1 && s[3] == OnCheck(h, t, s[2]) && s[3].phase.Checked?
    requires s[4] == OnSave(h, s[3])
    ensures IsSync(h, t, s, [Arrive(DirMsg(b)), Arrive(ECMsg(ec)), Check, Save])
  {
    hide OnArrival, OnCheck, OnSave, ECBlock.Sizable;
    var steps := [Arrive(DirMsg(b)), Arrive(ECMsg(ec)), Check, Save];
    forall i | 0 <= i < 4
      ensures CanDo(h, s[i], steps[i]) && s[i + 1] == Do(h, t, s[i], steps[i])
    {
    }
  }

  lemma ArrivalsLeave(h: Hashing, c0: ClientState, c1: ClientState, c2: ClientState, b: DirectoryBlock.Block,
      ec: ECBlock.Block)
    requires c0 == ClientState(map[], [], EmptyDisk(), Idle) && b.header.dbHeight == 0 && ECBlock.Sizable(ec)
    requires c1 == OnArrival(h, c0, DirMsg(b)) && c2 == OnArrival(h, c1, ECMsg(ec))
    ensures c2.phase == Idle && c2.disk == EmptyDisk() && c2.blocks == [Some(b)]
    ensures ByHash(ECBlock.HeaderHash(h, ec)) in c2.pool && c2.pool[ByHash(ECBlock.HeaderHash(h, ec))] == ECMsg(ec)
  {
    hide ECBlock.HeaderHash, ECBlock.Sizable;
    assert |c0.pool| == 0;
    assert ProcessList.PutAt<DirectoryBlock.Block>([], 0, b) == [Some(b)];
    assert c1.pool == map[ByHeight(0) := DirMsg(b)];
    assert |c1.pool| == 1;
  }

  lemma CheckPasses(h: Hashing, t: Trust, c: ClientState, b: DirectoryBlock.Block)
    requires c.phase == Idle && c.disk == EmptyDisk() && c.blocks == [Some(b)] && b.header.dbHeight == 0
    requires t.genesis == DirectoryBlock.DBHash(h, b)
    requires |b.entries| == 1 && b.entries[0].chainID == EC_CHAINID && ByHash(b.entries[0].keyMR) in c.pool
    ensures OnCheck(h, t, c) == c.(phase := Checked(b, c.pool))
  {
    hide DirectoryBlock.DBHash, SignatureAnswer;
    assert b.entries == [b.entries[0]] && b.entries[..0] == [];
    assert PartsAnswer(t, c.pool, c.blocks, c.disk.db.entries, b.entries[..0]) == Yes;
    assert PartAnswer(t, c.pool, c.blocks, c.disk.db.entries, b.entries[0]) == Yes;
    assert PartsAnswer(t, c.pool, c.blocks, c.disk.db.entries, b.entries) == Yes;
    assert NextBlock(c.blocks, -1) == Some(b);
  }

  lemma SaveStores(h: Hashing, c: ClientState, b: DirectoryBlock.Block, ec: ECBlock.Block)
    requires c.phase.Checked? && c.phase.b == b && c.disk == EmptyDisk() && ECBlock.Sizable(ec)
    requires b.header.dbHeight == 0
    requires b.entries == [DirectoryBlock.DBEntry(EC_CHAINID, ECBlock.HeaderHash(h, ec))]
    requires ByHash(ECBlock.HeaderHash(h, ec)) in c.pool && c.pool[ByHash(ECBlock.HeaderHash(h, ec))] == ECMsg(ec)
    requires ECBlock.Built(h, ec).header.bodySize != ec.header.bodySize
    ensures var s := OnSave(h, c);
      && s.phase == Saved(b) && s.disk.ecStored == [ec]
      && (Closed(h, s.disk) ==> HeadersCollide(h, [ec]))
  {
    var built := ECBlock.Built(h, ec);
    assert |built.header.expansion| < TWO_64;
    hide ECBlock.MarshalHeader, ECBlock.Built, ECBlock.Sizable, Replay, Stocked;
    var (d, ok) := StoreParts(h, c.pool, c.disk, b.entries);
    OnePart(h, c.pool, c.disk, b.entries);
    assert ok && d.ecStored == [] + [ec] == [ec];
    assert d.db.ecBlocks == map[ECBlock.HeaderHash(h, built) := built];
    var s := OnSave(h, c);
    assert s.disk == d.(dBlocks := d.dBlocks[0 := b], height := 0);
    if Closed(h, s.disk) {
      assert AllStored(h, s.disk, s.disk.dBlocks[0]);
      assert Listed(h, s.disk.db, s.disk.eStored, b.entries[0]);
      SameHashSameHeader(h, [ec], 0, 0);
    }
  }

  lemma OnePart(h: Hashing, pool: Pool, d: Disk, es: seq<DirectoryBlock.DBEntry>)
    requires |es| == 1
    ensures StoreParts(h, pool, d, es) == StorePart(h, pool, d, es[0])
  {
    hide StorePart;
    assert es[..0] == [];
    assert StoreParts(h, pool, d, es[..0]) == (d, true);
  }

  // ---------------------------------------------------------------- more about what is kept

  /** The string whose hash is the entry hash (common/entry.go:64-75). */
  function EntryInput(h: Hashing, e: Entry): (b: Bytes)
    ensures EntryHash(h, e) == h.sha256(b) && |b| == 64 + |MarshalEntry(e)|
  {
    var wide: Bytes := h.sha512(MarshalEntry(e));
    wide + MarshalEntry(e)
  }

  /** What a message of another kind is keyed by. */
  function MsgInput(h: Hashing, m: PoolMsg): Bytes
    requires Decoded(m)
  {
    match m
    case AMsg(a) => AdminBlock.Marshal(a)
    case ECMsg(ec) => ECBlock.MarshalHeader(ec.header)
    case EntryMsg(e) => EntryInput(h, e)
    case _ => []
  }

  /** What a displacement takes: a hash collision, or a factoid block whose hash is the key of an entry
      block. */
  lemma DisplacedMeans(h: Hashing, c: ClientState) returns (i: nat, key: PoolKey)
    requires SyncInv(h, c) && c.phase.Saved? && Displaced(c.pool, c.phase.b.entries)
    ensures i < |c.disk.eStored| && c.disk.eStored[i].body != []
    ensures key == ByHash(EBlock.KeyMR(h, c.disk.eStored[i])) && key in c.pool
    ensures var m := c.pool[key];
      m.FMsg? || (Decoded(m) && Collides(h, EBlock.LastInput(h, c.disk.eStored[i]), MsgInput(h, m)))
  {
    var es := c.phase.b.entries;
    var j :| 0 <= j < |es| && !OwnChain(es[j].chainID) && ByHash(es[j].keyMR) in c.pool
        && !c.pool[ByHash(es[j].keyMR)].EMsg?;
    key := ByHash(es[j].keyMR);
    SavedMeans(h, c, j);
    hide *;
    i := ListedBlock(h, c.disk, es[j]);
    if !c.pool[key].FMsg? {
      OtherInput(h, c.pool[key], c.disk.eStored[i]);
    }
  }

  lemma SavedMeans(h: Hashing, c: ClientState, j: nat)
    requires SyncInv(h, c) && c.phase.Saved? && j < |c.phase.b.entries| && ByHash(c.phase.b.entries[j].keyMR) in c.pool
    ensures var key := ByHash(c.phase.b.entries[j].keyMR);
      && Decoded(c.pool[key]) && (c.pool[key].EMsg? ==> c.pool[key].eBlock.body != []) && OwnKey(h, c.pool[key]) == key
    ensures Kept(h, c.disk, c.phase.b.entries[j])
  {
    hide Kept, OwnKey, Stocked, ECTableRight, ReplayBlocks, Decoded, EBlock.Built, GapFree;
    assert MsgRight(h, ByHash(c.phase.b.entries[j].keyMR), c.pool[ByHash(c.phase.b.entries[j].keyMR)]);
    assert AllKept(h, c.disk, c.disk.dBlocks[c.disk.height]);
  }

  lemma ListedBlock(h: Hashing, d: Disk, e: DirectoryBlock.DBEntry) returns (i: nat)
    requires Kept(h, d, e) && !OwnChain(e.chainID)
    ensures i < |d.eStored| && d.eStored[i].body != [] && EBlock.KeyMR(h, d.eStored[i]) == e.keyMR
  {
    hide EBlock.KeyMR;
    i :| 0 <= i < |d.eStored| && d.eStored[i].body != [] && EBlock.KeyMR(h, d.eStored[i]) == e.keyMR;
  }

  lemma OtherInput(h: Hashing, m: PoolMsg, b: EBlock.Block)
    requires b.body != [] && Decoded(m) && !m.EMsg? && !m.FMsg? && OwnKey(h, m) == ByHash(EBlock.KeyMR(h, b))
    ensures Collides(h, EBlock.LastInput(h, b), MsgInput(h, m))
  {
    InputLengths(h, m);
    hide Merkle.Root, EBlock.MarshalHeader, AdminBlock.Marshal, ECBlock.MarshalHeader, EntryInput,
      AdminBlock.Consistent, ECBlock.Sizable;
  }

  lemma InputLengths(h: Hashing, m: PoolMsg)
    requires Decoded(m) && (m.AMsg? || m.ECMsg? || m.EntryMsg?)
    ensures |MsgInput(h, m)| > 64
  {
    match m
    case AMsg(a) => AdminBlock.HeaderSizeIsLength(a.header);
    case ECMsg(ec) =>
    case EntryMsg(e) =>
  }

  // ---------------------------------------------------------------- whole steps

  /** Nothing is cleared early: a step that takes a message out of the pool comes right after a
      directory block was stored, with everything it refers to. */
  lemma NothingClearedEarly(h: Hashing, t: Trust, c: ClientState, step: ClientStep, k: PoolKey)
    requires SyncInv(h, c) && CanDo(h, c, step) && k in c.pool && k !in Do(h, t, c, step).pool
    ensures c.phase.Saved? && step.Clean?
    ensures c.disk.height == c.phase.b.header.dbHeight && AllKept(h, c.disk, c.phase.b)
    ensures HeadersCollide(h, c.disk.ecStored)
        || (AllStored(h, c.disk, c.phase.b) <==> BlockMatched(h, c.disk.ecStored, c.phase.b))
  {
    hide WellKeyed, Stocked, Kept, ReplayBlocks, BlockAnswer, StoreBlock, DeleteBlock, OwnKey, Decoded,
      ECTableRight, AllStored, BlockMatched, HeadersCollide;
    assert c.disk.height in c.disk.dBlocks ==> AllKept(h, c.disk, c.disk.dBlocks[c.disk.height]);
    if step.Clean? {
      StoredIffMatched(h, c.disk, c.phase.b);
    }
  }

  /** What a client has stored passes the validator's check of every listed block exactly as far as the
      factoid blocks are honest and the entry credit blocks matched, when no two stored entry blocks
      and no two headers collide. */
  lemma StoredIsBacked(h: Hashing, d: Disk, k: int)
    requires Keeps(h, d) && k in d.dBlocks && !BlocksCollide(h, d.eStored) && !HeadersCollide(h, d.ecStored)
    ensures Backed(h, d.db, d.dBlocks[k])
       <==> (BlockMatched(h, d.ecStored, d.dBlocks[k])
             && forall j :: 0 <= j < |d.dBlocks[k].entries| && d.dBlocks[k].entries[j].chainID == FACTOID_CHAINID ==>
                  FactoidHonest(d.db, d.dBlocks[k].entries[j].keyMR))
  {
    hide Stocked, EntryVerdict, EntryBacked, BlocksCollide, FactoidHonest, HeadersCollide, Matched, EBlock.KeyMR,
        ECTableRight;
    var b := d.dBlocks[k];
    assert AllKept(h, d, b);
    StoredIffMatched(h, d, b);
    forall j | 0 <= j < |b.entries|
      ensures EntryBacked(h, d.db, b.entries[j])
        <==> Listed(h, d.db, d.eStored, b.entries[j]) && (b.entries[j].chainID == FACTOID_CHAINID ==>
            FactoidHonest(d.db, b.entries[j].keyMR))
    {
      assert Kept(h, d, b.entries[j]);
      VerdictMeans(h, d.db, b.entries[j]);
      if Listed(h, d.db, d.eStored, b.entries[j]) {
        ListedIsBacked(h, d.db, d.eStored, b.entries[j]);
      } else {
        UnlistedEC(h, d, b.entries[j]);
      }
    }
  }

  lemma UnlistedEC(h: Hashing, d: Disk, e: DirectoryBlock.DBEntry)
    requires Kept(h, d, e) && !Listed(h, d.db, d.eStored, e)
    ensures EntryVerdict(h, d.db, e) != Valid
  {
    hide Came, EBlockVerdict, EBlock.KeyMR;
  }

  // ---------------------------------------------------------------- nothing unchecked is stored

  /** At some Check before step i the block was found complete. */
  ghost predicate WasComplete(h: Hashing, t: Trust, states: seq<ClientState>, steps: seq<ClientStep>, i: nat,
      b: DirectoryBlock.Block)
    requires |steps| < |states| && i <= |steps|
  {
    exists j :: 0 <= j < i && CompleteAt(h, t, states[j], steps[j], b)
  }

  predicate CompleteAt(h: Hashing, t: Trust, c: ClientState, step: ClientStep, b: DirectoryBlock.Block) {
    step.Check? && Complete(h, t, c.pool, c.blocks, c.disk.db.entries, b)
  }

  lemma StillWas(h: Hashing, t: Trust, states: seq<ClientState>, steps: seq<ClientStep>, i: nat, b: DirectoryBlock.Block)
    requires |steps| < |states| && i < |steps| && WasComplete(h, t, states, steps, i, b)
    ensures WasComplete(h, t, states, steps, i + 1, b)
  {
    hide CompleteAt;
  }

  /** What a step can do to the stored directory blocks and to the block in hand. */
  lemma StepOnBlocks(h: Hashing, t: Trust, c: ClientState, step: ClientStep)
    requires CanDo(h, c, step)
    ensures var e := Do(h, t, c, step);
      && (e.phase.Checked? ==> (c.phase.Checked? && e.phase.b == c.phase.b) || CompleteAt(h, t, c, step, e.phase.b))
      && forall k :: k in e.disk.dBlocks ==>
        (k in c.disk.dBlocks && e.disk.dBlocks[k] == c.disk.dBlocks[k])
            || (c.phase.Checked? && e.disk.dBlocks[k] == c.phase.b)
  {
    hide BlockAnswer, Complete, StoreParts, DeleteBlock, AddBlockMsg, OwnKey, Decoded, EBlock.Built;
    match step
    case Arrive(m) =>
    case Check =>
      var next := NextBlock(c.blocks, c.disk.height);
      if next.Some? {
        CompleteIff(h, t, c.pool, c.blocks, c.disk.db.entries, next.value);
      }
    case Save => PartsKeepBlocks(h, c.pool, c.disk, c.phase.b.entries);
    case Clean =>
  }

  lemma {:induction false} PartsKeepBlocks(h: Hashing, pool: Pool, d: Disk, es: seq<DirectoryBlock.DBEntry>)
    ensures StoreParts(h, pool, d, es).0.dBlocks == d.dBlocks
    decreases |es|
  {
    hide InsertEntries, ECBlock.Built, ECBlock.HeaderHash, ECBlock.Sizable, Replay, AdminBlock.Consistent,
        AdminBlock.PartialHash,
      StoreEBlock;
    if es != [] {
      PartsKeepBlocks(h, pool, d, es[..|es| - 1]);
    }
  }

  /** Nothing unchecked is stored: every directory block that a client has stored since the start of a run was
      found complete at an earlier check: its parts were there, and each admin block above height 0 among them
      was signed by the server over the block in the slot below. */
  lemma {:induction false} StoredWasComplete(h: Hashing, t: Trust, states: seq<ClientState>, steps: seq<ClientStep>,
      i: nat)
    requires IsSync(h, t, states, steps) && i < |states| && !states[0].phase.Checked?
    ensures states[i].phase.Checked? ==> WasComplete(h, t, states, steps, i, states[i].phase.b)
    ensures forall k :: k in states[i].disk.dBlocks ==>
      || (k in states[0].disk.dBlocks && states[i].disk.dBlocks[k] == states[0].disk.dBlocks[k])
      || WasComplete(h, t, states, steps, i, states[i].disk.dBlocks[k])
    decreases i
  {
    hide CompleteAt, WasComplete, Do, CanDo;
    if i > 0 {
      StoredWasComplete(h, t, states, steps, i - 1);
      var c, e := states[i - 1], states[i];
      StepOnBlocks(h, t, c, steps[i - 1]);
      if c.phase.Checked? {
        StillWas(h, t, states, steps, i - 1, c.phase.b);
      }
      if e.phase.Checked? && CompleteAt(h, t, c, steps[i - 1], e.phase.b) {
        NowIs(h, t, states, steps, i - 1, e.phase.b);
      }
      forall k | k in e.disk.dBlocks
        ensures || (k in states[0].disk.dBlocks && e.disk.dBlocks[k] == states[0].disk.dBlocks[k])
                || WasComplete(h, t, states, steps, i, e.disk.dBlocks[k])
      {
        if k in c.disk.dBlocks && WasComplete(h, t, states, steps, i - 1, c.disk.dBlocks[k]) {
          StillWas(h, t, states, steps, i - 1, c.disk.dBlocks[k]);
        }
      }
    }
  }

  lemma NowIs(h: Hashing, t: Trust, states: seq<ClientState>, steps: seq<ClientStep>, i: nat, b: DirectoryBlock.Block)
    requires |steps| < |states| && i < |steps| && CompleteAt(h, t, states[i], steps[i], b)
    ensures WasComplete(h, t, states, steps, i + 1, b)
  {
    hide CompleteAt;
  }

  // ---------------------------------------------------------------- the client's chain table

  /** The block is number 0 of chain cid, and its first hash names entry e. */
  predicate StartsChain(h: Hashing, eb: EBlock.Block, cid: Digest, e: Entry) {
    eb.header.chainID == cid && eb.header.ebSequence == 0 && eb.body != [] && eb.body[0] == EntryHash(h, e)
  }

  predicate HasStart(h: Hashing, eStored: seq<EBlock.Block>, cid: Digest, e: Entry) {
    exists j :: 0 <= j < |eStored| && StartsChain(h, eStored[j], cid, e)
  }

  /** The chain table holds exactly the chains of the stored blocks number 0, each with an entry that such a
      block starts with; and entries are stored under their names. */
  predicate ChainTableRight(h: Hashing, d: Disk) {
    && Named(h, d.db.entries)
    && (forall cid :: cid in d.db.chains ==> HasStart(h, d.eStored, cid, d.db.chains[cid]))
    && (forall j :: 0 <= j < |d.eStored| && d.eStored[j].header.ebSequence == 0 ==>
        d.eStored[j].header.chainID in d.db.chains)
  }

  lemma OneMoreNamed(h: Hashing, entries: map<Digest, Entry>, e: Entry)
    requires Named(h, entries)
    ensures Named(h, entries[EntryHash(h, e) := e])
  {
    hide EntryHash;
  }

  lemma {:induction false} InsertKeepsNames(h: Hashing, pool: Pool, entries: map<Digest, Entry>, body: seq<Digest>)
    requires Named(h, entries)
    ensures Named(h, InsertEntries(h, pool, entries, body).0)
    decreases |body|
  {
    hide EntryHash, Named;
    if body != [] {
      var n := |body| - 1;
      InsertKeepsNames(h, pool, entries, body[..n]);
      if ByHash(body[n]) in pool && pool[ByHash(body[n])].EntryMsg? {
        OneMoreNamed(h, InsertEntries(h, pool, entries, body[..n]).0, pool[ByHash(body[n])].entry);
      }
    }
  }

  lemma StartStays(h: Hashing, eStored: seq<EBlock.Block>, more: seq<EBlock.Block>, cid: Digest, e: Entry)
    requires HasStart(h, eStored, cid, e)
    ensures HasStart(h, eStored + more, cid, e)
  {
    hide StartsChain;
    var j :| 0 <= j < |eStored| && StartsChain(h, eStored[j], cid, e);
    assert (eStored + more)[j] == eStored[j];
  }

  lemma LastStarts(h: Hashing, eStored: seq<EBlock.Block>, eb: EBlock.Block, e: Entry)
    requires StartsChain(h, eb, eb.header.chainID, e)
    ensures HasStart(h, eStored + [eb], eb.header.chainID, e)
  {
    hide StartsChain;
    assert (eStored + [eb])[|eStored|] == eb;
  }

  lemma StoreEntryBlockKeepsChains(h: Hashing, pool: Pool, d: Disk, eb: EBlock.Block)
    requires ChainTableRight(h, d)
    ensures var (e, ok) := StoreEntryBlock(h, pool, d, eb); ok ==> ChainTableRight(h, e)
  {
    hide EntryHash, InsertEntries, StoreEBlock, HasStart;
    InsertKeepsNames(h, pool, d.db.entries, eb.body);
    var (e, ok) := StoreEntryBlock(h, pool, d, eb);
    var entries := InsertEntries(h, pool, d.db.entries, eb.body).0;
    if ok {
      assert e.eStored == d.eStored + [eb] && e.db.entries == entries;
      assert e.db.chains == if eb.header.ebSequence == 0 then d.db.chains[eb.header.chainID := entries[eb.body[0]]]
          else d.db.chains;
      forall cid | cid in e.db.chains
        ensures HasStart(h, e.eStored, cid, e.db.chains[cid])
      {
        if cid == eb.header.chainID && eb.header.ebSequence == 0 {
          LastStarts(h, d.eStored, eb, e.db.chains[cid]);
        } else {
          StartStays(h, d.eStored, [eb], cid, d.db.chains[cid]);
        }
      }
      forall j | 0 <= j < |e.eStored| && e.eStored[j].header.ebSequence == 0
        ensures e.eStored[j].header.chainID in e.db.chains
      {
        if j < |d.eStored| {
          assert e.eStored[j] == d.eStored[j];
        }
      }
    }
  }

  lemma StorePartKeepsChains(h: Hashing, pool: Pool, d: Disk, e: DirectoryBlock.DBEntry)
    requires ChainTableRight(h, d)
    ensures var (f, ok) := StorePart(h, pool, d, e); ok ==> ChainTableRight(h, f)
  {
    hide EntryHash, StoreEntryBlock, HasStart, ECBlock.Built, ECBlock.HeaderHash, ECBlock.Sizable, Replay,
        AdminBlock.Consistent,
      AdminBlock.PartialHash;
    if ByHash(e.keyMR) in pool && pool[ByHash(e.keyMR)].EMsg? {
      StoreEntryBlockKeepsChains(h, pool, d, pool[ByHash(e.keyMR)].eBlock);
    }
  }

  lemma {:induction false} StorePartsKeepChains(h: Hashing, pool: Pool, d: Disk, es: seq<DirectoryBlock.DBEntry>)
    requires ChainTableRight(h, d)
    ensures var (f, ok) := StoreParts(h, pool, d, es); ok ==> ChainTableRight(h, f)
    decreases |es|
  {
    hide ChainTableRight, StorePart;
    if es != [] {
      var n := |es| - 1;
      StorePartsKeepChains(h, pool, d, es[..n]);
      var (f, ok) := StoreParts(h, pool, d, es[..n]);
      if ok {
        StorePartKeepsChains(h, pool, f, es[n]);
      }
    }
  }

  lemma SameTable(h: Hashing, d: Disk, e: Disk)
    requires ChainTableRight(h, d) && e.db == d.db && e.eStored == d.eStored
    ensures ChainTableRight(h, e)
  {
    hide EntryHash, HasStart;
  }

  lemma StepKeepsChains(h: Hashing, t: Trust, c: ClientState, step: ClientStep)
    requires CanDo(h, c, step) && (c.phase.Dead? || ChainTableRight(h, c.disk))
    ensures var e := Do(h, t, c, step); e.phase.Dead? || ChainTableRight(h, e.disk)
  {
    hide ChainTableRight, BlockAnswer, StoreParts, DeleteBlock, AddBlockMsg, OwnKey, Decoded, EBlock.Built;
    if step.Save? {
      StorePartsKeepChains(h, c.pool, c.disk, c.phase.b.entries);
      var (f, ok) := StoreParts(h, c.pool, c.disk, c.phase.b.entries);
      if ok {
        SameTable(h, f, OnSave(h, c).disk);
      }
    }
  }

  /** Over a run, as long as a client has not stopped, its chain table holds exactly the chains whose block
      number 0 it has stored, each with an entry that such a block starts with. */
  lemma {:induction false} ChainTableOverRun(h: Hashing, t: Trust, states: seq<ClientState>, steps: seq<ClientStep>,
      i: nat)
    requires IsSync(h, t, states, steps) && i < |states| && ChainTableRight(h, states[0].disk)
    ensures states[i].phase.Dead? || ChainTableRight(h, states[i].disk)
    decreases i
  {
    hide ChainTableRight, Do, CanDo;
    if i > 0 {
      ChainTableOverRun(h, t, states, steps, i - 1);
      StepKeepsChains(h, t, states[i - 1], steps[i - 1]);
    }
  }

  lemma EmptyChainTable(h: Hashing)
    ensures ChainTableRight(h, EmptyDisk())
  {
  }

  // ---------------------------------------------------------------- a client goes on

  /** The message is of the kind that belongs there; an entry block has its entries in the pool as entries, and
      the first one of a chain has its first entry at hand. */
  predicate KindRight(pool: Pool, entries: map<Digest, Entry>, e: DirectoryBlock.DBEntry) {
    && ByHash(e.keyMR) in pool
    && var m := pool[ByHash(e.keyMR)];
    if e.chainID == EC_CHAINID then m.ECMsg?
    else if e.chainID == ADMIN_CHAINID then m.AMsg?
    else if e.chainID == FACTOID_CHAINID then m.FMsg?
    else
      && m.EMsg? && EntriesAreEntries(pool, m.eBlock.body)
      && (m.eBlock.header.ebSequence == 0 && m.eBlock.body != [] ==>
            m.eBlock.body[0] in entries || ByHash(m.eBlock.body[0]) in pool)
  }

  predicate EntriesAreEntries(pool: Pool, body: seq<Digest>) {
    forall k :: 0 <= k < |body| && ByHash(body[k]) in pool ==> pool[ByHash(body[k])].EntryMsg?
  }

  lemma {:induction false} InsertsAll(h: Hashing, pool: Pool, entries: map<Digest, Entry>, body: seq<Digest>)
    requires EntriesAreEntries(pool, body)
    ensures InsertEntries(h, pool, entries, body).1
    decreases |body|
  {
    hide EntryHash;
    if body != [] {
      assert forall k :: 0 <= k < |body| - 1 ==> body[..|body| - 1][k] == body[k];
      InsertsAll(h, pool, entries, body[..|body| - 1]);
    }
  }

  lemma EntryBlockIsStored(h: Hashing, pool: Pool, d: Disk, before: map<Digest, Entry>, key: Digest)
    requires WellKeyed(h, pool) && before.Keys <= d.db.entries.Keys && ByHash(key) in pool && pool[ByHash(key)].EMsg?
    requires var eb := pool[ByHash(key)].eBlock;
      EntriesAreEntries(pool, eb.body)
          && (eb.header.ebSequence == 0 && eb.body != [] ==> eb.body[0] in before || ByHash(eb.body[0]) in pool)
    ensures StoreEntryBlock(h, pool, d, pool[ByHash(key)].eBlock).1
  {
    hide InsertEntries, StoreEBlock, EntriesAreEntries, EBlock.KeyMR, EBlock.Built, AdminBlock.PartialHash,
        ECBlock.HeaderHash;
    var eb := pool[ByHash(key)].eBlock;
    assert MsgRight(h, ByHash(key), pool[ByHash(key)]);
    InsertsAll(h, pool, d.db.entries, eb.body);
    InsertedEntries(h, pool, d.db.entries, eb.body);
  }

  lemma PartIsStored(h: Hashing, pool: Pool, d: Disk, before: map<Digest, Entry>, e: DirectoryBlock.DBEntry)
    requires WellKeyed(h, pool) && before.Keys <= d.db.entries.Keys && KindRight(pool, before, e)
    ensures StorePart(h, pool, d, e).1
  {
    hide WellKeyed, StoreEntryBlock, EntriesAreEntries, ECBlock.Built, ECBlock.HeaderHash, ECBlock.Sizable, Replay,
      AdminBlock.Consistent, AdminBlock.PartialHash;
    ChainIDsDiffer();
    DecodedIn(h, pool, ByHash(e.keyMR));
    if pool[ByHash(e.keyMR)].EMsg? {
      EntryBlockIsStored(h, pool, d, before, e.keyMR);
    }
  }

  lemma DecodedIn(h: Hashing, pool: Pool, key: PoolKey)
    requires WellKeyed(h, pool) && key in pool
    ensures pool[key].AMsg? ==> AdminBlock.Consistent(pool[key].admin)
    ensures pool[key].ECMsg? ==> ECBlock.Sizable(pool[key].ec)
  {
    hide OwnKey, EBlock.Built, AdminBlock.Consistent, ECBlock.Sizable;
    assert MsgRight(h, key, pool[key]);
  }

  lemma {:induction false} PartsAreStored(h: Hashing, pool: Pool, d: Disk, es: seq<DirectoryBlock.DBEntry>)
    requires WellKeyed(h, pool) && forall j :: 0 <= j < |es| ==> KindRight(pool, d.db.entries, es[j])
    ensures var (f, ok) := StoreParts(h, pool, d, es); ok && d.db.entries.Keys <= f.db.entries.Keys
    decreases |es|
  {
    hide WellKeyed, KindRight, StorePart;
    if es != [] {
      var n := |es| - 1;
      assert forall j :: 0 <= j < n ==> es[..n][j] == es[j];
      PartsAreStored(h, pool, d, es[..n]);
      var f := StoreParts(h, pool, d, es[..n]).0;
      PartIsStored(h, pool, f, d.db.entries, es[n]);
      EntriesGrow(h, pool, f, es[n]);
    }
  }

  lemma EntriesGrow(h: Hashing, pool: Pool, d: Disk, e: DirectoryBlock.DBEntry)
    requires WellKeyed(h, pool)
    ensures d.db.entries.Keys <= StorePart(h, pool, d, e).0.db.entries.Keys
  {
    hide WellKeyed, InsertEntries, StoreEBlock, ECBlock.Built, ECBlock.HeaderHash, ECBlock.Sizable, Replay,
        AdminBlock.Consistent,
      AdminBlock.PartialHash;
    if ByHash(e.keyMR) in pool && pool[ByHash(e.keyMR)].EMsg? {
      InsertedEntries(h, pool, d.db.entries, pool[ByHash(e.keyMR)].eBlock.body);
    }
  }

  /** A client goes on: if the block after its newest is in its slot and complete, with parts of the right kinds,
      then checking and storing put it on top of the stored ones. */
  lemma ClientAdvances(h: Hashing, t: Trust, c: ClientState, b: DirectoryBlock.Block)
    requires SyncInv(h, c) && c.phase == Idle
    requires c.disk.height + 1 < |c.blocks| && c.blocks[c.disk.height + 1] == Some(b)
    requires Complete(h, t, c.pool, c.blocks, c.disk.db.entries, b)
    requires forall j :: 0 <= j < |b.entries| ==> KindRight(c.pool, c.disk.db.entries, b.entries[j])
    ensures OnCheck(h, t, c) == c.(phase := Checked(b, c.pool))
    ensures var e := OnSave(h, OnCheck(h, t, c));
      && e.phase == Saved(b) && e.pool == c.pool
      && e.disk.height == c.disk.height + 1 && e.disk.dBlocks == c.disk.dBlocks[c.disk.height + 1 := b]
  {
    hide WellKeyed, Keeps, KindRight, Complete, BlockAnswer, StoreParts, ReplayBlocks;
    CompleteIff(h, t, c.pool, c.blocks, c.disk.db.entries, b);
    PartsAreStored(h, c.pool, c.disk, b.entries);
    PartsKeepBlocks(h, c.pool, c.disk, b.entries);
  }
}
