/** How a client catches up (process/syncup.go): blocks and entries arrive in a memory pool under
    their own hashes; a directory block whose parts are all there is checked, stored and cleared. */
module SyncUp {
  import opened Basics
  import opened Entries
  import opened EntryStore
  import opened Builder
  import opened ECLedger
  import opened Signatures
  import ProcessList
  import EBlock
  import ECBlock
  import AdminBlock
  import DirectoryBlock

  /** Pool keys are strings: a hash in hexadecimal, or a height in decimal. */
  datatype PoolKey = ByHash(hash: Digest) | ByHeight(height: u32)

  datatype PoolMsg =
    | DirMsg(dir: DirectoryBlock.Block)
    | FMsg(fBlock: FBlock)
    | AMsg(admin: AdminBlock.Block)
    | ECMsg(ec: ECBlock.Block)
    | EMsg(eBlock: EBlock.Block)
    | EntryMsg(entry: Entry)

  type Pool = map<PoolKey, PoolMsg>

  const MAX_BLK_POOL_SIZE: int := 500000

  /** What reading a message from the wire guarantees. */
  predicate Decoded(m: PoolMsg) {
    match m
    case AMsg(a) => AdminBlock.Consistent(a)
    case ECMsg(ec) => ECBlock.Sizable(ec)
    case EMsg(eb) => |eb.body| < TWO_32
    case _ => true
  }

  /** The hash or height of the message itself (process/syncup.go:41, 82, 102, 123, 148, 169). An entry
      block without entries has no key. */
  function OwnKey(h: Hashing, m: PoolMsg): PoolKey
    requires Decoded(m) && (m.EMsg? ==> m.eBlock.body != [])
  {
    match m
    case DirMsg(b) => ByHeight(b.header.dbHeight)
    case FMsg(f) => ByHash(f.hash)
    case AMsg(a) => ByHash(AdminBlock.PartialHash(h, a))
    case ECMsg(ec) => ByHash(ECBlock.HeaderHash(h, ec))
    case EMsg(eb) => ByHash(EBlock.KeyMR(h, eb))
    case EntryMsg(e) => ByHash(EntryHash(h, e))
  }

  /** What the client keeps in its database: the tables, the directory blocks by height, the height of
      the newest one (-1 before the first), and in memory the balances. `eStored` and `ecStored` are
      history variables: the entry and entry credit blocks stored so far. */
  datatype Disk = Disk(db: Db, dBlocks: map<int, DirectoryBlock.Block>, height: int, credits: map<Digest, int>,
                       eStored: seq<EBlock.Block>, ecStored: seq<ECBlock.Block>)

  // ---------------------------------------------------------------- checking one directory block

  /** The entry is on its way or already stored. */
  predicate EntryAtHand(pool: Pool, entries: map<Digest, Entry>, x: Digest) {
    ByHash(x) in pool || EBlock.IsMinuteMarker(x) || x in entries
  }

  predicate BodyAtHand(pool: Pool, entries: map<Digest, Entry>, body: seq<Digest>) {
    forall k :: 0 <= k < |body| ==> EntryAtHand(pool, entries, body[k])
  }

  /** process/syncup.go:249-288. A message of the wrong kind is a nil pointer. */
  function PartAnswer(t: Trust, pool: Pool, blocks: seq<Option<DirectoryBlock.Block>>, entries: map<Digest, Entry>,
                      e: DirectoryBlock.DBEntry): Answer {
    if ByHash(e.keyMR) !in pool then No
    else
      var m := pool[ByHash(e.keyMR)];
      if e.chainID == EC_CHAINID || e.chainID == FACTOID_CHAINID then Yes
      else if e.chainID == ADMIN_CHAINID then
        if m.AMsg? then SignatureAnswer(t, blocks, m.admin) else Panics
      else if !m.EMsg? then Panics
      else if BodyAtHand(pool, entries, m.eBlock.body) then Yes
      else No
  }

  /** The first part that is not a yes decides. */
  function PartsAnswer(t: Trust, pool: Pool, blocks: seq<Option<DirectoryBlock.Block>>, entries: map<Digest, Entry>,
                       es: seq<DirectoryBlock.DBEntry>): Answer {
    if es == [] then Yes
    else
      var before := PartsAnswer(t, pool, blocks, entries, es[..|es| - 1]);
      if before != Yes then before else PartAnswer(t, pool, blocks, entries, es[|es| - 1])
  }

  /** process/syncup.go:233-291 */
  function BlockAnswer(h: Hashing, t: Trust, pool: Pool, blocks: seq<Option<DirectoryBlock.Block>>,
                       entries: map<Digest, Entry>, b: DirectoryBlock.Block): Answer {
    if b.header.dbHeight == 0 && DirectoryBlock.DBHash(h, b) != t.genesis then Panics
    else PartsAnswer(t, pool, blocks, entries, b.entries)
  }

  /** The entry names a message that a directory block can be stored with: an admin block signed as its height
      asks, an entry block all of whose entries are here, on their way, or markers, or anything at all where an
      entry credit block or a factoid block belongs. */
  predicate PartFine(t: Trust, pool: Pool, blocks: seq<Option<DirectoryBlock.Block>>, entries: map<Digest, Entry>,
                     e: DirectoryBlock.DBEntry) {
    && ByHash(e.keyMR) in pool
    && var m := pool[ByHash(e.keyMR)];
    if e.chainID == ADMIN_CHAINID then m.AMsg? && Signed(t, blocks, m.admin)
    else e.chainID == EC_CHAINID || e.chainID == FACTOID_CHAINID || (m.EMsg? && BodyFine(pool, entries, m.eBlock.body))
  }

  predicate BodyFine(pool: Pool, entries: map<Digest, Entry>, body: seq<Digest>) {
    forall k :: 0 <= k < |body| ==> body[k] in entries || ByHash(body[k]) in pool || body[k][..31] == Zeros(31)
  }

  lemma BodyMeans(pool: Pool, entries: map<Digest, Entry>, body: seq<Digest>)
    ensures BodyAtHand(pool, entries, body) <==> BodyFine(pool, entries, body)
  {
    forall k | 0 <= k < |body|
      ensures EntryAtHand(pool, entries, body[k])
          <==> body[k] in entries || ByHash(body[k]) in pool || body[k][..31] == Zeros(31)
    {
    }
  }

  lemma PartMeans(t: Trust, pool: Pool, blocks: seq<Option<DirectoryBlock.Block>>, entries: map<Digest, Entry>,
                  e: DirectoryBlock.DBEntry)
    ensures PartAnswer(t, pool, blocks, entries, e) == Yes <==> PartFine(t, pool, blocks, entries, e)
  {
    hide SignatureAnswer, Signed, BodyAtHand, BodyFine;
    ChainIDsDiffer();
    if ByHash(e.keyMR) in pool {
      var m := pool[ByHash(e.keyMR)];
      if m.AMsg? {
        AnswerMeans(t, blocks, m.admin);
      } else if m.EMsg? {
        BodyMeans(pool, entries, m.eBlock.body);
      }
    }
  }

  lemma {:induction false} PartsMean(t: Trust, pool: Pool, blocks: seq<Option<DirectoryBlock.Block>>,
      entries: map<Digest, Entry>, es: seq<DirectoryBlock.DBEntry>)
    ensures PartsAnswer(t, pool, blocks, entries, es) == Yes <==> forall j :: 0 <= j < |es| ==>
        PartFine(t, pool, blocks, entries, es[j])
    decreases |es|
  {
    hide PartAnswer, PartFine;
    if es != [] {
      var n := |es| - 1;
      PartsMean(t, pool, blocks, entries, es[..n]);
      PartMeans(t, pool, blocks, entries, es[n]);
      assert forall j :: 0 <= j < n ==> es[..n][j] == es[j];
    }
  }

  /** The directory block is the expected one, if it is at height 0, and all its parts are fine. */
  predicate Complete(h: Hashing, t: Trust, pool: Pool, blocks: seq<Option<DirectoryBlock.Block>>, entries: map<Digest,
      Entry>,
                     b: DirectoryBlock.Block) {
    && (b.header.dbHeight == 0 ==>
          h.sha256(DirectoryBlock.MarshalHeader(b.header) + DirectoryBlock.MarshalEntries(b.entries)) == t.genesis)
    && forall j :: 0 <= j < |b.entries| ==> PartFine(t, pool, blocks, entries, b.entries[j])
  }

  /** The check passes exactly the complete blocks; so none passes that lists an admin block above height 0
      which the server has not signed. */
  lemma CompleteIff(h: Hashing, t: Trust, pool: Pool, blocks: seq<Option<DirectoryBlock.Block>>, entries: map<Digest,
      Entry>,
                    b: DirectoryBlock.Block)
    ensures BlockAnswer(h, t, pool, blocks, entries, b) == Yes <==> Complete(h, t, pool, blocks, entries, b)
  {
    hide PartsAnswer, PartFine, DirectoryBlock.MarshalHeader, DirectoryBlock.MarshalEntries;
    PartsMean(t, pool, blocks, entries, b.entries);
  }

  /** The part is there but is of the wrong kind, or an admin block that is signed with no slot to check it
      against. */
  predicate PartStops(t: Trust, pool: Pool, blocks: seq<Option<DirectoryBlock.Block>>, e: DirectoryBlock.DBEntry) {
    && ByHash(e.keyMR) in pool && e.chainID != EC_CHAINID && e.chainID != FACTOID_CHAINID
    && var m := pool[ByHash(e.keyMR)];
    if e.chainID == ADMIN_CHAINID then !m.AMsg? || NoSlotBelow(t, blocks, m.admin) else !m.EMsg?
  }

  lemma PartStopsIff(t: Trust, pool: Pool, blocks: seq<Option<DirectoryBlock.Block>>, entries: map<Digest, Entry>,
                     e: DirectoryBlock.DBEntry)
    ensures PartAnswer(t, pool, blocks, entries, e) == Panics <==> PartStops(t, pool, blocks, e)
  {
    hide SignatureAnswer, NoSlotBelow, BodyAtHand;
    ChainIDsDiffer();
    if ByHash(e.keyMR) in pool && pool[ByHash(e.keyMR)].AMsg? {
      AnswerMeans(t, blocks, pool[ByHash(e.keyMR)].admin);
    }
  }

  predicate StopsAt(t: Trust, pool: Pool, blocks: seq<Option<DirectoryBlock.Block>>, entries: map<Digest, Entry>,
                    es: seq<DirectoryBlock.DBEntry>, j: nat) {
    j < |es| && PartStops(t, pool, blocks, es[j]) && forall i :: 0 <= i < j ==> PartFine(t, pool, blocks, entries, es[i])
  }

  lemma {:induction false} PartsStopIff(t: Trust, pool: Pool, blocks: seq<Option<DirectoryBlock.Block>>,
      entries: map<Digest, Entry>, es: seq<DirectoryBlock.DBEntry>)
    ensures PartsAnswer(t, pool, blocks, entries, es) == Panics
       <==> exists j :: 0 <= j < |es| && StopsAt(t, pool, blocks, entries, es, j)
    decreases |es|
  {
    hide PartAnswer, PartFine, PartStops;
    if es != [] {
      var n := |es| - 1;
      PartsStopIff(t, pool, blocks, entries, es[..n]);
      PartsMean(t, pool, blocks, entries, es[..n]);
      PartStopsIff(t, pool, blocks, entries, es[n]);
      assert forall i :: 0 <= i < n ==> es[..n][i] == es[i];
      if PartsAnswer(t, pool, blocks, entries, es) == Panics {
        if j :| 0 <= j < n && StopsAt(t, pool, blocks, entries, es[..n], j) {
          assert StopsAt(t, pool, blocks, entries, es, j);
        } else {
          assert StopsAt(t, pool, blocks, entries, es, n);
        }
      }
      if j :| 0 <= j < |es| && StopsAt(t, pool, blocks, entries, es, j) {
        if j < n {
          assert StopsAt(t, pool, blocks, entries, es[..n], j);
        }
      }
    }
  }

  /** The check itself panics exactly on an unexpected block at height 0, or where the first part that is not
      fine stops it. */
  lemma CheckStopsIff(h: Hashing, t: Trust, pool: Pool, blocks: seq<Option<DirectoryBlock.Block>>, entries: map<Digest,
      Entry>,
                      b: DirectoryBlock.Block)
    ensures BlockAnswer(h, t, pool, blocks, entries, b) == Panics
       <==> ((b.header.dbHeight == 0
              && h.sha256(DirectoryBlock.MarshalHeader(b.header) + DirectoryBlock.MarshalEntries(b.entries)) != t.genesis)
             || exists j :: 0 <= j < |b.entries| && StopsAt(t, pool, blocks, entries, b.entries, j))
  {
    hide PartsAnswer, StopsAt, DirectoryBlock.MarshalHeader, DirectoryBlock.MarshalEntries;
    PartsStopIff(t, pool, blocks, entries, b.entries);
  }

  // ---------------------------------------------------------------- storing one directory block

  /** process/syncup.go:338-345: entries that are in the pool; false if one is no entry. */
  function InsertEntries(h: Hashing, pool: Pool, entries: map<Digest, Entry>, body: seq<Digest>): (map<Digest, Entry>,
                         bool) {
    if body == [] then (entries, true)
    else
      var n := |body| - 1;
      var (before, ok) := InsertEntries(h, pool, entries, body[..n]);
      if !ok || ByHash(body[n]) !in pool then (before, ok)
      else
        match pool[ByHash(body[n])]
        case EntryMsg(e) => (before[EntryHash(h, e) := e], true)
        case _ => (before, false)
  }

  /** process/syncup.go:334-363: the entries, then the block, then its chain if it is the first. */
  function StoreEntryBlock(h: Hashing, pool: Pool, d: Disk, eb: EBlock.Block): (Disk, bool)
  {
    var (entries, ok) := InsertEntries(h, pool, d.db.entries, eb.body);
    var d1 := d.(db := d.db.(entries := entries));
    if !ok || eb.body == [] then (d1, false)
    else
      var d2 := d1.(db := d1.db.(eTables := StoreEBlock(h, d1.db.eTables, eb)), eStored := d1.eStored + [eb]);
      if eb.header.ebSequence != 0 then (d2, true)
      else if eb.body[0] !in entries then (d2, false)
      else (d2.(db := d2.db.(chains := d2.db.chains[eb.header.chainID := entries[eb.body[0]]])), true)
  }

  /** process/syncup.go:299-368 for one entry of the directory block; false is a panic. Writing an
      entry credit block builds its header first. */
  function StorePart(h: Hashing, pool: Pool, d: Disk, e: DirectoryBlock.DBEntry): (Disk, bool)
  {
    if ByHash(e.keyMR) !in pool then (d, false)
    else
      match pool[ByHash(e.keyMR)]
      case ECMsg(ec) =>
        if e.chainID != EC_CHAINID || !ECBlock.Sizable(ec) then (d, false)
        else
          var block := ECBlock.Built(h, ec);
          (d.(db := d.db.(ecBlocks := d.db.ecBlocks[ECBlock.HeaderHash(h, block) := block]),
              credits := Replay(d.credits, ec.body), ecStored := d.ecStored + [ec]), true)
      case AMsg(a) =>
        if e.chainID != ADMIN_CHAINID || !AdminBlock.Consistent(a) then (d, false)
        else (d.(db := d.db.(aBlocks := d.db.aBlocks[AdminBlock.PartialHash(h, a) := a])), true)
      case FMsg(f) =>
        if e.chainID != FACTOID_CHAINID then (d, false)
        else (d.(db := d.db.(fBlocks := d.db.fBlocks[f.hash := f])), true)
      case EMsg(eb) =>
        if e.chainID == EC_CHAINID || e.chainID == ADMIN_CHAINID || e.chainID == FACTOID_CHAINID then (d, false)
        else StoreEntryBlock(h, pool, d, eb)
      case _ => (d, false)
  }

  function StoreParts(h: Hashing, pool: Pool, d: Disk, es: seq<DirectoryBlock.DBEntry>): (Disk, bool) {
    if es == [] then (d, true)
    else
      var n := |es| - 1;
      var (before, ok) := StoreParts(h, pool, d, es[..n]);
      if !ok then (before, false) else StorePart(h, pool, before, es[n])
  }

  /** process/syncup.go:295-399 */
  function StoreBlock(h: Hashing, pool: Pool, d: Disk, b: DirectoryBlock.Block): (Disk, bool) {
    var (e, ok) := StoreParts(h, pool, d, b.entries);
    if !ok then (e, false)
    else (e.(dBlocks := e.dBlocks[b.header.dbHeight := b], height := b.header.dbHeight), true)
  }

  // ---------------------------------------------------------------- clearing one directory block

  function HashKeys(body: seq<Digest>): set<PoolKey> {
    set x | x in body :: ByHash(x)
  }

  /** process/syncup.go:404-421. The keys to delete are read from the pool: an entry block that is no
      longer there is a nil pointer. */
  function DeletePart(pool: Pool, e: DirectoryBlock.DBEntry): Option<Pool> {
    var key := ByHash(e.keyMR);
    if OwnChain(e.chainID) then Some(pool - {key})
    else if key in pool && pool[key].EMsg? then Some(pool - HashKeys(pool[key].eBlock.body) - {key})
    else None
  }

  function DeleteParts(pool: Pool, es: seq<DirectoryBlock.DBEntry>): Option<Pool> {
    if es == [] then Some(pool)
    else
      match DeleteParts(pool, es[..|es| - 1])
      case None => None
      case Some(p) => DeletePart(p, es[|es| - 1])
  }

  /** process/syncup.go:402-425 */
  function DeleteBlock(pool: Pool, b: DirectoryBlock.Block): Option<Pool> {
    match DeleteParts(pool, b.entries)
    case None => None
    case Some(p) => Some(p - {ByHeight(b.header.dbHeight)})
  }

  // ---------------------------------------------------------------- arrivals

  /** process/mempool.go:64-74 */
  function AddBlockMsg(pool: Pool, key: PoolKey, m: PoolMsg): Pool {
    if |pool| > MAX_BLK_POOL_SIZE then pool else pool[key := m]
  }

  // ---------------------------------------------------------------- the client in stages

  /** Where the storing loop is. Messages keep arriving between its stages. `snap` is a history
      variable: the pool when the block was found complete. `Dead` is a client that panicked. */
  datatype Phase = Idle | Checked(b: DirectoryBlock.Block, snap: Pool) | Saved(b: DirectoryBlock.Block) | Dead

  datatype ClientState = ClientState(pool: Pool, blocks: seq<Option<DirectoryBlock.Block>>, disk: Disk, phase: Phase)

  function OnArrival(h: Hashing, c: ClientState, m: PoolMsg): ClientState
    requires Decoded(m)
  {
    match m
    case DirMsg(b) =>
      if b.header.dbHeight in c.disk.dBlocks then c
      else if b.header.dbHeight >= TWO_31 then c.(phase := Dead)
      else c.(blocks := ProcessList.PutAt(c.blocks, b.header.dbHeight, b), pool := AddBlockMsg(c.pool, OwnKey(h, m), m))
    case EMsg(eb) =>
      if eb.body == [] then c.(phase := Dead)
      else c.(pool := AddBlockMsg(c.pool, OwnKey(h, m), EMsg(EBlock.Built(h, eb))))
    case _ => c.(pool := AddBlockMsg(c.pool, OwnKey(h, m), m))
  }

  function OnCheck(h: Hashing, t: Trust, c: ClientState): ClientState
    requires c.disk.height >= -1
  {
    match NextBlock(c.blocks, c.disk.height)
    case None => c
    case Some(b) =>
      match BlockAnswer(h, t, c.pool, c.blocks, c.disk.db.entries, b)
      case Yes => c.(phase := Checked(b, c.pool))
      case No => c
      case Panics => c.(phase := Dead)
  }

  function OnSave(h: Hashing, c: ClientState): ClientState
    requires c.phase.Checked?
  {
    var (d, ok) := StoreBlock(h, c.pool, c.disk, c.phase.b);
    c.(disk := d, phase := if ok then Saved(c.phase.b) else Dead)
  }

  function OnClean(c: ClientState): ClientState
    requires c.phase.Saved?
  {
    match DeleteBlock(c.pool, c.phase.b)
    case None => c.(phase := Dead)
    case Some(p) => c.(pool := p, phase := Idle)
  }

  // ---------------------------------------------------------------- the loops

  /** The client's pool, directory chain and database, with the methods of process/syncup.go. A false
      result is a run-time panic. */
  class Client {
    const h: Hashing
    const trust: Trust
    var blockpool: Pool
    var blocks: seq<Option<DirectoryBlock.Block>>
    var db: Db
    var dBlocks: map<int, DirectoryBlock.Block>
    var lastDirBlkHeight: int
    var eCreditMap: map<Digest, int>
    ghost var eStored: seq<EBlock.Block>
    ghost var ecStored: seq<ECBlock.Block>

    constructor (h: Hashing, trust: Trust)
      ensures this.h == h && this.trust == trust && blockpool == map[] && blocks == []
      ensures OnDisk() == EmptyDisk()
    {
      this.h, this.trust, blockpool, blocks := h, trust, map[], [];
      db, dBlocks, lastDirBlkHeight, eCreditMap := Db(map[], map[], map[], NoTables, map[], map[]), map[], -1, map[];
      eStored, ecStored := [], [];
    }

    ghost function OnDisk(): Disk
      reads this
    {
      Disk(db, dBlocks, lastDirBlkHeight, eCreditMap, eStored, ecStored)
    }

    ghost function View(phase: Phase): ClientState
      reads this
    {
      ClientState(blockpool, blocks, OnDisk(), phase)
    }

    /** process/syncup.go:22-71. Heights from 2^31 on overflow the growing slice. */
    method ProcessDirBlock(b: DirectoryBlock.Block) returns (ok: bool)
      modifies this`blocks, this`blockpool
      ensures View(if ok then Idle else Dead) == OnArrival(h, old(View(Idle)), DirMsg(b))
      ensures ok <==> b.header.dbHeight in dBlocks || b.header.dbHeight < TWO_31
      ensures b.header.dbHeight in dBlocks ==> blocks == old(blocks) && blockpool == old(blockpool)
      ensures ok && b.header.dbHeight !in dBlocks ==>
        && blocks == ProcessList.PutAt(old(blocks), b.header.dbHeight, b)
        && blockpool == AddBlockMsg(old(blockpool), OwnKey(h, DirMsg(b)), DirMsg(b))
        && blockpool == if |old(blockpool)| > 500000 then old(blockpool)
            else old(blockpool)[ByHeight(b.header.dbHeight) := DirMsg(b)]
    {
      if b.header.dbHeight in dBlocks {
        return true;
      }
      if b.header.dbHeight >= TWO_31 {
        return false;
      }
      blocks := ProcessList.PutAt(blocks, b.header.dbHeight, b);
      blockpool := AddBlockMsg(blockpool, ByHeight(b.header.dbHeight), DirMsg(b));
      return true;
    }

    /** process/syncup.go:75-175, the other five kinds. Asking an entry block for its key builds its
        header, and fails if it has no entries. */
    method ProcessPart(m: PoolMsg) returns (ok: bool)
      requires Decoded(m) && !m.DirMsg?
      modifies this`blockpool
      ensures View(if ok then Idle else Dead) == OnArrival(h, old(View(Idle)), m)
      ensures ok <==> !(m.EMsg? && m.eBlock.body == [])
      ensures !ok ==> blockpool == old(blockpool)
      ensures ok ==> blockpool == AddBlockMsg(old(blockpool), OwnKey(h, m),
          if m.EMsg? then EMsg(EBlock.Built(h, m.eBlock)) else m)
    {
      if m.EMsg? && m.eBlock.body == [] {
        return false;
      }
      blockpool := AddBlockMsg(blockpool, OwnKey(h, m), if m.EMsg? then EMsg(EBlock.Built(h, m.eBlock)) else m);
      return true;
    }

    /** process/syncup.go:233-291 */
    method ValidateBlocksFromMemPool(b: DirectoryBlock.Block) returns (a: Answer)
      ensures a == BlockAnswer(h, trust, blockpool, blocks, db.entries, b)
      ensures a == Yes <==> Complete(h, trust, blockpool, blocks, db.entries, b)
    {
      hide DirectoryBlock.DBHash, SignatureAnswer, EBlock.IsMinuteMarker, Complete;
      CompleteIff(h, trust, blockpool, blocks, db.entries, b);
      if b.header.dbHeight == 0 && DirectoryBlock.DBHash(h, b) != trust.genesis {
        return Panics;
      }
      for i := 0 to |b.entries|
        invariant PartsAnswer(trust, blockpool, blocks, db.entries, b.entries[..i]) == Yes
      {
        assert b.entries[..i + 1][..i] == b.entries[..i];
        a := ValidatePart(b.entries[i]);
        if a != Yes {
          FirstAnswerDecides(trust, blockpool, blocks, db.entries, b.entries, i);
          return;
        }
      }
      assert b.entries[..|b.entries|] == b.entries;
      return Yes;
    }

    method ValidatePart(e: DirectoryBlock.DBEntry) returns (a: Answer)
      ensures a == PartAnswer(trust, blockpool, blocks, db.entries, e)
    {
      hide SignatureAnswer, EBlock.IsMinuteMarker;
      if ByHash(e.keyMR) !in blockpool {
        return No;
      }
      var m := blockpool[ByHash(e.keyMR)];
      if e.chainID == EC_CHAINID || e.chainID == FACTOID_CHAINID {
        return Yes;
      }
      if e.chainID == ADMIN_CHAINID {
        return if m.AMsg? then SignatureAnswer(trust, blocks, m.admin) else Panics;
      }
      if !m.EMsg? {
        return Panics;
      }
      var body := m.eBlock.body;
      for k := 0 to |body|
        invariant BodyAtHand(blockpool, db.entries, body[..k])
      {
        assert body[..k + 1] == body[..k] + [body[k]];
        if ByHash(body[k]) !in blockpool {
          if !EBlock.IsMinuteMarker(body[k]) {
            if body[k] !in db.entries {
              assert !EntryAtHand(blockpool, db.entries, body[k]);
              return No;
            }
          }
        }
      }
      assert body[..|body|] == body;
      return Yes;
    }

    /** process/syncup.go:338-345 */
    method InsertFromPool(body: seq<Digest>) returns (ok: bool)
      modifies this`db
      ensures var (after, all) := InsertEntries(h, blockpool, old(db).entries, body);
        db == old(db).(entries := after) && ok == all
    {
      hide EntryHash;
      for k := 0 to |body|
        invariant db == old(db).(entries := db.entries)
        invariant InsertEntries(h, blockpool, old(db).entries, body[..k]) == (db.entries, true)
      {
        assert body[..k + 1][..k] == body[..k];
        if ByHash(body[k]) in blockpool {
          var m := blockpool[ByHash(body[k])];
          if !m.EntryMsg? {
            InsertStops(h, blockpool, old(db).entries, body, k + 1);
            return false;
          }
          db := db.(entries := db.entries[EntryHash(h, m.entry) := m.entry]);
        }
      }
      assert body[..|body|] == body;
      return true;
    }

    /** process/syncup.go:334-363 */
    method StoreEBlockPart(eb: EBlock.Block) returns (ok: bool)
      modifies this`db, this`eStored
      ensures (OnDisk(), ok) == StoreEntryBlock(h, blockpool, old(OnDisk()), eb)
    {
      hide InsertEntries, EBlock.KeyMR, EBlock.FullHash, EBlock.Built, Key, Put;
      ok := InsertFromPool(eb.body);
      if !ok || eb.body == [] {
        return false;
      }
      db := db.(eTables := StoreEBlock(h, db.eTables, eb));
      eStored := eStored + [eb];
      if eb.header.ebSequence == 0 {
        if eb.body[0] !in db.entries {
          return false;
        }
        db := db.(chains := db.chains[eb.header.chainID := db.entries[eb.body[0]]]);
      }
      return true;
    }

    /** process/syncup.go:299-368 */
    method StoreOnePart(e: DirectoryBlock.DBEntry) returns (ok: bool)
      modifies this`db, this`eCreditMap, this`eStored, this`ecStored
      ensures (OnDisk(), ok) == StorePart(h, blockpool, old(OnDisk()), e)
    {
      hide StoreEntryBlock, ECBlock.Built, ECBlock.HeaderHash, AdminBlock.PartialHash, ECBlock.Sizable,
        AdminBlock.Consistent, Replay;
      ChainIDsDiffer();
      if ByHash(e.keyMR) !in blockpool {
        return false;
      }
      var m := blockpool[ByHash(e.keyMR)];
      if e.chainID == EC_CHAINID {
        if !m.ECMsg? || !ECBlock.Sizable(m.ec) {
          return false;
        }
        var block := ECBlock.Built(h, m.ec);
        SizableHeader(block);
        db := db.(ecBlocks := db.ecBlocks[ECBlock.HeaderHash(h, block) := block]);
        eCreditMap := InitializeECreditMap(eCreditMap, m.ec);
        ecStored := ecStored + [m.ec];
        return true;
      }
      if e.chainID == ADMIN_CHAINID {
        if !m.AMsg? || !AdminBlock.Consistent(m.admin) {
          return false;
        }
        db := db.(aBlocks := db.aBlocks[AdminBlock.PartialHash(h, m.admin) := m.admin]);
        return true;
      }
      if e.chainID == FACTOID_CHAINID {
        if !m.FMsg? {
          return false;
        }
        db := db.(fBlocks := db.fBlocks[m.fBlock.hash := m.fBlock]);
        return true;
      }
      if !m.EMsg? {
        return false;
      }
      ok := StoreEBlockPart(m.eBlock);
    }

    /** process/syncup.go:295-399 */
    method StoreBlocksFromMemPool(b: DirectoryBlock.Block) returns (ok: bool)
      modifies this`db, this`dBlocks, this`lastDirBlkHeight, this`eCreditMap, this`eStored, this`ecStored
      ensures (OnDisk(), ok) == StoreBlock(h, blockpool, old(OnDisk()), b)
    {
      hide StorePart;
      for i := 0 to |b.entries|
        invariant StoreParts(h, blockpool, old(OnDisk()), b.entries[..i]) == (OnDisk(), true)
      {
        assert b.entries[..i + 1][..i] == b.entries[..i];
        ok := StoreOnePart(b.entries[i]);
        if !ok {
          StoreStops(h, blockpool, old(OnDisk()), b.entries, i + 1);
          return;
        }
      }
      assert b.entries[..|b.entries|] == b.entries;
      dBlocks := dBlocks[b.header.dbHeight := b];
      lastDirBlkHeight := b.header.dbHeight;
      return true;
    }

    /** process/syncup.go:402-425 */
    method DeleteBlocksFromMemPool(b: DirectoryBlock.Block) returns (ok: bool)
      modifies this`blockpool
      ensures ok <==> DeleteBlock(old(blockpool), b).Some?
      ensures ok ==> blockpool == DeleteBlock(old(blockpool), b).value
    {
      for i := 0 to |b.entries|
        invariant DeleteParts(old(blockpool), b.entries[..i]) == Some(blockpool)
      {
        assert b.entries[..i + 1][..i] == b.entries[..i];
        var e := b.entries[i];
        if OwnChain(e.chainID) {
          blockpool := blockpool - {ByHash(e.keyMR)};
        } else {
          if ByHash(e.keyMR) !in blockpool || !blockpool[ByHash(e.keyMR)].EMsg? {
            DeleteStops(old(blockpool), b.entries, i + 1);
            return false;
          }
          var body := blockpool[ByHash(e.keyMR)].eBlock.body;
          DeleteEntries(body);
          blockpool := blockpool - {ByHash(e.keyMR)};
        }
      }
      assert b.entries[..|b.entries|] == b.entries;
      blockpool := blockpool - {ByHeight(b.header.dbHeight)};
      return true;
    }

    method DeleteEntries(body: seq<Digest>)
      modifies this`blockpool
      ensures blockpool == old(blockpool) - HashKeys(body)
    {
      for k := 0 to |body|
        invariant blockpool == old(blockpool) - HashKeys(body[..k])
      {
        assert HashKeys(body[..k + 1]) == HashKeys(body[..k]) + {ByHash(body[k])} by {
          assert body[..k + 1] == body[..k] + [body[k]];
        }
        blockpool := blockpool - {ByHash(body[k])};
      }
      assert body[..|body|] == body;
    }

    /** One round of process/syncup.go:184-206, without the sleeping: the directory block after the
        newest stored one, if it is there, is checked, stored and cleared. `Panics` ends the client. */
    method ValidateAndStoreBlocks() returns (a: Answer)
      requires lastDirBlkHeight >= -1
      modifies this
      ensures blocks == old(blocks)
      ensures old(NextBlock(blocks, lastDirBlkHeight)) == None ==> a == No
      ensures old(NextBlock(blocks, lastDirBlkHeight)).Some? ==>
        var b := old(NextBlock(blocks, lastDirBlkHeight)).value;
        var answer := old(BlockAnswer(h, trust, blockpool, blocks, db.entries, b));
        && (a != Panics ==> a == answer)
        && (answer == Panics ==> a == Panics)
        && (a == Yes ==>
              && (OnDisk(), true) == StoreBlock(h, old(blockpool), old(OnDisk()), b)
              && Some(blockpool) == DeleteBlock(old(blockpool), b))
      ensures a == No ==> blockpool == old(blockpool) && OnDisk() == old(OnDisk())
      ensures a == No ==> OnCheck(h, trust, old(View(Idle))) == View(Idle)
      ensures a == Yes ==>
        var checked := OnCheck(h, trust, old(View(Idle)));
        && checked.phase.Checked? && OnSave(h, checked).phase.Saved?
        && OnClean(OnSave(h, checked)) == View(Idle)
    {
      hide BlockAnswer, StoreBlock, DeleteBlock;
      var dblk: Option<DirectoryBlock.Block> := None;
      if |blocks| > lastDirBlkHeight + 1 {
        dblk := blocks[lastDirBlkHeight + 1];
      }
      if dblk == None {
        return No;
      }
      a := ValidateBlocksFromMemPool(dblk.value);
      if a == Yes {
        var ok := StoreBlocksFromMemPool(dblk.value);
        if !ok {
          return Panics;
        }
        ok := DeleteBlocksFromMemPool(dblk.value);
        if !ok {
          return Panics;
        }
      }
    }
  }

  function EmptyDisk(): Disk {
    Disk(Db(map[], map[], map[], NoTables, map[], map[]), map[], -1, map[], [], [])
  }

  /** process/syncup.go:195-197 */
  function NextBlock(blocks: seq<Option<DirectoryBlock.Block>>, height: int): Option<DirectoryBlock.Block>
    requires height >= -1
  {
    if |blocks| > height + 1 then blocks[height + 1] else None
  }

  lemma SizableHeader(b: ECBlock.Block)
    requires ECBlock.Sizable(b)
    ensures |b.header.expansion| < TWO_64
  {
  }

  lemma {:induction false} FirstAnswerDecides(t: Trust, pool: Pool, blocks: seq<Option<DirectoryBlock.Block>>,
                                              entries: map<Digest, Entry>, es: seq<DirectoryBlock.DBEntry>, i: nat)
    requires i < |es| && PartsAnswer(t, pool, blocks, entries, es[..i]) == Yes
    requires PartAnswer(t, pool, blocks, entries, es[i]) != Yes
    ensures PartsAnswer(t, pool, blocks, entries, es) == PartAnswer(t, pool, blocks, entries, es[i])
    decreases |es|
  {
    hide PartAnswer;
    if i < |es| - 1 {
      assert es[..|es| - 1][..i] == es[..i];
      FirstAnswerDecides(t, pool, blocks, entries, es[..|es| - 1], i);
    }
  }

  lemma {:induction false} InsertStops(h: Hashing, pool: Pool, entries: map<Digest, Entry>, body: seq<Digest>, k: nat)
    requires k <= |body| && !InsertEntries(h, pool, entries, body[..k]).1
    ensures InsertEntries(h, pool, entries, body) == InsertEntries(h, pool, entries, body[..k])
    decreases |body|
  {
    if k < |body| {
      assert body[..|body| - 1][..k] == body[..k];
      InsertStops(h, pool, entries, body[..|body| - 1], k);
    } else {
      assert body[..k] == body;
    }
  }

  lemma {:induction false} StoreStops(h: Hashing, pool: Pool, d: Disk, es: seq<DirectoryBlock.DBEntry>, k: nat)
    requires k <= |es| && !StoreParts(h, pool, d, es[..k]).1
    ensures StoreParts(h, pool, d, es) == StoreParts(h, pool, d, es[..k])
    decreases |es|
  {
    hide StorePart;
    if k < |es| {
      assert es[..|es| - 1][..k] == es[..k];
      StoreStops(h, pool, d, es[..|es| - 1], k);
    } else {
      assert es[..k] == es;
    }
  }

  lemma {:induction false} DeleteStops(pool: Pool, es: seq<DirectoryBlock.DBEntry>, k: nat)
    requires k <= |es| && DeleteParts(pool, es[..k]) == None
    ensures DeleteParts(pool, es) == None
    decreases |es|
  {
    hide DeletePart;
    if k < |es| {
      assert es[..|es| - 1][..k] == es[..k];
      DeleteStops(pool, es[..|es| - 1], k);
    } else {
      assert es[..k] == es;
    }
  }
}
