/** Closing a block period (process/processor.go, buildBlocks): the process list becomes an entry
    credit block, entry blocks, an admin block and a directory block. */
module Builder {
  import opened Basics
  import opened Entries
  import opened Messages
  import opened Ledger
  import opened ECLedger
  import opened EntryStore
  import Minutes
  import EBlock
  import ECBlock
  import AdminBlock
  import DirectoryBlock

  /** A factoid block is foreign: its chain, its hash, and the key Merkle root, height and exchange rate
      that it reports. */
  datatype FBlock = FBlock(chainID: Digest, hash: Digest, keyMR: Digest, dbHeight: u32, rate: u64)

  /** The tables of the database that building and validating use. */
  datatype Db = Db(ecBlocks: map<Digest, ECBlock.Block>, aBlocks: map<Digest, AdminBlock.Block>,
                   fBlocks: map<Digest, FBlock>, eTables: Tables, entries: map<Digest, Entry>,
                   chains: map<Digest, Entry>)

  /** The open blocks, the directory chain in memory, and the database, in which `dTable` holds the
      directory blocks by their hashes. `ecSealed`, `eSealed`, `aSealed` and `fSealed` are history
      variables: the blocks stored so far, oldest first. */
  datatype Back = Back(
    ecNext: ECBlock.Block,
    aNext: AdminBlock.Block, aHeight: nat, fHeight: nat,
    dNext: DirectoryBlock.Block, dBlocks: seq<DirectoryBlock.Block>, nextDBHeight: nat,
    db: Db, dTable: map<Digest, DirectoryBlock.Block>,
    ecSealed: seq<ECBlock.Block>, eSealed: seq<EBlock.Block>, aSealed: seq<AdminBlock.Block>, fSealed: seq<FBlock>)

  /** What the outside supplies when a block closes: the factoid block, the exchange rate re-read from
      the configuration, the server's keys, the network, the start time that the timer has set in the
      open directory block (in minutes), and the chain ids in sorted order. */
  datatype Closing = Closing(fBlock: FBlock, rate: u64, pubKey: Digest, sign: Bytes -> Signature,
                             networkID: u32, timestamp: u32, keys: seq<Digest>)

  // ---------------------------------------------------------------- the process list

  /** What the loop over the process list changes. */
  datatype Work = Work(chains: map<Digest, EBlock.EChain>, ecBody: seq<ECBlock.ECEntry>,
                       abEntries: seq<AdminBlock.ABEntry>, entries: map<Digest, Entry>, chainTable: map<Digest, Entry>)

  function Append(c: EBlock.EChain, d: Digest): EBlock.EChain {
    c.(nextBlock := c.nextBlock.(body := c.nextBlock.body + [d]))
  }

  /** process/processor.go:806-818 */
  function BuildRevealEntry(h: Hashing, w: Work, e: Entry): (r: Work)
    requires e.chainID in w.chains
    ensures r.chains.Keys == w.chains.Keys
  {
    var x := EntryHash(h, e);
    w.(entries := w.entries[x := e], chains := w.chains[e.chainID := Append(w.chains[e.chainID], x)])
  }

  /** process/processor.go:850-868: the chain is entered in the chain table, then read back from the
      database, before its first entry is added. A failing read is a panic, which CanBuild excludes. */
  function BuildRevealChain(h: Hashing, t: Tables, w: Work, e: Entry): (r: Work)
    requires e.chainID in w.chains
    ensures r.chains.Keys == w.chains.Keys
  {
    var chain := w.chains[e.chainID];
    var x := EntryHash(h, chain.firstEntry);
    var v := w.(chainTable := w.chainTable[e.chainID := chain.firstEntry]);
    match InitEChainFromDB(h, t, e.chainID)
    case Err(_) => v
    case Ok((height, block)) =>
      v.(entries := w.entries[x := chain.firstEntry],
         chains := w.chains[e.chainID := Append(chain.(nextBlock := block, nextBlockHeight := height), x)])
  }

  /** The markers of process/processor.go:884-886, in all touched chains at once. */
  function MarkChains(chains: map<Digest, EBlock.EChain>, touched: set<Digest>,
                      m: byte): (r: map<Digest, EBlock.EChain>)
    ensures r.Keys == chains.Keys
  {
    map cid | cid in chains :: if cid in touched then Append(chains[cid], EBlock.MinuteMarker(m)) else chains[cid]
  }

  /** process/processor.go:872-898: markers in the touched chains, in the entry credit block, and in
      the admin block unless it is empty or already ends in one. */
  function BuildEndOfMinute(w: Work, touched: set<Digest>, m: byte): (r: Work)
    ensures r.chains.Keys == w.chains.Keys
  {
    var n := |w.abEntries|;
    w.(chains := MarkChains(w.chains, touched, m),
       ecBody := w.ecBody + [ECBlock.Minute(m)],
       abEntries := if n > 0 && !w.abEntries[n - 1].EndOfMinute? then w.abEntries + [AdminBlock.EndOfMinute(m)]
           else w.abEntries)
  }

  predicate ChainsKnown(items: seq<Item>, chains: map<Digest, EBlock.EChain>) {
    forall i :: 0 <= i < |items| && IsReveal(items[i]) ==> Revealed(items[i]).chainID in chains
  }

  function BuildItem(h: Hashing, t: Tables, rate: u64, w: Work, before: seq<Item>, i: Item): (r: Work)
    requires rate > 0 && (IsReveal(i) ==> Revealed(i).chainID in w.chains)
    ensures r.chains.Keys == w.chains.Keys
  {
    match i
    case CommitEntryItem(_) => w.(ecBody := w.ecBody + EntriesOf(rate, i))
    case CommitChainItem(_) => w.(ecBody := w.ecBody + EntriesOf(rate, i))
    case FactoidItem(_) => w.(ecBody := w.ecBody + EntriesOf(rate, i))
    case RevealEntryItem(e) => BuildRevealEntry(h, w, e)
    case RevealChainItem(e) => BuildRevealChain(h, t, w, e)
    case MinuteItem(m) => BuildEndOfMinute(w, Minutes.Touched(before), m)
  }

  /** process/processor.go:1033-1051 */
  function BuildFromProcessList(h: Hashing, t: Tables, rate: u64, w: Work, items: seq<Item>): (r: Work)
    requires rate > 0 && ChainsKnown(items, w.chains)
    ensures r.chains.Keys == w.chains.Keys
  {
    if items == [] then w
    else
      var n := |items| - 1;
      BuildItem(h, t, rate, BuildFromProcessList(h, t, rate, w, items[..n]), items[..n], items[n])
  }

  // ---------------------------------------------------------------- entry blocks

  /** What sealing the entry blocks changes. */
  datatype Sealing = Sealing(chains: map<Digest, EBlock.EChain>, dbEntries: seq<DirectoryBlock.DBEntry>,
                             eTables: Tables, eSealed: seq<EBlock.Block>)

  /** process/processor.go:1054-1081 and common/directoryBlock.go:456-468. A chain without new entries
      makes no block. */
  function SealChain(h: Hashing, dbHeight: nat, s: Sealing, cid: Digest): Sealing
    requires cid in s.chains
  {
    var chain := s.chains[cid];
    if chain.nextBlock.body == [] then s
    else
      var open := chain.nextBlock.(header := chain.nextBlock.header.(ebHeight := dbHeight % TWO_32));
      var block := EBlock.Built(h, open);
      var height := chain.nextBlockHeight + 1;
      var next := EBlock.MakeEBlock(h, chain.chainID, height, Some(block));
      Sealing(s.chains[cid := chain.(nextBlock := next, nextBlockHeight := height)],
              s.dbEntries + [DirectoryBlock.DBEntry(block.header.chainID, EBlock.KeyMR(h, block))],
              StoreEBlock(h, s.eTables, block), s.eSealed + [block])
  }

  function SealChains(h: Hashing, dbHeight: nat, s: Sealing, keys: seq<Digest>): (r: Sealing)
    requires forall k :: k in keys ==> k in s.chains
    ensures r.chains.Keys == s.chains.Keys
  {
    if keys == [] then s
    else
      var n := |keys| - 1;
      SealChain(h, dbHeight, SealChains(h, dbHeight, s, keys[..n]), keys[n])
  }

  // ---------------------------------------------------------------- the other blocks

  const SERVER_INDEX: byte := 0

  /** process/processor.go:1084-1108: the sealed entry credit block and the next open one. */
  function SealECBlock(h: Hashing, open: ECBlock.Block): (ECBlock.Block, ECBlock.Block)
    requires ECBlock.Sizable(open)
  {
    var block := ECBlock.Built(h, open);
    (block, ECBlock.NextECBlock(h, block).(body := [ECBlock.ServerIndex(SERVER_INDEX)]))
  }

  /** process/processor.go:1199-1240 with BodyMR still unset. */
  function SealDBlock(h: Hashing, open: DirectoryBlock.Block, networkID: u32, timestamp: u32,
                      next: nat): (DirectoryBlock.Block, DirectoryBlock.Block) {
    var block := open.(header := open.header.(networkID := networkID, timestamp := timestamp,
        blockCount := |open.entries| % TWO_32, bodyMR := DirectoryBlock.BodyMR(h, open.entries)));
    (block, DirectoryBlock.CreateDBlock(h, next % TWO_32, Some(block)))
  }

  ghost predicate KeysMatch(keys: seq<Digest>, chains: map<Digest, EBlock.EChain>) {
    && (forall k :: k in keys <==> k in chains)
    && Ascending(keys)
  }

  /** Every chain to be created can be read from the database first (process/init.go:293-297). */
  predicate CreationsReadable(h: Hashing, t: Tables, items: seq<Item>) {
    forall i :: 0 <= i < |items| && items[i].RevealChainItem? ==> InitEChainFromDB(h, t, items[i].first.chainID).Ok?
  }

  /** Heights agree and stay below 2^31, and all counts fit their fields. */
  ghost predicate Fits(env: Env, f: Front, b: Back, c: Closing) {
    && f.rate > 0 && ChainsKnown(f.items, f.chains) && KeysMatch(c.keys, f.chains)
    && b.aHeight == b.nextDBHeight && b.fHeight == b.nextDBHeight && b.nextDBHeight < TWO_31
    && b.dNext.entries == [] && |c.keys| + 3 < TWO_32 && |f.items| < TWO_31
    && |b.aNext.header.expansion| == b.aNext.header.expansionSize && |b.aNext.entries| + |f.items| < TWO_32
    && ECBlock.Sizable(b.ecNext.(body := b.ecNext.body + ECEntries(f.rate, f.items)))
  }

  /** What must hold for the Go code not to panic or wrap. */
  ghost predicate CanBuild(env: Env, f: Front, b: Back, c: Closing) {
    Fits(env, f, b, c) && CreationsReadable(env.h, b.db.eTables, f.items)
  }

  function WorkOf(f: Front, b: Back): Work {
    Work(f.chains, b.ecNext.body, b.aNext.entries, b.db.entries, b.db.chains)
  }

  lemma {:induction false} BuildGrowsBodies(h: Hashing, t: Tables, rate: u64, w: Work, items: seq<Item>)
    requires rate > 0 && ChainsKnown(items, w.chains)
    ensures var r := BuildFromProcessList(h, t, rate, w, items);
      && r.ecBody == w.ecBody + ECEntries(rate, items)
      && |r.abEntries| <= |w.abEntries| + |items|
    decreases |items|
  {
    hide BuildItem, EntriesOf;
    if items == [] {
      assert w.ecBody + ECEntries(rate, items) == w.ecBody;
    } else {
      var n := |items| - 1;
      BuildGrowsBodies(h, t, rate, w, items[..n]);
      var v := BuildFromProcessList(h, t, rate, w, items[..n]);
      BuildItemBodies(h, t, rate, v, items[..n], items[n]);
      assert (w.ecBody + ECEntries(rate, items[..n])) + EntriesOf(rate, items[n]) == w.ecBody + ECEntries(rate, items);
    }
  }

  lemma BuildItemBodies(h: Hashing, t: Tables, rate: u64, w: Work, before: seq<Item>, i: Item)
    requires rate > 0 && (IsReveal(i) ==> Revealed(i).chainID in w.chains)
    ensures var r := BuildItem(h, t, rate, w, before, i);
      r.ecBody == w.ecBody + EntriesOf(rate, i) && |r.abEntries| <= |w.abEntries| + 1
  {
    hide InitEChainFromDB, Minutes.Touched, EntryHash, MarkChains, Increases;
    if IsReveal(i) {
      assert w.ecBody + [] == w.ecBody;
    }
  }

  // ---------------------------------------------------------------- the whole of buildBlocks

  /** The sealed blocks of one period, in the order they are made. */
  datatype Sealed = Sealed(ec: ECBlock.Block, ecNext: ECBlock.Block, admin: AdminBlock.Block, seal: Sealing,
                           dir: DirectoryBlock.Block, dNext: DirectoryBlock.Block, work: Work)

  function SealAll(env: Env, f: Front, b: Back, c: Closing): Sealed
    requires CanBuild(env, f, b, c)
  {
    var h := env.h;
    var w := BuildFromProcessList(h, b.db.eTables, f.rate, WorkOf(f, b), f.items);
    BuildGrowsBodies(h, b.db.eTables, f.rate, WorkOf(f, b), f.items);
    var (ec, ecNext) := SealECBlock(h, b.ecNext.(body := w.ecBody));
    var admin := AdminBlock.Sealed(b.aNext.(entries := w.abEntries));
    var first := [DirectoryBlock.DBEntry(ADMIN_CHAINID, AdminBlock.PartialHash(h, admin)),
                  DirectoryBlock.DBEntry(EC_CHAINID, ECBlock.HeaderHash(h, ec)),
                  DirectoryBlock.DBEntry(c.fBlock.chainID, c.fBlock.hash)];
    var seal := SealChains(h, b.nextDBHeight, Sealing(w.chains, first, b.db.eTables, b.eSealed), c.keys);
    var (dir, dNext) := SealDBlock(h, b.dNext.(entries := seal.dbEntries), c.networkID, c.timestamp, b.nextDBHeight + 1);
    Sealed(ec, ecNext, admin, seal, dir, dNext, w)
  }

  /** The three entries every directory block starts with. */
  function FirstEntries(env: Env, s: Sealed, c: Closing): seq<DirectoryBlock.DBEntry>
    requires AdminBlock.Consistent(s.admin) && |s.ec.header.expansion| < TWO_64
  {
    [DirectoryBlock.DBEntry(ADMIN_CHAINID, AdminBlock.PartialHash(env.h, s.admin)),
     DirectoryBlock.DBEntry(EC_CHAINID, ECBlock.HeaderHash(env.h, s.ec)),
     DirectoryBlock.DBEntry(c.fBlock.chainID, c.fBlock.hash)]
  }

  /** What sealing consists of. */
  lemma SealAllParts(env: Env, f: Front, b: Back, c: Closing)
    requires CanBuild(env, f, b, c)
    ensures var s := SealAll(env, f, b, c);
      && s.work == BuildFromProcessList(env.h, b.db.eTables, f.rate, WorkOf(f, b), f.items)
      && ECBlock.Sizable(b.ecNext.(body := s.work.ecBody)) && |s.work.abEntries| < TWO_32
      && (s.ec, s.ecNext) == SealECBlock(env.h, b.ecNext.(body := s.work.ecBody)) && |s.ec.header.expansion| < TWO_64
      && s.admin == AdminBlock.Sealed(b.aNext.(entries := s.work.abEntries)) && AdminBlock.Consistent(s.admin)
      && s.work.chains.Keys == f.chains.Keys
      && s.seal == SealChains(env.h, b.nextDBHeight,
          Sealing(s.work.chains, FirstEntries(env, s, c), b.db.eTables, b.eSealed), c.keys)
      && (s.dir, s.dNext) == SealDBlock(env.h, b.dNext.(entries := s.seal.dbEntries), c.networkID, c.timestamp,
          b.nextDBHeight + 1)
  {
    hide BuildFromProcessList, SealChains, ECBlock.HeaderHash, ECBlock.FullHash, AdminBlock.PartialHash,
      ECBlock.MarshalBody, SealDBlock, ECEntries, ChainsKnown;
    BuildGrowsBodies(env.h, b.db.eTables, f.rate, WorkOf(f, b), f.items);
  }

  /** process/processor.go:953-1030, ending in the signature of SignDirectoryBlock (1243-1254). */
  function BuildBlocks(env: Env, f: Front, b: Back, c: Closing): (Front, Back)
    requires CanBuild(env, f, b, c)
  {
    var h := env.h;
    var s := SealAll(env, f, b, c);
    var sig := c.sign(DirectoryBlock.MarshalHeader(s.dir.header));
    var aNext := AdminBlock.CreateAdminBlock(h, (b.aHeight + 1) % TWO_32, Some(s.admin));
    var db := Db(b.db.ecBlocks[ECBlock.HeaderHash(h, s.ec) := s.ec],
                 b.db.aBlocks[AdminBlock.PartialHash(h, s.admin) := s.admin],
                 b.db.fBlocks[c.fBlock.hash := c.fBlock],
                 s.seal.eTables, s.work.entries, s.work.chainTable);
    (Reopen(f, s.seal.chains, c.rate),
     Back(s.ecNext, aNext.(entries := [AdminBlock.DBSignature(ZERO_HASH, c.pubKey, sig)]), b.aHeight + 1, b.fHeight + 1,
          s.dNext, b.dBlocks + [s.dir], b.nextDBHeight + 1, db, b.dTable[DirectoryBlock.DBHash(h, s.dir) := s.dir],
          b.ecSealed + [s.ec], s.seal.eSealed, b.aSealed + [s.admin], b.fSealed + [c.fBlock]))
  }
}
