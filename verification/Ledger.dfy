/** The message handlers of process/processor.go as functions on the server's in-memory state: entry
    credit balances, open commits, known chains, orphans and the process list. */
module Ledger {
  import opened Basics
  import opened Entries
  import opened Messages
  import opened ReplayFilter
  import EBlock

  /** Foreign code: the hash functions, and the hash of a wire message. */
  datatype Env = Env(h: Hashing, wireSha: Msg -> Digest)

  const MAX_ORPHAN_SIZE: int := 5000
  const MAX_ENTRY_CREDITS: int := 10
  const MAX_CHAIN_CREDITS: int := 20

  /** The in-memory state that the handlers work on. `log` is a history variable: every item accepted
      since the server started. */
  datatype Front = Front(
    rate: u64,
    credits: map<Digest, int>,
    commitEntries: map<Digest, CommitEntry>,
    commitChains: map<Digest, CommitChain>,
    chains: map<Digest, EBlock.EChain>,
    orphans: map<Digest, Msg>,
    totalItems: nat,
    items: seq<Item>,
    seen: Log,
    log: seq<Item>)

  datatype Reason = BadMessage | BadTimestamp | NotInTime | AlreadyCommitted | TooManyCredits | NotEnoughCredits
    | UnsupportedChain | NoCommit | NoSuchChain | ChainExists | TooLarge | Underpaid
    | WrongChainID | WrongChainIDHash | WrongWeld | PoolFull

  datatype Outcome = Done | Refused(why: Reason)

  // ---------------------------------------------------------------- balances

  function Balance(credits: map<Digest, int>, k: Digest): int {
    if k in credits then credits[k] else 0
  }

  /** `eCreditMap[k] += n` on 32-bit integers; a missing key counts as 0. */
  function AddTo(credits: map<Digest, int>, k: Digest, n: int): map<Digest, int> {
    credits[k := ToInt32(Balance(credits, k) + n)]
  }

  /** The credits that an amount of factoshis buys: an int32 of a uint64 quotient. */
  function CreditsFor(amount: u64, rate: u64): int
    requires rate > 0
  {
    ToInt32(amount / rate)
  }

  function AddOutputs(credits: map<Digest, int>, rate: u64, outputs: seq<(Digest, u64)>): map<Digest, int>
    requires rate > 0
  {
    if outputs == [] then credits
    else
      var n := |outputs| - 1;
      AddTo(AddOutputs(credits, rate, outputs[..n]), outputs[n].0, CreditsFor(outputs[n].1, rate))
  }

  // ---------------------------------------------------------------- helpers

  /** Accept an item: it goes to the end of the process list. */
  function Accept(f: Front, i: Item): Front {
    f.(items := f.items + [i], log := f.log + [i])
  }

  /** process/mempool.go:50-61 */
  function AddOrphan(f: Front, key: Digest, m: Msg): Front {
    if |f.orphans| > MAX_ORPHAN_SIZE then f else f.(orphans := f.orphans[key := m])
  }

  function OrphanOutcome(f: Front): Outcome {
    if |f.orphans| > MAX_ORPHAN_SIZE then Refused(PoolFull) else Done
  }

  const TWELVE_HOURS_NS: int := 12 * 3600 * 1_000_000_000

  /** common/commitentry.go:87-93: whole seconds strictly within twelve hours of the clock, which is
      in nanoseconds. */
  predicate InTime(milliTime: MilliTime, clock: int) {
    var t := (GetMilliTime(milliTime) / 1000) * 1_000_000_000;
    clock - TWELVE_HOURS_NS < t < clock + TWELVE_HOURS_NS
  }

  /** t seconds after the epoch is less than twelve hours from the clock, either way. */
  predicate Near(t: int, clock: int) {
    -43_200_000_000_000 < t * 1_000_000_000 - clock < 43_200_000_000_000
  }

  lemma InTimeMeans(milliTime: MilliTime, clock: int)
    ensures InTime(milliTime, clock) <==> Near(BEValue(milliTime) / 1000, clock)
  {
  }

  predicate Reserved(cid: Digest) {
    cid == ZERO_HASH || cid == D_CHAINID || cid == ADMIN_CHAINID || cid == EC_CHAINID || cid == FACTOID_CHAINID
  }

  /** The five reserved ids are 31 zeros and a last byte. */
  lemma ReservedMeans(cid: Digest)
    ensures Reserved(cid) <==> cid[..31] == Zeros(31) && cid[31] in {0x00, 0x0a, 0x0c, 0x0d, 0x0f}
  {
    assert cid == cid[..31] + [cid[31]];
    assert ZERO_HASH == Zeros(31) + [0];
  }

  // ---------------------------------------------------------------- the handlers

  /** process/processor.go:646-693 */
  function ProcessCommitEntry(env: Env, f: Front, c: CommitEntry, clock: int): (Front, Outcome) {
    if !InTime(c.milliTime, clock) then (f, Refused(NotInTime))
    else if c.entryHash in f.commitEntries then (f, Refused(AlreadyCommitted))
    else if c.credits > MAX_ENTRY_CREDITS then (f, Refused(TooManyCredits))
    else if Balance(f.credits, c.ecPubKey) < c.credits then (f, Refused(NotEnoughCredits))
    else
      var g := f.(commitEntries := f.commitEntries[c.entryHash := c],
                  credits := AddTo(f.credits, c.ecPubKey, -(c.credits as int)));
      if g.totalItems >= MAX_PLIST_SIZE then
        (AddOrphan(g, env.wireSha(MsgCommitEntry(c)), MsgCommitEntry(c)), OrphanOutcome(g))
      else (Accept(g, CommitEntryItem(c)), Done)
  }

  /** process/processor.go:696-743 */
  function ProcessCommitChain(env: Env, f: Front, c: CommitChain, clock: int): (Front, Outcome) {
    if !InTime(c.milliTime, clock) then (f, Refused(NotInTime))
    else if c.entryHash in f.commitChains then (f, Refused(AlreadyCommitted))
    else if c.credits > MAX_CHAIN_CREDITS then (f, Refused(TooManyCredits))
    else if Balance(f.credits, c.ecPubKey) < c.credits then (f, Refused(NotEnoughCredits))
    else
      var g := f.(commitChains := f.commitChains[c.entryHash := c],
                  credits := AddTo(f.credits, c.ecPubKey, -(c.credits as int)));
      if g.totalItems >= MAX_PLIST_SIZE then
        (AddOrphan(g, env.wireSha(MsgCommitChain(c)), MsgCommitChain(c)), OrphanOutcome(g))
      else (Accept(g, CommitChainItem(c)), Done)
  }

  /** process/processor.go:534-573, the entry half of processRevealEntry. */
  function RevealCommittedEntry(env: Env, f: Front, e: Entry, hash: Digest): (Front, Outcome)
    requires hash in f.commitEntries
  {
    var msg := MsgRevealEntry(e);
    if e.chainID !in f.chains then (AddOrphan(f, hash, msg), Refused(NoSuchChain))
    else
      match EntryCost(MarshalEntry(e))
      case Err(_) => (f, Refused(TooLarge))
      case Ok(cred) =>
        if f.commitEntries[hash].credits < cred then (AddOrphan(f, hash, msg), Refused(Underpaid))
        else if f.totalItems >= MAX_PLIST_SIZE then (AddOrphan(f, hash, msg), OrphanOutcome(f))
        else (Accept(f, RevealEntryItem(e)).(commitEntries := f.commitEntries - {hash}), Done)
  }

  /** What is still checked after the chain has been registered (process/processor.go:588-615). */
  function ChainRevealFault(env: Env, c: CommitChain, e: Entry): Option<Reason> {
    var cid: Bytes, eh: Bytes := e.chainID, c.entryHash;
    match EntryCost(MarshalEntry(e))
    case Err(_) => Some(TooLarge)
    case Ok(cred) =>
      if c.credits < cred + 10 then Some(Underpaid)
      else if NewChainID(env.h, e) != e.chainID then Some(WrongChainID)
      else if c.chainIDHash != DoubleSha(env.h, e.chainID) then Some(WrongChainIDHash)
      else if c.weld != DoubleSha(env.h, eh + cid) then Some(WrongWeld)
      else None
  }

  /** Nothing is at fault exactly when the commit fits. */
  lemma FaultMeans(env: Env, c: CommitChain, e: Entry)
    ensures ChainRevealFault(env, c, e) == None <==> Founds(env.h, c, e)
  {
    hide MarshalEntry, EntryCost, Pays, ExtIDHashes, Joined;
    PaysMeans(c.credits - 10, e);
    HashesAreJoined(env.h, e.extIDs);
  }

  /** process/processor.go:574-637, the chain half. The chain is registered first and checked after. */
  function RevealCommittedChain(env: Env, f: Front, e: Entry, hash: Digest): (Front, Outcome)
    requires hash in f.commitChains
  {
    var msg := MsgRevealEntry(e);
    if e.chainID in f.chains then (AddOrphan(f, hash, msg), Refused(ChainExists))
    else
      var g := f.(chains := f.chains[e.chainID := EBlock.NewChain(e)]);
      match ChainRevealFault(env, f.commitChains[hash], e)
      case Some(why) => ((if why == Underpaid then AddOrphan(g, hash, msg) else g), Refused(why))
      case None =>
        if g.totalItems >= MAX_PLIST_SIZE then (AddOrphan(g, hash, msg), OrphanOutcome(g))
        else (Accept(g, RevealChainItem(e)).(commitChains := g.commitChains - {hash}), Done)
  }

  /** process/processor.go:523-643 */
  function ProcessRevealEntry(env: Env, f: Front, e: Entry): (Front, Outcome) {
    var hash := EntryHash(env.h, e);
    if Reserved(e.chainID) then (f, Refused(UnsupportedChain))
    else if hash in f.commitEntries then RevealCommittedEntry(env, f, e, hash)
    else if hash in f.commitChains then RevealCommittedChain(env, f, e, hash)
    else (f, Refused(NoCommit))
  }

  /** process/processor.go:746-769 */
  function ProcessBuyEntryCredit(env: Env, f: Front, tx: FctTx): (Front, Outcome)
    requires f.rate > 0
  {
    var g := f.(credits := AddOutputs(f.credits, f.rate, tx.ecOutputs));
    if g.totalItems >= MAX_PLIST_SIZE then
      (AddOrphan(g, env.wireSha(MsgFactoidTX(tx)), MsgFactoidTX(tx)), OrphanOutcome(g))
    else (Accept(g, FactoidItem(tx)), Done)
  }

  /** One round of the loop in processFromOrphanPool (process/processor.go:773-802). */
  function RetryOrphan(env: Env, f: Front, k: Digest, clock: int): Front
    requires k in f.orphans
  {
    var (g, outcome) :=
      match f.orphans[k]
      case MsgCommitChain(c) => ProcessCommitChain(env, f, c, clock)
      case MsgCommitEntry(c) => ProcessCommitEntry(env, f, c, clock)
      case MsgRevealEntry(e) => ProcessRevealEntry(env, f, e)
      case MsgFactoidTX(_) => (f, Refused(BadMessage));
    if outcome.Done? then g.(orphans := g.orphans - {k}) else g
  }

  /** The whole loop, in the order in which Go's map iteration delivers the keys. */
  function ProcessFromOrphanPool(env: Env, f: Front, order: seq<Digest>, clock: int): Front {
    if order == [] then f
    else
      var n := |order| - 1;
      var g := ProcessFromOrphanPool(env, f, order[..n], clock);
      if order[n] in g.orphans then RetryOrphan(env, g, order[n], clock) else g
  }

  // ---------------------------------------------------------------- serving a message

  /** The replay check in front of a handler (process/processor.go:262-269, 283-290, 403-410). */
  function Pass(f: Front, hash: Digest, timestamp: int, now: int): (Front, bool) {
    (f.(seen := Record(f.seen, hash, timestamp, now)), Fresh(f.seen, hash, timestamp, now))
  }

  function CommitEntrySigHash(h: Hashing, c: CommitEntry): Digest {
    h.sha256(CommitEntryMsg(c))
  }

  function CommitChainSigHash(h: Hashing, c: CommitChain): Digest {
    h.sha256(CommitChainMsg(c))
  }

  /** Messages from the queue, with the readings of the clock that their handlers take (seconds for
      the replay filter, nanoseconds for InTime) and the verdicts of foreign validity checks. */
  datatype Event =
    | OnCommitChain(cc: CommitChain, valid: bool, now: int, clock: int)
    | OnCommitEntry(ce: CommitEntry, valid: bool, now: int, clock: int)
    | OnRevealEntry(entry: Entry, valid: bool)
    | OnFactoidTX(tx: FctTx, valid: bool, now: int, added: bool)
    | OnMinute(minute: byte)

  /** process/processor.go:257-425 for a server, up to the minute 10 that closes a block. */
  function Serve(env: Env, f: Front, ev: Event): (Front, Outcome)
    requires f.rate > 0
  {
    match ev
    case OnCommitChain(c, valid, now, clock) =>
      if !valid then (f, Refused(BadMessage))
      else
        var (g, fresh_) := Pass(f, CommitChainSigHash(env.h, c), GetMilliTime(c.milliTime) / 1000, now);
        if !fresh_ then (g, Refused(BadTimestamp)) else ProcessCommitChain(env, g, c, clock)
    case OnCommitEntry(c, valid, now, clock) =>
      if !valid then (f, Refused(BadMessage))
      else
        var (g, fresh_) := Pass(f, CommitEntrySigHash(env.h, c), GetMilliTime(c.milliTime) / 1000, now);
        if !fresh_ then (g, Refused(BadTimestamp)) else ProcessCommitEntry(env, g, c, clock)
    case OnRevealEntry(e, valid) =>
      if !valid then (f, Refused(BadMessage)) else ProcessRevealEntry(env, f, e)
    case OnFactoidTX(tx, valid, now, added) =>
      if !valid then (f, Done)
      else
        var (g, fresh_) := Pass(f, tx.sigHash, tx.milliTimestamp / 1000, now);
        if !fresh_ then (g, Refused(BadTimestamp))
        else if added then ProcessBuyEntryCredit(env, g, tx)
        else (g, Done)
    case OnMinute(m) =>
      if 1 <= m < 10 then (Accept(f, MinuteItem(m)), Done) else (f, Done)
  }

  /** Minute 10 (process/processor.go:326-334): the orphans get a last chance, then the list ends. */
  function CloseList(env: Env, f: Front, order: seq<Digest>, clock: int): Front {
    Accept(ProcessFromOrphanPool(env, f, order, clock), MinuteItem(10))
  }

  /** What building the blocks leaves behind in memory: an empty list, the re-read exchange rate, and
      the same chains with new open blocks. */
  function Reopen(f: Front, chains: map<Digest, EBlock.EChain>, rate: u64): Front {
    f.(items := [], chains := chains, rate := rate)
  }

  /** g is f after nothing more than a reveal: `accepted` went onto the process list. */
  predicate RevealedOnly(f: Front, g: Front, accepted: seq<Item>) {
    && g.rate == f.rate && g.credits == f.credits && g.totalItems == f.totalItems && g.seen == f.seen
    && g.items == f.items + accepted && g.log == f.log + accepted
    && f.chains.Keys <= g.chains.Keys
  }

  /** Only this reveal can have been orphaned. */
  predicate OrphanedOnly(f: Front, g: Front, e: Entry, hash: Digest) {
    g.orphans == f.orphans || g.orphans == f.orphans[hash := MsgRevealEntry(e)]
  }

  lemma OrphanShape(f: Front, key: Digest, m: Msg)
    ensures var g := AddOrphan(f, key, m);
      g == f.(orphans := g.orphans) && (g.orphans == f.orphans || g.orphans == f.orphans[key := m])
  {
  }

  lemma RevealEntryShape(env: Env, f: Front, e: Entry, hash: Digest)
    requires hash in f.commitEntries
    ensures var g := RevealCommittedEntry(env, f, e, hash).0;
      && OrphanedOnly(f, g, e, hash)
      && (RevealedOnly(f, g, []) || RevealedOnly(f, g, [RevealEntryItem(e)]))
  {
    hide MarshalEntry, EntryCost, AddOrphan;
    var g := RevealCommittedEntry(env, f, e, hash).0;
    OrphanShape(f, hash, MsgRevealEntry(e));
    assert f.items + [] == f.items && f.log + [] == f.log;
    var cost := EntryCost(MarshalEntry(e));
    if e.chainID in f.chains && cost.Ok? && f.commitEntries[hash].credits >= cost.value && f.totalItems < MAX_PLIST_SIZE {
      assert g == Accept(f, RevealEntryItem(e)).(commitEntries := f.commitEntries - {hash});
    } else {
      assert g == f || g == AddOrphan(f, hash, MsgRevealEntry(e));
    }
  }

  lemma RevealChainShape(env: Env, f: Front, e: Entry, hash: Digest)
    requires hash in f.commitChains
    ensures var g := RevealCommittedChain(env, f, e, hash).0;
      && OrphanedOnly(f, g, e, hash)
      && (RevealedOnly(f, g, []) || RevealedOnly(f, g, [RevealChainItem(e)]))
  {
    hide ChainRevealFault, EBlock.NewChain, AddOrphan;
    var known := f.(chains := f.chains[e.chainID := EBlock.NewChain(e)]);
    OrphanShape(f, hash, MsgRevealEntry(e));
    OrphanShape(known, hash, MsgRevealEntry(e));
    assert f.items + [] == f.items && f.log + [] == f.log;
    var g := RevealCommittedChain(env, f, e, hash).0;
    if e.chainID !in f.chains && ChainRevealFault(env, f.commitChains[hash], e) == None && f.totalItems < MAX_PLIST_SIZE {
      assert g == Accept(known, RevealChainItem(e)).(commitChains := f.commitChains - {hash});
    } else {
      assert g == AddOrphan(f, hash, MsgRevealEntry(e)) || g == AddOrphan(known, hash, MsgRevealEntry(e)) || g == known;
    }
  }

  /** Everything a reveal can do to the state. */
  lemma RevealShape(env: Env, f: Front, e: Entry)
    ensures var g := ProcessRevealEntry(env, f, e).0;
      && OrphanedOnly(f, g, e, EntryHash(env.h, e))
      && (RevealedOnly(f, g, []) || RevealedOnly(f, g, [RevealEntryItem(e)]) || RevealedOnly(f, g, [RevealChainItem(e)]))
  {
    hide RevealCommittedEntry, RevealCommittedChain, EntryHash, Reserved;
    assert f.items + [] == f.items && f.log + [] == f.log;
    var hash := EntryHash(env.h, e);
    if hash in f.commitEntries {
      RevealEntryShape(env, f, e, hash);
    } else if hash in f.commitChains {
      RevealChainShape(env, f, e, hash);
    }
  }
}
