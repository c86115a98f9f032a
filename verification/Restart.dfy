/** Start-up on what servers have built: it succeeds, and brings back the balances and the chains. */
module Restart {
  import opened Basics
  import opened Entries
  import opened Messages
  import opened Ledger
  import opened ECLedger
  import opened Balances
  import opened ChainOrder
  import opened EntryStore
  import opened ChainNumbers
  import opened Builder
  import opened BuildProofs
  import opened Signatures
  import opened TableScan
  import opened Server
  import opened ServerBlocks
  import opened CloseProofs
  import opened Runs
  import opened Strangers
  import opened Startup
  import V = Validator
  import EBlock
  import ECBlock
  import AdminBlock
  import DirectoryBlock

  // ---------------------------------------------------------------- what the surroundings promise

  /** The keys belong together: verifying undoes signing. */
  ghost predicate Signs(t: Trust, pubKey: Digest, sign: Bytes -> Signature) {
    pubKey == t.serverPubKey && forall m: Bytes :: t.verify(m, sign(m))
  }

  /** The server's configuration stays, and the factoid library reports the height of each block, its key
      Merkle root as its hash, and a rate to buy credits at; the hash is new. */
  ghost predicate StepHonest(t: Trust, s: State, step: Step) {
    step.Close? ==> var c := step.closing;
      && Signs(t, c.pubKey, c.sign)
      && FactoidAt(c.fBlock, s.back.nextDBHeight) && c.fBlock.hash !in s.back.db.fBlocks
  }

  predicate FactoidAt(f: FBlock, height: nat) {
    f.dbHeight == height && f.keyMR == f.hash && f.rate > 0
  }

  /** The admin block at height i carries the server's signature of directory block i - 1, as its first; the
      one at height 0 carries none. */
  predicate SignedBelow(t: Trust, dBlocks: seq<DirectoryBlock.Block>, i: nat, a: AdminBlock.Block)
    requires i <= |dBlocks|
  {
    if i == 0 then Unsigned(a) else SignsFor(t, a, DirectoryBlock.MarshalHeader(dBlocks[i - 1].header))
  }

  ghost predicate Honest(t: Trust, b: Back) {
    && |b.aSealed| == |b.fSealed| == |b.dBlocks|
    && (forall i :: 0 <= i < |b.aSealed| ==> SignedBelow(t, b.dBlocks, i, b.aSealed[i]))
    && SignedBelow(t, b.dBlocks, |b.dBlocks|, b.aNext)
    && (forall i :: 0 <= i < |b.fSealed| ==> FactoidAt(b.fSealed[i], i))
    && DistinctRows(FRows(b.fSealed))
  }

  // ---------------------------------------------------------------- promises kept over a run

  lemma {:induction false} SignatureStaysFirst(es: seq<AdminBlock.ABEntry>, m: byte)
    ensures FirstSignature(es + [AdminBlock.EndOfMinute(m)]) == FirstSignature(es)
    decreases |es|
  {
    if es != [] && !es[0].DBSignature? {
      SignatureStaysFirst(es[1..], m);
      assert (es + [AdminBlock.EndOfMinute(m)])[1..] == es[1..] + [AdminBlock.EndOfMinute(m)];
    }
  }

  lemma ItemKeepsSignature(h: Hashing, t: Tables, rate: u64, w: Work, before: seq<Item>, i: Item)
    requires rate > 0 && (IsReveal(i) ==> Revealed(i).chainID in w.chains)
    ensures FirstSignature(BuildItem(h, t, rate, w, before, i).abEntries) == FirstSignature(w.abEntries)
  {
    hide InitEChainFromDB, EntryHash, EntriesOf, MarkChains;
    if i.MinuteItem? {
      SignatureStaysFirst(w.abEntries, i.minute);
    }
  }

  lemma {:induction false} ListKeepsSignature(h: Hashing, t: Tables, rate: u64, w: Work, items: seq<Item>)
    requires rate > 0 && ChainsKnown(items, w.chains)
    ensures FirstSignature(BuildFromProcessList(h, t, rate, w, items).abEntries) == FirstSignature(w.abEntries)
    decreases |items|
  {
    hide BuildItem;
    if items != [] {
      var n := |items| - 1;
      ListKeepsSignature(h, t, rate, w, items[..n]);
      ItemKeepsSignature(h, t, rate, BuildFromProcessList(h, t, rate, w, items[..n]), items[..n], items[n]);
    }
  }

  lemma SealedKeepsEntries(a: AdminBlock.Block)
    requires |a.header.expansion| == a.header.expansionSize && |a.entries| < TWO_32
    ensures AdminBlock.Sealed(a).entries == a.entries
  {
  }

  lemma BuildFacts(env: Env, f: Front, b: Back, c: Closing)
    requires CanBuild(env, f, b, c)
    ensures f.rate > 0 && ChainsKnown(f.items, f.chains) && |b.aNext.header.expansion| == b.aNext.header.expansionSize
  {
  }

  /** The sealed admin block carries the signature that was put in when its period began. */
  lemma SealedSignature(env: Env, f: Front, b: Back, c: Closing)
    requires CanBuild(env, f, b, c)
    ensures FirstSignature(SealAll(env, f, b, c).admin.entries) == FirstSignature(b.aNext.entries)
  {
    hide *;
    BuildFacts(env, f, b, c);
    SealAllParts(env, f, b, c);
    WorkStartsThere(f, b);
    ListKeepsSignature(env.h, b.db.eTables, f.rate, WorkOf(f, b), f.items);
    SealedKeepsEntries(b.aNext.(entries := SealAll(env, f, b, c).work.abEntries));
  }

  lemma WorkStartsThere(f: Front, b: Back)
    ensures WorkOf(f, b).chains == f.chains && WorkOf(f, b).abEntries == b.aNext.entries
  {
  }

  lemma SignedStays(t: Trust, dBlocks: seq<DirectoryBlock.Block>, more: seq<DirectoryBlock.Block>, i: nat,
                    a: AdminBlock.Block, a': AdminBlock.Block)
    requires i <= |dBlocks| && SignedBelow(t, dBlocks, i, a) && FirstSignature(a'.entries) == FirstSignature(a.entries)
    ensures SignedBelow(t, dBlocks + more, i, a')
  {
    hide FirstSignature, DirectoryBlock.MarshalHeader, Unsigned, SignsFor;
    var message := if i == 0 then [] else DirectoryBlock.MarshalHeader(dBlocks[i - 1].header);
    SignsForMeans(t, a, message);
    SignsForMeans(t, a', message);
  }

  lemma NewSignature(t: Trust, dBlocks: seq<DirectoryBlock.Block>, a: AdminBlock.Block, pubKey: Digest,
      sign: Bytes -> Signature)
    requires Signs(t, pubKey, sign) && dBlocks != []
    requires a.entries == [AdminBlock.DBSignature(ZERO_HASH, pubKey,
        sign(DirectoryBlock.MarshalHeader(dBlocks[|dBlocks| - 1].header)))]
    ensures SignedBelow(t, dBlocks, |dBlocks|, a)
  {
    hide DirectoryBlock.MarshalHeader;
    assert FirstAt(a.entries, 0);
  }

  lemma NewRowDistinct(fs: seq<FBlock>, f: FBlock)
    requires DistinctRows(FRows(fs)) && f.hash !in TableOf(FRows(fs))
    ensures DistinctRows(FRows(fs + [f]))
  {
    hide TableOf;
    TableKeys(FRows(fs), f.hash);
    forall i, j | 0 <= i < j < |fs| + 1
      ensures FRows(fs + [f])[i].0 != FRows(fs + [f])[j].0
    {
      assert FRows(fs)[i].0 == fs[i].hash;
      if j < |fs| {
        assert FRows(fs)[j].0 == fs[j].hash;
      }
    }
  }

  lemma HonestGrows(t: Trust, b: Back, b': Back, d: DirectoryBlock.Block, a: AdminBlock.Block, fb: FBlock)
    requires Honest(t, b)
    requires b'.dBlocks == b.dBlocks + [d] && b'.aSealed == b.aSealed + [a] && b'.fSealed == b.fSealed + [fb]
    requires FirstSignature(a.entries) == FirstSignature(b.aNext.entries) && FactoidAt(fb, |b.dBlocks|)
    requires SignedBelow(t, b'.dBlocks, |b'.dBlocks|, b'.aNext) && DistinctRows(FRows(b'.fSealed))
    ensures Honest(t, b')
  {
    hide SignedBelow, FirstSignature, FRows, DistinctRows;
    forall i | 0 <= i < |b'.aSealed|
      ensures SignedBelow(t, b'.dBlocks, i, b'.aSealed[i])
    {
      SignedStays(t, b.dBlocks, [d], i, if i < |b.dBlocks| then b.aSealed[i] else b.aNext, b'.aSealed[i]);
    }
  }

  lemma FactoidTable(h: Hashing, b: Back)
    requires Recorded(h, b)
    ensures b.db.fBlocks == TableOf(FRows(b.fSealed)) && |b.fSealed| == |b.dBlocks|
  {
    hide RecordedAt, ECRows, ARows, FRows, DRows, TableOf;
  }

  lemma BuildKeepsHonest(env: Env, loaded: set<Digest>, t: Trust, f: Front, b: Back, c: Closing)
    requires Ready(env, loaded, f, b, c) && Honest(t, b)
    requires Signs(t, c.pubKey, c.sign) && FactoidAt(c.fBlock, b.nextDBHeight) && c.fBlock.hash !in b.db.fBlocks
    ensures Honest(t, BuildBlocks(env, f, b, c).1)
  {
    hide *;
    ReadyRecords(env, loaded, f, b, c);
    RecordsByParts(env.h, b);
    FactoidTable(env.h, b);
    BuildBlocksShape(env, f, b, c);
    SealedSignature(env, f, b, c);
    var s, b' := SealAll(env, f, b, c), BuildBlocks(env, f, b, c).1;
    assert b'.dBlocks[|b'.dBlocks| - 1] == s.dir;
    NewSignature(t, b'.dBlocks, b'.aNext, c.pubKey, c.sign);
    HonestRows(t, b);
    NewRowDistinct(b.fSealed, c.fBlock);
    HonestGrows(t, b, b', s.dir, s.admin, c.fBlock);
  }

  lemma HonestRows(t: Trust, b: Back)
    requires Honest(t, b)
    ensures DistinctRows(FRows(b.fSealed))
  {
  }

  lemma StepKeepsHonest(env: Env, loaded: set<Digest>, t: Trust, s: State, step: Step)
    requires Inv(env, loaded, s) && CanStep(env, s, step) && Honest(t, s.back) && StepHonest(t, s, step)
    ensures Honest(t, DoStep(env, s, step).back)
  {
    hide Inv, Honest, CanBuild, BuildBlocks, CloseList, Serve, Ready, Signs, FactoidAt;
    match step
    case Message(_) =>
    case Close(order, clock, c) =>
      CloseIsReady(env, loaded, s, order, clock, c);
      BuildKeepsHonest(env, loaded, t, CloseList(env, s.front, order, clock), s.back, c);
  }

  /** In every run under a steady configuration, every admin block carries the signature of the directory
      block below it, and the factoid blocks stand at their heights. */
  lemma {:induction false} RunKeepsHonest(env: Env, t: Trust, states: seq<State>, steps: seq<Step>, i: nat)
    requires IsRun(env, states, steps) && i < |states| && Boot(env, states[0]) && Honest(t, states[0].back)
    requires forall k :: 0 <= k < i ==> StepHonest(t, states[k], steps[k])
    ensures Honest(t, states[i].back)
    decreases i
  {
    hide Boot, DoStep, CanStep, Inv, Honest, StepHonest;
    if i > 0 {
      BootInv(env, states[0]);
      RunKeepsInv(env, states[0].front.chains.Keys, states, steps, i - 1);
      RunKeepsHonest(env, t, states, steps, i - 1);
      StepKeepsHonest(env, states[0].front.chains.Keys, t, states[i - 1], steps[i - 1]);
    }
  }

  // ---------------------------------------------------------------- distinct keys

  function Elements(xs: seq<Bytes>): set<Bytes> {
    set x | x in xs
  }

  /** Different strings give rows of different keys, or two of them collide. */
  lemma DistinctOrCollide<T>(h: Hashing, rows: seq<(Digest, T)>, inputs: seq<Bytes>)
    requires |rows| == |inputs| && forall i :: 0 <= i < |rows| ==> rows[i].0 == h.sha256(inputs[i])
    requires forall i, j :: 0 <= i < j < |inputs| ==> inputs[i] != inputs[j]
    ensures DistinctRows(rows) || CollisionBetween(h, Elements(inputs), Elements(inputs))
  {
    if !DistinctRows(rows) {
      var i, j :| 0 <= i < j < |rows| && rows[i].0 == rows[j].0;
      assert inputs[i] in Elements(inputs) && inputs[j] in Elements(inputs);
      assert Collides(h, inputs[i], inputs[j]);
    }
  }

  function ECInputs(ecs: seq<ECBlock.Block>): seq<Bytes>
    requires forall i :: 0 <= i < |ecs| ==> |ecs[i].header.expansion| < TWO_64
  {
    seq(|ecs|, i requires 0 <= i < |ecs| => ECBlock.MarshalHeader(ecs[i].header))
  }

  function AInputs(as_: seq<AdminBlock.Block>): seq<Bytes>
    requires forall i :: 0 <= i < |as_| ==> AdminBlock.Consistent(as_[i])
  {
    seq(|as_|, i requires 0 <= i < |as_| => AdminBlock.Marshal(as_[i]))
  }

  function DInputs(ds: seq<DirectoryBlock.Block>): seq<Bytes> {
    seq(|ds|, i requires 0 <= i < |ds| => DirectoryBlock.Marshal(ds[i]))
  }

  /** Two records of one table with one key: their hashed strings collide. */
  ghost predicate RecordsCollide(h: Hashing, b: Back)
    requires AllRecorded(h, b)
  {
    RecordsFit(h, b);
    || CollisionBetween(h, Elements(ECInputs(b.ecSealed)), Elements(ECInputs(b.ecSealed)))
    || CollisionBetween(h, Elements(AInputs(b.aSealed)), Elements(AInputs(b.aSealed)))
    || CollisionBetween(h, Elements(DInputs(b.dBlocks)), Elements(DInputs(b.dBlocks)))
  }

  lemma HeaderBytesDiffer(a: ECBlock.ECHeader, b: ECBlock.ECHeader)
    requires |a.expansion| < TWO_64 && |b.expansion| < TWO_64 && a.ebHeight != b.ebHeight
    ensures ECBlock.MarshalHeader(a) != ECBlock.MarshalHeader(b)
  {
    ECBlock.HeaderRoundTrip(a, []);
    ECBlock.HeaderRoundTrip(b, []);
    hide ECBlock.MarshalHeader, ECBlock.UnmarshalHeader;
  }

  lemma AdminBytesDiffer(a: AdminBlock.Block, b: AdminBlock.Block)
    requires AdminBlock.Consistent(a) && AdminBlock.Consistent(b) && a.header.dbHeight != b.header.dbHeight
    ensures AdminBlock.Marshal(a) != AdminBlock.Marshal(b)
  {
    AdminBlock.RoundTrip(a, []);
    AdminBlock.RoundTrip(b, []);
    hide AdminBlock.Marshal, AdminBlock.Unmarshal;
  }

  lemma DirBytesDiffer(a: DirectoryBlock.Block, b: DirectoryBlock.Block)
    requires a.header.blockCount == |a.entries| && b.header.blockCount == |b.entries|
    requires a.header.dbHeight != b.header.dbHeight
    ensures DirectoryBlock.Marshal(a) != DirectoryBlock.Marshal(b)
  {
    DirectoryBlock.RoundTrip(a, []);
    DirectoryBlock.RoundTrip(b, []);
    hide DirectoryBlock.Marshal, DirectoryBlock.Unmarshal;
  }

  lemma HeightsOfRecords(h: Hashing, b: Back)
    requires AllRecorded(h, b)
    ensures |b.ecSealed| == |b.aSealed| == |b.fSealed| == |b.dBlocks|
    ensures forall i :: 0 <= i < |b.ecSealed| ==> b.ecSealed[i].header.ebHeight == i && ECBlock.Sizable(b.ecSealed[i])
    ensures forall i :: 0 <= i < |b.aSealed| ==> b.aSealed[i].header.dbHeight == i && AdminBlock.Consistent(b.aSealed[i])
  {
    hide Heads, ECBlock.Built, ECBlock.Sizable, AdminBlock.Consistent;
    forall i | 0 <= i < |b.dBlocks|
      ensures b.ecSealed[i].header.ebHeight == i && ECBlock.Sizable(b.ecSealed[i])
      ensures b.aSealed[i].header.dbHeight == i && AdminBlock.Consistent(b.aSealed[i])
    {
      assert RecordedAt(h, b, i);
    }
  }

  lemma ECDistinct(h: Hashing, ecs: seq<ECBlock.Block>)
    requires forall i :: 0 <= i < |ecs| ==> |ecs[i].header.expansion| < TWO_64 && ecs[i].header.ebHeight == i
    ensures DistinctRows(ECRows(h, ecs)) || CollisionBetween(h, Elements(ECInputs(ecs)), Elements(ECInputs(ecs)))
  {
    hide ECBlock.MarshalHeader, DistinctRows, CollisionBetween, Elements;
    forall i, j | 0 <= i < j < |ecs|
      ensures ECInputs(ecs)[i] != ECInputs(ecs)[j]
    {
      HeaderBytesDiffer(ecs[i].header, ecs[j].header);
    }
    DistinctOrCollide(h, ECRows(h, ecs), ECInputs(ecs));
  }

  lemma ADistinct(h: Hashing, as_: seq<AdminBlock.Block>)
    requires forall i :: 0 <= i < |as_| ==> AdminBlock.Consistent(as_[i]) && as_[i].header.dbHeight == i
    ensures DistinctRows(ARows(h, as_)) || CollisionBetween(h, Elements(AInputs(as_)), Elements(AInputs(as_)))
  {
    hide AdminBlock.Marshal, DistinctRows, CollisionBetween, Elements, AdminBlock.Consistent;
    forall i, j | 0 <= i < j < |as_|
      ensures AInputs(as_)[i] != AInputs(as_)[j]
    {
      AdminBytesDiffer(as_[i], as_[j]);
    }
    DistinctOrCollide(h, ARows(h, as_), AInputs(as_));
  }

  lemma DDistinct(h: Hashing, ds: seq<DirectoryBlock.Block>)
    requires DirectoryBlock.Numbered(ds)
    ensures DistinctRows(DRows(h, ds)) || CollisionBetween(h, Elements(DInputs(ds)), Elements(DInputs(ds)))
  {
    hide DirectoryBlock.Marshal, DistinctRows, CollisionBetween, Elements;
    forall i, j | 0 <= i < j < |ds|
      ensures DInputs(ds)[i] != DInputs(ds)[j]
    {
      DirBytesDiffer(ds[i], ds[j]);
    }
    DistinctOrCollide(h, DRows(h, ds), DInputs(ds));
  }

  // ---------------------------------------------------------------- the tables come back

  /** A table loads as the blocks that were written into it. */
  lemma LoadsAsWritten<T>(height: T -> int, rows: seq<(Digest, T)>, xs: seq<T>, keys: seq<Digest>)
    requires DistinctRows(rows) && Enumerates(keys, TableOf(rows)) && Values(rows) == xs && |xs| < TWO_32
    requires forall i :: 0 <= i < |xs| ==> height(xs[i]) == i
    ensures SortByHeight(height, Fetch(TableOf(rows), keys)) == xs
    ensures LoadByHeight(height, TableOf(rows), keys) == Ok(xs)
  {
    hide TableOf, SortByHeight, Fetch, DistinctRows, Values;
    SortedFetch(height, rows, keys);
  }

  lemma TableSizable(h: Hashing, ecs: seq<ECBlock.Block>)
    requires forall i :: 0 <= i < |ecs| ==> ECBlock.Sizable(ecs[i]) && |ecs[i].header.expansion| < TWO_64
    ensures AllSizable(TableOf(ECRows(h, ecs)))
  {
    hide ECBlock.Sizable, ECBlock.HeaderHash, TableOf;
    forall k | k in TableOf(ECRows(h, ecs))
      ensures ECBlock.Sizable(TableOf(ECRows(h, ecs))[k])
    {
      TableRow(ECRows(h, ecs), k);
      var i :| 0 <= i < |ecs| && ECRows(h, ecs)[i] == (k, TableOf(ECRows(h, ecs))[k]);
    }
  }

  lemma TableConsistent(h: Hashing, as_: seq<AdminBlock.Block>)
    requires forall i :: 0 <= i < |as_| ==> AdminBlock.Consistent(as_[i])
    ensures AllConsistent(TableOf(ARows(h, as_)))
  {
    hide AdminBlock.Consistent, AdminBlock.PartialHash, TableOf;
    forall k | k in TableOf(ARows(h, as_))
      ensures AdminBlock.Consistent(TableOf(ARows(h, as_))[k])
    {
      TableRow(ARows(h, as_), k);
      var i :| 0 <= i < |as_| && ARows(h, as_)[i] == (k, TableOf(ARows(h, as_))[k]);
    }
  }

  /** A database that servers have built, with its records in order. */
  ghost predicate Restartable(h: Hashing, t: Trust, b: Back, cursor: Cursor) {
    && Recorded(h, b) && DirectoryBlock.Numbered(b.dBlocks) && !RecordsCollide(h, b)
    && Honest(t, b) && Enumerated(b.db, b.dTable, cursor) && 0 < |b.dBlocks| < TWO_32
  }

  lemma TablesMean(h: Hashing, b: Back)
    requires Recorded(h, b)
    ensures AllRecorded(h, b)
    ensures |b.ecSealed| == |b.aSealed| == |b.fSealed| == |b.dBlocks|
    ensures forall i :: 0 <= i < |b.ecSealed| ==>
      b.ecSealed[i].header.ebHeight == i && ECBlock.Sizable(b.ecSealed[i]) && |b.ecSealed[i].header.expansion| < TWO_64
    ensures forall i :: 0 <= i < |b.aSealed| ==> b.aSealed[i].header.dbHeight == i && AdminBlock.Consistent(b.aSealed[i])
    ensures b.db.ecBlocks == TableOf(ECRows(h, b.ecSealed)) && b.db.aBlocks == TableOf(ARows(h, b.aSealed))
    ensures b.db.fBlocks == TableOf(FRows(b.fSealed)) && b.dTable == TableOf(DRows(h, b.dBlocks))
  {
    HeightsOfRecords(h, b);
    RecordsFit(h, b);
    hide AllRecorded, ECRows, ARows, FRows, DRows, TableOf, ECBlock.Sizable, AdminBlock.Consistent;
  }

  lemma ReadableTables(h: Hashing, b: Back, cursor: Cursor)
    requires Recorded(h, b) && Enumerated(b.db, b.dTable, cursor)
    ensures Readable(b.db, b.dTable, cursor)
  {
    TablesMean(h, b);
    hide Recorded, TableOf, ECRows, ARows, FRows, DRows, AllSizable, AllConsistent, Enumerated;
    TableSizable(h, b.ecSealed);
    TableConsistent(h, b.aSealed);
  }

  lemma RestartableParts(h: Hashing, t: Trust, b: Back, cursor: Cursor)
    requires Restartable(h, t, b, cursor)
    ensures Recorded(h, b) && AllRecorded(h, b) && DirectoryBlock.Numbered(b.dBlocks) && !RecordsCollide(h, b)
    ensures |b.dBlocks| < TWO_32
    ensures Enumerates(cursor.d, b.dTable) && Enumerates(cursor.ec, b.db.ecBlocks)
    ensures Enumerates(cursor.a, b.db.aBlocks) && Enumerates(cursor.f, b.db.fBlocks)
    ensures DistinctRows(FRows(b.fSealed)) && forall i :: 0 <= i < |b.fSealed| ==> FHeight(b.fSealed[i]) == i
  {
    hide AllRecorded, TablesRight, DirectoryBlock.Numbered, Enumerates, RecordsCollide, DistinctRows,
      SignedBelow, FRows;
    forall i | 0 <= i < |b.fSealed|
      ensures FHeight(b.fSealed[i]) == i
    {
      assert FactoidAt(b.fSealed[i], i);
    }
  }

  lemma NoRecordsCollide(h: Hashing, b: Back)
    requires AllRecorded(h, b) && !RecordsCollide(h, b)
    ensures forall i :: 0 <= i < |b.ecSealed| ==> |b.ecSealed[i].header.expansion| < TWO_64
    ensures forall i :: 0 <= i < |b.aSealed| ==> AdminBlock.Consistent(b.aSealed[i])
    ensures !CollisionBetween(h, Elements(ECInputs(b.ecSealed)), Elements(ECInputs(b.ecSealed)))
    ensures !CollisionBetween(h, Elements(AInputs(b.aSealed)), Elements(AInputs(b.aSealed)))
    ensures !CollisionBetween(h, Elements(DInputs(b.dBlocks)), Elements(DInputs(b.dBlocks)))
  {
    hide AllRecorded, CollisionBetween, Elements, ECInputs, AInputs, DInputs, AdminBlock.Consistent;
    RecordsFit(h, b);
  }

  lemma DChainLoads(h: Hashing, t: Trust, b: Back, cursor: Cursor)
    requires Restartable(h, t, b, cursor)
    ensures LoadByHeight(DHeight, b.dTable, cursor.d) == Ok(b.dBlocks)
  {
    hide *;
    RestartableParts(h, t, b, cursor);
    TablesMean(h, b);
    NoRecordsCollide(h, b);
    DDistinct(h, b.dBlocks);
    DValues(h, b.dBlocks);
    LoadsAsWritten(DHeight, DRows(h, b.dBlocks), b.dBlocks, cursor.d);
  }

  lemma DValues(h: Hashing, ds: seq<DirectoryBlock.Block>)
    requires DirectoryBlock.Numbered(ds)
    ensures Values(DRows(h, ds)) == ds && forall i :: 0 <= i < |ds| ==> DHeight(ds[i]) == i
  {
    hide DirectoryBlock.DBHash;
  }

  lemma ECChainLoads(h: Hashing, t: Trust, b: Back, cursor: Cursor)
    requires Restartable(h, t, b, cursor)
    ensures SortByHeight(ECHeight, Fetch(b.db.ecBlocks, cursor.ec)) == b.ecSealed
  {
    hide *;
    RestartableParts(h, t, b, cursor);
    TablesMean(h, b);
    NoRecordsCollide(h, b);
    ECDistinct(h, b.ecSealed);
    ECValues(h, b.ecSealed);
    LoadsAsWritten(ECHeight, ECRows(h, b.ecSealed), b.ecSealed, cursor.ec);
  }

  lemma ECValues(h: Hashing, ecs: seq<ECBlock.Block>)
    requires forall i :: 0 <= i < |ecs| ==> |ecs[i].header.expansion| < TWO_64
    ensures Values(ECRows(h, ecs)) == ecs && forall i :: 0 <= i < |ecs| ==> ECHeight(ecs[i]) == ecs[i].header.ebHeight
  {
    hide ECBlock.HeaderHash;
  }

  lemma AChainLoads(h: Hashing, t: Trust, b: Back, cursor: Cursor)
    requires Restartable(h, t, b, cursor)
    ensures LoadByHeight(AHeight, b.db.aBlocks, cursor.a) == Ok(b.aSealed)
  {
    hide *;
    RestartableParts(h, t, b, cursor);
    TablesMean(h, b);
    NoRecordsCollide(h, b);
    ADistinct(h, b.aSealed);
    AValues(h, b.aSealed);
    LoadsAsWritten(AHeight, ARows(h, b.aSealed), b.aSealed, cursor.a);
  }

  lemma AValues(h: Hashing, as_: seq<AdminBlock.Block>)
    requires forall i :: 0 <= i < |as_| ==> AdminBlock.Consistent(as_[i])
    ensures Values(ARows(h, as_)) == as_ && forall i :: 0 <= i < |as_| ==> AHeight(as_[i]) == as_[i].header.dbHeight
  {
    hide AdminBlock.PartialHash, AdminBlock.Consistent;
  }

  lemma FChainLoads(h: Hashing, t: Trust, b: Back, cursor: Cursor)
    requires Restartable(h, t, b, cursor)
    ensures LoadByHeight(FHeight, b.db.fBlocks, cursor.f) == Ok(b.fSealed)
  {
    hide *;
    RestartableParts(h, t, b, cursor);
    TablesMean(h, b);
    FValues(b.fSealed);
    LoadsAsWritten(FHeight, FRows(b.fSealed), b.fSealed, cursor.f);
  }

  lemma FValues(fs: seq<FBlock>)
    ensures Values(FRows(fs)) == fs
  {
  }

  /** The ledger on disk: in every reachable state the entry credit blocks that the database holds, fetched
      in whatever order and sorted by height, replay to the balances of the sealed blocks, which right
      after a block are the live ones, unless two of their headers collide. */
  lemma BalancesOnDisk(env: Env, states: seq<State>, steps: seq<Step>, i: nat, keys: seq<Digest>)
    requires IsRun(env, states, steps) && i < |states| && Boot(env, states[0])
    requires Enumerates(keys, states[i].back.db.ecBlocks)
    ensures AllRecorded(env.h, states[i].back) && (forall k :: k in keys ==> k in states[i].back.db.ecBlocks)
    ensures var (f, b) := (states[i].front, states[i].back);
      var credits := ReplayBlocks(SortByHeight(ECHeight, Fetch(b.db.ecBlocks, keys)));
      || RecordsCollide(env.h, b)
      || (f.rate > 0 && f.credits == Replay(credits, ECEntries(f.rate, f.items))
          && (i > 0 && steps[i - 1].Close? ==> f.credits == credits))
  {
    hide *;
    BootInv(env, states[0]);
    RunKeepsInv(env, states[0].front.chains.Keys, states, steps, i);
    InvBackMeans(env, states[0].front.chains.Keys, states[i]);
    TablesMean(env.h, states[i].back);
    LedgerRefinement(env, states, steps, i);
    EnumeratesKeys(keys, states[i].back.db.ecBlocks);
    if !RecordsCollide(env.h, states[i].back) {
      NoRecordsCollide(env.h, states[i].back);
      ECDistinct(env.h, states[i].back.ecSealed);
      ECValues(env.h, states[i].back.ecSealed);
      FetchesInOrder(ECHeight, ECRows(env.h, states[i].back.ecSealed), states[i].back.ecSealed, keys);
    }
  }

  lemma EnumeratesKeys<T>(keys: seq<Digest>, table: map<Digest, T>)
    requires Enumerates(keys, table)
    ensures forall k :: k in keys ==> k in table
  {
  }

  lemma FetchesInOrder<T>(height: T -> int, rows: seq<(Digest, T)>, xs: seq<T>, keys: seq<Digest>)
    requires DistinctRows(rows) && Enumerates(keys, TableOf(rows)) && Values(rows) == xs
    requires forall i :: 0 <= i < |xs| ==> height(xs[i]) == i
    ensures (forall k :: k in keys ==> k in TableOf(rows)) && SortByHeight(height, Fetch(TableOf(rows), keys)) == xs
  {
    hide TableOf, SortByHeight, Fetch, DistinctRows, Values;
    SortedFetch(height, rows, keys);
  }

  /** A signature below is what the check wants to see. */
  lemma SignedPasses(t: Trust, dBlocks: seq<DirectoryBlock.Block>, i: nat, a: AdminBlock.Block)
    requires i <= |dBlocks| && SignedBelow(t, dBlocks, i, a) && a.header.dbHeight == i
    ensures SignatureAnswer(t, Present(dBlocks), a) == Yes
  {
    hide SignatureAnswer, DirectoryBlock.MarshalHeader, Unsigned, SignsFor;
    AnswerMeans(t, Present(dBlocks), a);
  }

  lemma AllPass(h: Hashing, t: Trust, b: Back, cursor: Cursor)
    requires Restartable(h, t, b, cursor)
    ensures AllSigned(t, b.dBlocks, b.aSealed)
  {
    TablesMean(h, b);
    hide Recorded, SignedBelow, SignatureAnswer, Enumerated, RecordsCollide, FactoidAt, DistinctRows;
    forall i | 0 <= i < |b.aSealed|
      ensures SignatureAnswer(t, Present(b.dBlocks), b.aSealed[i]) == Yes
    {
      SignedPasses(t, b.dBlocks, i, b.aSealed[i]);
    }
  }

  // ---------------------------------------------------------------- start-up succeeds

  /** Every chain of the chain table can be read. */
  lemma TableReads(env: Env, loaded: set<Digest>, s: State)
    requires Inv(env, loaded, s) && !BlocksCollide(env.h, s.back.eSealed)
    ensures AllReadable(env.h, s.back.db.eTables, s.back.db.chains)
  {
    hide Inv, BlocksCollide, InitEChainFromDB, NothingUnder;
    forall cid | cid in s.back.db.chains
      ensures InitEChainFromDB(env.h, s.back.db.eTables, cid).Ok?
    {
      TableIdle(env, loaded, s, cid);
      ReservedZero();
      ReadsIn(env, loaded, s, cid);
    }
  }

  lemma TableIdle(env: Env, loaded: set<Digest>, s: State, cid: Digest)
    requires Inv(env, loaded, s) && cid in s.back.db.chains
    ensures cid in s.front.chains && !Reserved(cid) && s.front.chains[cid].chainID == cid
    ensures s.back.db.chains[cid] == s.front.chains[cid].firstEntry
    ensures |s.front.items| <= |s.front.log| && Owned(loaded, s.front, cid)
  {
    hide OpensRight, ChainsRight, BlocksCollide, Tidy, AllListed, Recorded, Owned, Reserved, Balanced, Ordered,
      NewChainsWait;
  }

  /** Every stored factoid block reports the key it is stored under. */
  predicate KeysHonest(b: Back) {
    forall k :: k in b.db.fBlocks ==> b.db.fBlocks[k].keyMR == k
  }

  lemma HonestKeys(h: Hashing, t: Trust, b: Back)
    requires Recorded(h, b) && Honest(t, b)
    ensures KeysHonest(b)
  {
    FactoidTable(h, b);
    hide Recorded, TableOf, SignedBelow;
    forall k | k in b.db.fBlocks
      ensures b.db.fBlocks[k].keyMR == k
    {
      TableRow(FRows(b.fSealed), k);
      var i :| 0 <= i < |b.fSealed| && FRows(b.fSealed)[i] == (k, b.db.fBlocks[k]);
      assert FactoidAt(b.fSealed[i], i);
    }
  }

  lemma HonestKeysHonestLists(h: Hashing, b: Back)
    requires KeysHonest(b) && AllListed(h, b)
    ensures V.FactoidsHonest(b)
  {
    ChainIDsDiffer();
    hide EBlock.KeyMR;
    forall i, j | 0 <= i < |b.dBlocks| && 0 <= j < |b.dBlocks[i].entries|
        && b.dBlocks[i].entries[j].chainID == FACTOID_CHAINID
      ensures V.FactoidHonest(b.db, b.dBlocks[i].entries[j].keyMR)
    {
      assert Listed(h, b.db, b.eSealed, b.dBlocks[i].entries[j]);
    }
  }

  lemma VerdictIsValid(env: Env, loaded: set<Digest>, t: Trust, s: State)
    requires Inv(env, loaded, s) && Honest(t, s.back) && s.back.dBlocks != [] && !BlocksCollide(env.h, s.back.eSealed)
    ensures V.ChainVerdict(env.h, s.back.db, DirectoryBlock.DBHash(env.h, s.back.dBlocks[0]), s.back.dBlocks,
        s.back.nextDBHeight) == V.Valid
    ensures s.back.nextDBHeight == |s.back.dBlocks|
  {
    InvBackMeans(env, loaded, s);
    hide *;
    HonestKeys(env.h, t, s.back);
    HonestKeysHonestLists(env.h, s.back);
    V.BuiltIsValid(env.h, s.back);
  }

  lemma InvBackMeans(env: Env, loaded: set<Digest>, s: State)
    requires Inv(env, loaded, s)
    ensures Tidy(env.h, s.back) && AllListed(env.h, s.back) && Recorded(env.h, s.back)
    ensures s.back.nextDBHeight == |s.back.dBlocks| && DirectoryBlock.Numbered(s.back.dBlocks)
  {
    hide OpensRight, ChainsRight, BlocksCollide, AllListed, Recorded, FrontInv, TableRight,
      DirectoryBlock.Numbered, DirectoryBlock.Linked, Storable, StoreAll, EntriesStored, Named;
  }

  /** What start-up comes to on a well-kept database. */
  function Restarted(h: Hashing, cfg: Config, b: Back): Started
    requires AllRecorded(h, b) && 0 < |b.dBlocks| < TWO_32 && AllReadable(h, b.db.eTables, b.db.chains)
  {
    var n := |b.dBlocks|;
    HeightsOfRecords(h, b);
    var chains := map cid | cid in b.db.chains :: ReadChain(h, b.db.eTables, cid, b.db.chains[cid]);
    Started(NewFront(b.fSealed[n - 1].rate, ReplayBlocks(b.ecSealed), chains),
            ECBlock.NextECBlock(h, b.ecSealed[n - 1]),
            SignDirectoryBlock(cfg, b.dBlocks, AdminBlock.CreateAdminBlock(h, n, Some(b.aSealed[n - 1]))),
            DirectoryBlock.CreateDBlock(h, n, Some(b.dBlocks[n - 1])), b.dBlocks)
  }

  lemma SmallCount(n: nat)
    requires n < TWO_32
    ensures n % TWO_32 == n
  {
  }

  lemma ECStartsFrom(h: Hashing, table: map<Digest, ECBlock.Block>, keys: seq<Digest>, ecs: seq<ECBlock.Block>)
    requires (forall k :: k in keys ==> k in table) && AllSizable(table) && 0 < |ecs| < TWO_32
    requires SortByHeight(ECHeight, Fetch(table, keys)) == ecs && ECBlock.Sizable(ecs[|ecs| - 1])
    ensures InitECChain(h, table, keys, |ecs|) == Ok((ReplayBlocks(ecs), ECBlock.NextECBlock(h, ecs[|ecs| - 1])))
  {
    hide SortByHeight, Fetch, ReplayBlocks, ECBlock.NextECBlock, ECBlock.Sizable, AllSizable;
  }

  lemma ECChainStarts(h: Hashing, t: Trust, b: Back, cursor: Cursor)
    requires Restartable(h, t, b, cursor)
    ensures AllRecorded(h, b) && |b.ecSealed| == |b.dBlocks| && ECBlock.Sizable(b.ecSealed[|b.dBlocks| - 1])
    ensures (forall k :: k in cursor.ec ==> k in b.db.ecBlocks) && AllSizable(b.db.ecBlocks)
    ensures InitECChain(h, b.db.ecBlocks, cursor.ec, |b.dBlocks| % TWO_32)
         == Ok((ReplayBlocks(b.ecSealed), ECBlock.NextECBlock(h, b.ecSealed[|b.dBlocks| - 1])))
  {
    hide *;
    RestartableMeans(h, t, b, cursor);
    ReadableMeans(b.db, b.dTable, cursor);
    TablesMean(h, b);
    ECChainLoads(h, t, b, cursor);
    ECStartsFrom(h, b.db.ecBlocks, cursor.ec, b.ecSealed);
  }

  lemma ReadableMeans(db: Db, dTable: map<Digest, DirectoryBlock.Block>, cursor: Cursor)
    requires Readable(db, dTable, cursor)
    ensures (forall k :: k in cursor.d ==> k in dTable) && (forall k :: k in cursor.ec ==> k in db.ecBlocks)
    ensures (forall k :: k in cursor.a ==> k in db.aBlocks) && (forall k :: k in cursor.f ==> k in db.fBlocks)
    ensures AllSizable(db.ecBlocks) && AllConsistent(db.aBlocks)
  {
    hide AllSizable, AllConsistent;
  }

  lemma AStartsFrom(h: Hashing, t: Trust, table: map<Digest, AdminBlock.Block>, keys: seq<Digest>,
      dBlocks: seq<DirectoryBlock.Block>,
                    as_: seq<AdminBlock.Block>)
    requires (forall k :: k in keys ==> k in table) && AllConsistent(table) && 0 < |as_| == |dBlocks| < TWO_32
    requires LoadByHeight(AHeight, table, keys) == Ok(as_) && AllSigned(t, dBlocks, as_)
    requires AdminBlock.Consistent(as_[|as_| - 1])
    ensures InitAChain(h, t, table, keys, dBlocks) == Ok(AdminBlock.CreateAdminBlock(h, |dBlocks|, Some(as_[|as_| - 1])))
  {
    SmallCount(|dBlocks|);
    LoadedIsSorted(AHeight, table, keys, as_);
    hide LoadByHeight, AllSigned, AdminBlock.CreateAdminBlock, AdminBlock.Consistent, AllConsistent,
      SortByHeight, Fetch;
  }

  lemma AChainStarts(h: Hashing, t: Trust, b: Back, cursor: Cursor)
    requires Restartable(h, t, b, cursor)
    ensures |b.aSealed| == |b.dBlocks| && AdminBlock.Consistent(b.aSealed[|b.dBlocks| - 1])
    ensures (forall k :: k in cursor.a ==> k in b.db.aBlocks) && AllConsistent(b.db.aBlocks)
    ensures InitAChain(h, t, b.db.aBlocks, cursor.a, b.dBlocks)
         == Ok(AdminBlock.CreateAdminBlock(h, |b.dBlocks|, Some(b.aSealed[|b.dBlocks| - 1])))
  {
    hide *;
    RestartableMeans(h, t, b, cursor);
    ReadableMeans(b.db, b.dTable, cursor);
    TablesMean(h, b);
    AChainLoads(h, t, b, cursor);
    AllPass(h, t, b, cursor);
    AStartsFrom(h, t, b.db.aBlocks, cursor.a, b.dBlocks, b.aSealed);
  }

  lemma LoadedIsSorted<T>(height: T -> int, table: map<Digest, T>, keys: seq<Digest>, xs: seq<T>)
    requires (forall k :: k in keys ==> k in table) && LoadByHeight(height, table, keys) == Ok(xs)
    ensures SortByHeight(height, Fetch(table, keys)) == xs && |xs| == |keys|
  {
    hide SortByHeight;
  }

  lemma FChainStarts(h: Hashing, t: Trust, b: Back, cursor: Cursor)
    requires Restartable(h, t, b, cursor)
    ensures |b.fSealed| == |b.dBlocks| && (forall k :: k in cursor.f ==> k in b.db.fBlocks)
    ensures InitFctChain(b.db.fBlocks, cursor.f) == Ok(b.fSealed[|b.dBlocks| - 1].rate)
  {
    hide *;
    RestartableMeans(h, t, b, cursor);
    ReadableMeans(b.db, b.dTable, cursor);
    TablesMean(h, b);
    FChainLoads(h, t, b, cursor);
    FStartsFrom(b.db.fBlocks, cursor.f, b.fSealed);
  }

  lemma FStartsFrom(table: map<Digest, FBlock>, keys: seq<Digest>, fs: seq<FBlock>)
    requires (forall k :: k in keys ==> k in table) && LoadByHeight(FHeight, table, keys) == Ok(fs) && fs != []
    ensures InitFctChain(table, keys) == Ok(fs[|fs| - 1].rate)
  {
    hide LoadByHeight;
  }

  lemma DStartsFrom(h: Hashing, table: map<Digest, DirectoryBlock.Block>, keys: seq<Digest>,
      ds: seq<DirectoryBlock.Block>)
    requires (forall k :: k in keys ==> k in table) && LoadByHeight(DHeight, table, keys) == Ok(ds) && 0 < |ds| < TWO_32
    ensures InitDChain(h, table, keys) == Ok((ds, DirectoryBlock.CreateDBlock(h, |ds|, Some(ds[|ds| - 1]))))
  {
    SmallCount(|ds|);
    hide LoadByHeight, DirectoryBlock.CreateDBlock;
  }

  lemma DChainStarts(h: Hashing, t: Trust, b: Back, cursor: Cursor)
    requires Restartable(h, t, b, cursor)
    ensures (forall k :: k in cursor.d ==> k in b.dTable) && b.dTable != map[]
    ensures InitDChain(h, b.dTable, cursor.d)
        == Ok((b.dBlocks, DirectoryBlock.CreateDBlock(h, |b.dBlocks|, Some(b.dBlocks[|b.dBlocks| - 1]))))
  {
    hide *;
    RestartableMeans(h, t, b, cursor);
    ReadableMeans(b.db, b.dTable, cursor);
    DChainLoads(h, t, b, cursor);
    LastRowStays(h, b);
    DStartsFrom(h, b.dTable, cursor.d, b.dBlocks);
  }

  lemma LastRowStays(h: Hashing, b: Back)
    requires Recorded(h, b) && b.dBlocks != []
    ensures b.dTable != map[]
  {
    hide *;
    TablesMean(h, b);
    var last := |b.dBlocks| - 1;
    DRowAt(h, b.dBlocks, last);
    TableKeys(DRows(h, b.dBlocks), DirectoryBlock.DBHash(h, b.dBlocks[last]));
    assert DirectoryBlock.DBHash(h, b.dBlocks[last]) in b.dTable;
  }

  lemma DRowAt(h: Hashing, ds: seq<DirectoryBlock.Block>, i: nat)
    requires i < |ds|
    ensures i < |DRows(h, ds)| && DRows(h, ds)[i].0 == DirectoryBlock.DBHash(h, ds[i])
  {
    hide DirectoryBlock.DBHash;
  }

  /** Start-up succeeds on what servers have built. */
  lemma StartsUp(env: Env, loaded: set<Digest>, cfg: Config, s: State, cursor: Cursor)
    requires Inv(env, loaded, s) && Restartable(env.h, cfg.trust, s.back, cursor)
    requires !BlocksCollide(env.h, s.back.eSealed)
    requires cfg.trust.genesis == DirectoryBlock.DBHash(env.h, s.back.dBlocks[0])
    ensures Readable(s.back.db, s.back.dTable, cursor) && s.back.dTable != map[]
    ensures AllRecorded(env.h, s.back) && AllReadable(env.h, s.back.db.eTables, s.back.db.chains)
    ensures StartUp(env.h, cfg, s.back.db, s.back.dTable, cursor) == Ok(Restarted(env.h, cfg, s.back))
  {
    RestartableMeans(env.h, cfg.trust, s.back, cursor);
    TableReads(env, loaded, s);
    VerdictIsValid(env, loaded, cfg.trust, s);
    DChainStarts(env.h, cfg.trust, s.back, cursor);
    ECChainStarts(env.h, cfg.trust, s.back, cursor);
    AChainStarts(env.h, cfg.trust, s.back, cursor);
    FChainStarts(env.h, cfg.trust, s.back, cursor);
    hide Inv, Restartable, BlocksCollide, InitDChain, InitECChain, InitAChain, InitFctChain, AllReadable,
      Recorded, AllRecorded, Honest, V.ChainVerdict, SignDirectoryBlock, ReplayBlocks, ECBlock.NextECBlock,
      AdminBlock.CreateAdminBlock, DirectoryBlock.CreateDBlock, Enumerated, AllSizable, AllConsistent,
      DirectoryBlock.DBHash, ECBlock.Sizable, AdminBlock.Consistent;
  }

  lemma RestartableMeans(h: Hashing, t: Trust, b: Back, cursor: Cursor)
    requires Restartable(h, t, b, cursor)
    ensures Recorded(h, b) && Honest(t, b) && 0 < |b.dBlocks| < TWO_32 && |b.dBlocks| % TWO_32 == |b.dBlocks|
    ensures Readable(b.db, b.dTable, cursor)
  {
    hide Recorded, Honest, RecordsCollide, DirectoryBlock.Numbered, Readable, Enumerated, AllRecorded;
    SmallCount(|b.dBlocks|);
    ReadableTables(h, b, cursor);
  }

  // ---------------------------------------------------------------- the server after start-up

  /** The sealed half after start-up: the same database, with new open blocks. */
  function Resumed(b: Back, u: Started): Back {
    b.(ecNext := u.ecNext, aNext := u.aNext, dNext := u.dNext, dBlocks := u.dBlocks,
       aHeight := |u.dBlocks|, fHeight := |u.dBlocks|, nextDBHeight := |u.dBlocks|)
  }

  lemma LastRecordsMatch(h: Hashing, b: Back)
    requires AllRecorded(h, b) && b.dBlocks != []
    ensures |b.ecSealed| == |b.aSealed| == |b.dBlocks|
    ensures ECBlock.HeaderMatches(h, b.ecSealed[|b.ecSealed| - 1]) && AdminBlock.Consistent(b.aSealed[|b.aSealed| - 1])
  {
    hide Heads, ECBlock.HeaderMatches, AdminBlock.Consistent;
    assert RecordedAt(h, b, |b.dBlocks| - 1);
  }

  lemma OpenBlocks(h: Hashing, cfg: Config, b: Back)
    requires AllRecorded(h, b) && 0 < |b.dBlocks| < TWO_32 && AllReadable(h, b.db.eTables, b.db.chains)
    ensures var u := Restarted(h, cfg, b); var n := |b.dBlocks|;
      && u.dBlocks == b.dBlocks && u.ecNext.body == [] && u.ecNext.header.ebHeight == n % TWO_32
      && u.aNext.header.dbHeight == n % TWO_32 && |u.aNext.header.expansion| == u.aNext.header.expansionSize
      && var sig := cfg.sign(DirectoryBlock.MarshalHeader(b.dBlocks[n - 1].header));
      && u.aNext.entries == [AdminBlock.DBSignature(ZERO_HASH, cfg.trust.serverPubKey, sig)]
      && u.dNext.entries == [] && u.dNext.header.dbHeight == n % TWO_32
      && u.dNext.header.prevKeyMR == DirectoryBlock.KeyMR(h, b.dBlocks[n - 1])
      && u.dNext.header.prevLedgerKeyMR == DirectoryBlock.DBHash(h, b.dBlocks[n - 1])
  {
    SmallCount(|b.dBlocks|);
    HeightsOfRecords(h, b);
    hide AllRecorded, AllReadable, ReadChain, DirectoryBlock.KeyMR, DirectoryBlock.DBHash,
      DirectoryBlock.MarshalHeader, ECBlock.HeaderHash, ECBlock.FullHash, ECBlock.Sizable, AdminBlock.Marshal,
      AdminBlock.Sha512Half, AdminBlock.Consistent, ReplayBlocks;
  }

  /** The open blocks lead to the newest stored ones. */
  lemma OpenLinks(h: Hashing, cfg: Config, b: Back)
    requires AllRecorded(h, b) && 0 < |b.dBlocks| < TWO_32 && AllReadable(h, b.db.eTables, b.db.chains)
    ensures var u := Restarted(h, cfg, b);
      ECBlock.Follows(h, u.ecNext.header, b.ecSealed) && AdminBlock.Follows(h, u.aNext.header, b.aSealed)
  {
    LastRecordsMatch(h, b);
    ECBlock.NextFollows(h, b.ecSealed);
    AdminBlock.NextFollows(h, |b.dBlocks|, b.aSealed);
    hide AllRecorded, AllReadable, ReadChain, DirectoryBlock.CreateDBlock, DirectoryBlock.MarshalHeader,
        ECBlock.NextECBlock,
      ECBlock.HeaderMatches, ECBlock.Sizable, AdminBlock.CreateAdminBlock, AdminBlock.Consistent, ReplayBlocks,
      ECBlock.Follows, AdminBlock.Follows;
  }

  lemma ResumedTidy(h: Hashing, b: Back, u: Started)
    requires Tidy(h, b) && u.dBlocks == b.dBlocks && b.dBlocks != []
    requires u.ecNext.body == [] && |u.aNext.header.expansion| == u.aNext.header.expansionSize
    requires u.dNext.entries == [] && u.dNext.header.dbHeight == |b.dBlocks| % TWO_32
    requires u.dNext.header.prevKeyMR == DirectoryBlock.KeyMR(h, b.dBlocks[|b.dBlocks| - 1])
    requires u.dNext.header.prevLedgerKeyMR == DirectoryBlock.DBHash(h, b.dBlocks[|b.dBlocks| - 1])
    ensures Tidy(h, Resumed(b, u))
  {
    hide DirectoryBlock.KeyMR, DirectoryBlock.DBHash, DirectoryBlock.Linked, DirectoryBlock.Numbered, Storable,
      StoreAll, EntriesStored, Named;
  }

  lemma ResumedRecorded(h: Hashing, b: Back, u: Started)
    requires Recorded(h, b) && u.dBlocks == b.dBlocks
    requires u.ecNext.header.ebHeight == |b.dBlocks| % TWO_32 && u.aNext.header.dbHeight == |b.dBlocks| % TWO_32
    requires ECBlock.Follows(h, u.ecNext.header, b.ecSealed) && AdminBlock.Follows(h, u.aNext.header, b.aSealed)
    ensures Recorded(h, Resumed(b, u))
  {
    hide ECBlock.Linked, AdminBlock.Linked, ECBlock.Follows, AdminBlock.Follows, Heads, ECBlock.HeaderMatches,
        AdminBlock.Consistent, ECRows, ARows, FRows, DRows, TableOf;
    var r := Resumed(b, u);
    forall i | 0 <= i < |r.dBlocks|
      ensures RecordedAt(h, r, i)
    {
      assert RecordedAt(h, b, i);
    }
  }

  lemma ResumedListed(h: Hashing, b: Back, u: Started)
    requires AllListed(h, b) && u.dBlocks == b.dBlocks
    ensures AllListed(h, Resumed(b, u))
  {
    hide Listed;
  }

  lemma ResumedBack(env: Env, loaded: set<Digest>, cfg: Config, s: State)
    requires Inv(env, loaded, s) && 0 < |s.back.dBlocks| < TWO_32
    requires AllRecorded(env.h, s.back) && AllReadable(env.h, s.back.db.eTables, s.back.db.chains)
    ensures BackInv(env.h, Resumed(s.back, Restarted(env.h, cfg, s.back)))
  {
    hide *;
    var u := Restarted(env.h, cfg, s.back);
    InvBackMeans(env, loaded, s);
    InvBack(env, loaded, s);
    OpenBlocks(env.h, cfg, s.back);
    OpenLinks(env.h, cfg, s.back);
    ResumedTidy(env.h, s.back, u);
    ResumedRecorded(env.h, s.back, u);
    ResumedListed(env.h, s.back, u);
    BackByParts(env.h, s.back, u);
  }

  lemma BackByParts(h: Hashing, b: Back, u: Started)
    requires BackInv(h, b) && u.dBlocks == b.dBlocks && |b.dBlocks| == b.nextDBHeight
    requires Tidy(h, Resumed(b, u)) && Recorded(h, Resumed(b, u)) && AllListed(h, Resumed(b, u))
    ensures BackInv(h, Resumed(b, u))
  {
    hide Tidy, Recorded, AllListed, BlocksCollide, StoredRight;
  }

  lemma ReadIsIdle(h: Hashing, t: Tables, cid: Digest, first: Entry)
    requires InitEChainFromDB(h, t, cid).Ok?
    ensures var c := ReadChain(h, t, cid, first);
      && c.nextBlock.body == [] && c.chainID == cid && c.nextBlock.header.chainID == cid && c.firstEntry == first
      && InitEChainFromDB(h, t, cid) == Ok((c.nextBlockHeight, c.nextBlock))
  {
    ReadIsOpen(h, t, cid);
    hide InitEChainFromDB;
  }

  lemma ResumedChains(env: Env, loaded: set<Digest>, cfg: Config, s: State)
    requires Inv(env, loaded, s) && 0 < |s.back.dBlocks| < TWO_32
    requires AllRecorded(env.h, s.back) && AllReadable(env.h, s.back.db.eTables, s.back.db.chains)
    ensures var chains := Restarted(env.h, cfg, s.back).front.chains;
      ChainsIdle(chains) && ChainsAsRead(env.h, Resumed(s.back, Restarted(env.h, cfg, s.back)), chains)
  {
    hide Inv, AllRecorded, ReadChain, InitEChainFromDB, Reserved, ReplayBlocks, SignDirectoryBlock, ECBlock.NextECBlock,
      DirectoryBlock.CreateDBlock, AdminBlock.CreateAdminBlock, ECBlock.Sizable, AdminBlock.Consistent;
    forall cid | cid in s.back.db.chains
      ensures InitEChainFromDB(env.h, s.back.db.eTables, cid).Ok? && !Reserved(cid)
      ensures var c := ReadChain(env.h, s.back.db.eTables, cid, s.back.db.chains[cid]);
        && c.nextBlock.body == [] && c.chainID == cid && c.nextBlock.header.chainID == cid
            && c.firstEntry == s.back.db.chains[cid]
        && InitEChainFromDB(env.h, s.back.db.eTables, cid) == Ok((c.nextBlockHeight, c.nextBlock))
    {
      TableIdle(env, loaded, s, cid);
      ReadIsIdle(env.h, s.back.db.eTables, cid, s.back.db.chains[cid]);
    }
  }

  lemma LastFactoid(t: Trust, b: Back)
    requires Honest(t, b) && b.dBlocks != []
    ensures |b.fSealed| == |b.dBlocks| && b.fSealed[|b.dBlocks| - 1].rate > 0
  {
    hide SignedBelow, DistinctRows;
    assert FactoidAt(b.fSealed[|b.dBlocks| - 1], |b.dBlocks| - 1);
  }

  lemma RestartedFront(h: Hashing, t: Trust, cfg: Config, b: Back)
    requires AllRecorded(h, b) && 0 < |b.dBlocks| < TWO_32 && AllReadable(h, b.db.eTables, b.db.chains) && Honest(t, b)
    ensures var u := Restarted(h, cfg, b);
      && u.front == NewFront(u.front.rate, ReplayBlocks(b.ecSealed), u.front.chains) && u.front.rate > 0
          && u.dBlocks == b.dBlocks
      && u.front.chains.Keys == b.db.chains.Keys
      && b.fSealed != [] && u.front.rate == b.fSealed[|b.fSealed| - 1].rate
  {
    LastFactoid(t, b);
    hide Honest, AllRecorded, ReadChain, AllReadable, ReplayBlocks, SignDirectoryBlock, ECBlock.NextECBlock,
        DirectoryBlock.CreateDBlock, AdminBlock.CreateAdminBlock, ECBlock.Sizable,
      AdminBlock.Consistent;
  }

  lemma BootByParts(env: Env, front: Front, b: Back)
    requires front == NewFront(front.rate, ReplayBlocks(b.ecSealed), front.chains) && front.rate > 0
    requires ChainsIdle(front.chains) && ChainsAsRead(env.h, b, front.chains) && BackInv(env.h, b)
    ensures Boot(env, State(front, b))
  {
    hide ReplayBlocks, ChainsIdle, ChainsAsRead, BackInv;
  }

  lemma ResumedHonest(h: Hashing, cfg: Config, b: Back)
    requires AllRecorded(h, b) && 0 < |b.dBlocks| < TWO_32 && AllReadable(h, b.db.eTables, b.db.chains)
    requires Honest(cfg.trust, b) && Signs(cfg.trust, cfg.trust.serverPubKey, cfg.sign)
    ensures Honest(cfg.trust, Resumed(b, Restarted(h, cfg, b)))
  {
    OpenBlocks(h, cfg, b);
    hide AllRecorded, Restarted, AllReadable, Signs, DirectoryBlock.KeyMR, DirectoryBlock.DBHash,
      DirectoryBlock.MarshalHeader, SignedBelow, DistinctRows, FactoidAt;
    NewSignature(cfg.trust, b.dBlocks, Restarted(h, cfg, b).aNext, cfg.trust.serverPubKey, cfg.sign);
  }

  /** The state after start-up is one that runs start from. */
  lemma RestartBoots(env: Env, loaded: set<Digest>, cfg: Config, s: State)
    requires Inv(env, loaded, s) && 0 < |s.back.dBlocks| < TWO_32 && Honest(cfg.trust, s.back)
    requires AllRecorded(env.h, s.back) && AllReadable(env.h, s.back.db.eTables, s.back.db.chains)
    ensures var u := Restarted(env.h, cfg, s.back); Boot(env, State(u.front, Resumed(s.back, u)))
  {
    hide *;
    ResumedBack(env, loaded, cfg, s);
    ResumedChains(env, loaded, cfg, s);
    RestartedFront(env.h, cfg.trust, cfg, s.back);
    ResumedKeeps(s.back, Restarted(env.h, cfg, s.back));
    BootByParts(env, Restarted(env.h, cfg, s.back).front, Resumed(s.back, Restarted(env.h, cfg, s.back)));
  }

  lemma ResumedKeeps(b: Back, u: Started)
    ensures Resumed(b, u).ecSealed == b.ecSealed && Resumed(b, u).db == b.db && Resumed(b, u).eSealed == b.eSealed
  {
  }

  // ---------------------------------------------------------------- the chains come back

  /** Start-up knows the chains that were created before the open period, each as it was; a chain whose
      id ends in 255 starts over. */
  ghost predicate ChainsBack(loaded: set<Digest>, f: Front, read: map<Digest, EBlock.EChain>)
    requires |f.items| <= |f.log|
  {
    && (forall cid :: cid in read <==> cid in f.chains && Owned(loaded, f, cid))
    && (forall cid :: cid in read && cid in f.chains ==> OneBack(cid, f.chains[cid], read[cid]))
  }

  predicate OneBack(cid: Digest, live: EBlock.EChain, read: EBlock.EChain) {
    if cid[31] < 255 then read == live else (read == live <==> live.nextBlockHeight == 0)
  }

  lemma OneChainBack(env: Env, loaded: set<Digest>, s: State, cid: Digest)
    requires Inv(env, loaded, s) && !BlocksCollide(env.h, s.back.eSealed) && cid in s.back.db.chains
    requires InitEChainFromDB(env.h, s.back.db.eTables, cid).Ok?
    ensures cid in s.front.chains
    ensures OneBack(cid, s.front.chains[cid], ReadChain(env.h, s.back.db.eTables, cid, s.back.db.chains[cid]))
  {
    hide *;
    TableIdle(env, loaded, s, cid);
    RecoveryOf(env, loaded, s, cid);
    ReadIsIdle(env.h, s.back.db.eTables, cid, s.back.db.chains[cid]);
    RecoversMeans(env.h, s.back, cid, s.front.chains[cid]);
    OneBackMeans(cid, s.front.chains[cid], ReadChain(env.h, s.back.db.eTables, cid, s.back.db.chains[cid]));
  }

  lemma OneBackMeans(cid: Digest, live: EBlock.EChain, read: EBlock.EChain)
    ensures OneBack(cid, live, read) <==> if cid[31] < 255 then read == live
        else (read == live <==> live.nextBlockHeight == 0)
  {
  }

  lemma RecoversMeans(h: Hashing, b: Back, cid: Digest, chain: EBlock.EChain)
    ensures RecoversAs(h, b, cid, chain)
        <==> InitEChainFromDB(h, b.db.eTables, cid) == Ok((chain.nextBlockHeight, chain.nextBlock))
  {
    hide InitEChainFromDB;
  }

  lemma RestartedChains(h: Hashing, cfg: Config, b: Back)
    requires AllRecorded(h, b) && 0 < |b.dBlocks| < TWO_32 && AllReadable(h, b.db.eTables, b.db.chains)
    ensures var read := Restarted(h, cfg, b).front.chains;
      && read.Keys == b.db.chains.Keys
      && forall cid :: cid in b.db.chains ==>
        InitEChainFromDB(h, b.db.eTables, cid).Ok? && read[cid] == ReadChain(h, b.db.eTables, cid, b.db.chains[cid])
  {
    hide AllRecorded, ReadChain, InitEChainFromDB, ReplayBlocks, SignDirectoryBlock, ECBlock.NextECBlock,
      DirectoryBlock.CreateDBlock, AdminBlock.CreateAdminBlock, ECBlock.Sizable, AdminBlock.Consistent;
  }

  lemma BackByChains(loaded: set<Digest>, f: Front, read: map<Digest, EBlock.EChain>)
    requires |f.items| <= |f.log|
    requires forall cid ::
      && (cid in read <==> cid in f.chains && Owned(loaded, f, cid))
      && (cid in read ==> OneBack(cid, f.chains[cid], read[cid]))
    ensures ChainsBack(loaded, f, read)
  {
    hide Owned, OneBack;
  }

  lemma ChainsComeBack(env: Env, loaded: set<Digest>, cfg: Config, s: State)
    requires Inv(env, loaded, s) && !BlocksCollide(env.h, s.back.eSealed)
    requires AllRecorded(env.h, s.back) && 0 < |s.back.dBlocks| < TWO_32
    requires AllReadable(env.h, s.back.db.eTables, s.back.db.chains)
    ensures |s.front.items| <= |s.front.log| && ChainsBack(loaded, s.front, Restarted(env.h, cfg, s.back).front.chains)
  {
    hide *;
    InvFront(env, loaded, s);
    SuffixOf(env, loaded, ReplayBlocks(s.back.ecSealed), s.front);
    SuffixCounts(s.front);
    RestartedChains(env.h, cfg, s.back);
    var read := Restarted(env.h, cfg, s.back).front.chains;
    forall cid
      ensures (cid in read <==> cid in s.front.chains && Owned(loaded, s.front, cid))
           && (cid in read ==> OneBack(cid, s.front.chains[cid], read[cid]))
    {
      OwnedInTable(env, loaded, s, cid);
      if Owned(loaded, s.front, cid) {
        OneChainBack(env, loaded, s, cid);
      }
    }
    BackByChains(loaded, s.front, read);
  }

  // ---------------------------------------------------------------- the main results

  /** What a restart achieves in state s. */
  ghost predicate ComesBack(env: Env, loaded: set<Digest>, cfg: Config, s: State, cursor: Cursor) {
    && Readable(s.back.db, s.back.dTable, cursor) && s.back.dTable != map[]
    && var r := StartUp(env.h, cfg, s.back.db, s.back.dTable, cursor);
    && r.Ok?
    && var u := r.value;
    && Boot(env, State(u.front, Resumed(s.back, u))) && Honest(cfg.trust, Resumed(s.back, u))
    && u.dBlocks == s.back.dBlocks && u.front.credits == ReplayBlocks(s.back.ecSealed)
    && s.back.fSealed != [] && u.front.rate == s.back.fSealed[|s.back.fSealed| - 1].rate
    && (s.front.items == [] ==> u.front.credits == s.front.credits)
    && |s.front.items| <= |s.front.log| && ChainsBack(loaded, s.front, u.front.chains)
  }

  lemma RestartOf(env: Env, loaded: set<Digest>, cfg: Config, s: State, cursor: Cursor)
    requires Inv(env, loaded, s) && Restartable(env.h, cfg.trust, s.back, cursor)
    requires !BlocksCollide(env.h, s.back.eSealed)
    requires cfg.trust.genesis == DirectoryBlock.DBHash(env.h, s.back.dBlocks[0])
    requires Signs(cfg.trust, cfg.trust.serverPubKey, cfg.sign)
    ensures ComesBack(env, loaded, cfg, s, cursor)
  {
    StartsUp(env, loaded, cfg, s, cursor);
    RestartableMeans(env.h, cfg.trust, s.back, cursor);
    RestartBoots(env, loaded, cfg, s);
    ResumedHonest(env.h, cfg, s.back);
    ChainsComeBack(env, loaded, cfg, s);
    RestartedFront(env.h, cfg.trust, cfg, s.back);
    InvBalanced(env, loaded, s);
    hide Inv, Restartable, BlocksCollide, Boot, Honest, Restarted, Readable, StartUp, ChainsBack, ReplayBlocks,
      Recorded, AllRecorded, Signs, DirectoryBlock.DBHash, AllReadable;
  }

  lemma InvBalanced(env: Env, loaded: set<Digest>, s: State)
    requires Inv(env, loaded, s)
    ensures s.front.items == [] ==> s.front.credits == ReplayBlocks(s.back.ecSealed)
  {
    hide OpensRight, ChainsRight, BlocksCollide, Tidy, AllListed, Recorded, TableRight, Ordered, NewChainsWait,
      ReplayBlocks;
    if s.front.items == [] {
      NoEntriesNoEffect(s.front.rate, ReplayBlocks(s.back.ecSealed));
    }
  }

  /** Restart: from every reachable state in which a block has been made, a server with the same keys
      starts up on what is stored, whatever order the tables are read in, and is then in a state that
      runs start from; it has the replayed balances, which right after a block are the live ones, and
      every created chain as it was, except that a chain whose id ends in 255 starts over and so is
      right exactly before its first block. The only exceptions are hash collisions: two stored entry
      blocks, or two records of one of the server's own chains. */
  lemma RestartOverRun(env: Env, cfg: Config, states: seq<State>, steps: seq<Step>, i: nat, cursor: Cursor)
    requires IsRun(env, states, steps) && i < |states| && Boot(env, states[0]) && Honest(cfg.trust, states[0].back)
    requires forall k :: 0 <= k < i ==> StepHonest(cfg.trust, states[k], steps[k])
    requires 0 < |states[i].back.dBlocks| < TWO_32 && Enumerated(states[i].back.db, states[i].back.dTable, cursor)
    requires cfg.trust.genesis == DirectoryBlock.DBHash(env.h, states[i].back.dBlocks[0])
    requires Signs(cfg.trust, cfg.trust.serverPubKey, cfg.sign)
    ensures AllRecorded(env.h, states[i].back)
    ensures || BlocksCollide(env.h, states[i].back.eSealed)
            || RecordsCollide(env.h, states[i].back)
            || ComesBack(env, states[0].front.chains.Keys, cfg, states[i], cursor)
  {
    hide *;
    var loaded := states[0].front.chains.Keys;
    BootInv(env, states[0]);
    RunKeepsInv(env, loaded, states, steps, i);
    RunKeepsHonest(env, cfg.trust, states, steps, i);
    InvBackMeans(env, loaded, states[i]);
    TablesMean(env.h, states[i].back);
    if !BlocksCollide(env.h, states[i].back.eSealed) && !RecordsCollide(env.h, states[i].back) {
      RestartableByParts(env.h, cfg.trust, states[i].back, cursor);
      RestartOf(env, loaded, cfg, states[i], cursor);
    }
  }

  lemma RestartableByParts(h: Hashing, t: Trust, b: Back, cursor: Cursor)
    requires Recorded(h, b) && DirectoryBlock.Numbered(b.dBlocks) && AllRecorded(h, b) && !RecordsCollide(h, b)
    requires Honest(t, b) && Enumerated(b.db, b.dTable, cursor) && 0 < |b.dBlocks| < TWO_32
    ensures Restartable(h, t, b, cursor)
  {
    hide Recorded, DirectoryBlock.Numbered, AllRecorded, RecordsCollide, Honest, Enumerated;
  }

  // ---------------------------------------------------------------- when start-up fails

  /** One chain of the chain table that cannot be read stops every start. */
  lemma UnreadableStops(h: Hashing, cfg: Config, db: Db, dTable: map<Digest, DirectoryBlock.Block>, cursor: Cursor,
      cid: Digest)
    requires Readable(db, dTable, cursor) && dTable != map[]
    requires cid in db.chains && InitEChainFromDB(h, db.eTables, cid).Err?
    ensures StartUp(h, cfg, db, dTable, cursor) == Err(Panic)
  {
    hide InitEChainFromDB, V.ChainVerdict, Fetch, SortByHeight, ReplayBlocks, AllSigned, SignDirectoryBlock,
      DirectoryBlock.CreateDBlock, AdminBlock.CreateAdminBlock, ECBlock.NextECBlock, AllSizable, AllConsistent,
      HeightsRight;
  }

  lemma {:induction false} FirstUnreadable(h: Hashing, t: Tables, items: seq<Item>) returns (k: nat)
    requires !CreationsReadable(h, t, items)
    ensures k < |items| && items[k].RevealChainItem? && InitEChainFromDB(h, t, items[k].first.chainID).Err?
    ensures CreationsReadable(h, t, items[..k])
    decreases |items|
  {
    hide InitEChainFromDB;
    var n := |items| - 1;
    if CreationsReadable(h, t, items[..n]) {
      k := n;
    } else {
      k := FirstUnreadable(h, t, items[..n]);
      assert items[..n][k] == items[k] && items[..n][..k] == items[..k];
    }
  }

  lemma EnteredInTable(h: Hashing, t: Tables, rate: u64, w: Work, before: seq<Item>, i: Item)
    requires rate > 0 && i.RevealChainItem? && i.first.chainID in w.chains
    ensures i.first.chainID in BuildItem(h, t, rate, w, before, i).chainTable
  {
    hide InitEChainFromDB, EntryHash;
  }

  /** What the database holds when building the list up to item k ends in a panic. */
  function PanickedDb(env: Env, f: Front, b: Back, k: nat): Db
    requires f.rate > 0 && ChainsKnown(f.items, f.chains) && k < |f.items|
  {
    var w := BuildFromProcessList(env.h, b.db.eTables, f.rate, WorkOf(f, b), f.items[..k + 1]);
    b.db.(entries := w.entries, chains := w.chainTable)
  }

  lemma PanickedHasChain(env: Env, f: Front, b: Back, k: nat)
    requires f.rate > 0 && ChainsKnown(f.items, f.chains) && k < |f.items| && f.items[k].RevealChainItem?
    ensures f.items[k].first.chainID in PanickedDb(env, f, b, k).chains
    ensures PanickedDb(env, f, b, k).eTables == b.db.eTables
  {
    hide BuildItem;
    assert f.items[..k + 1][..k] == f.items[..k] && f.items[..k + 1][k] == f.items[k];
    assert IsReveal(f.items[k]);
    var w := BuildFromProcessList(env.h, b.db.eTables, f.rate, WorkOf(f, b), f.items[..k]);
    EnteredInTable(env.h, b.db.eTables, f.rate, w, f.items[..k], f.items[k]);
  }

  /** A reveal whose creation cannot be built locks the server out: buildRevealChain has entered the chain
      in the chain table before it panics, and every later start panics on that chain, with whatever keys
      and whatever order the tables are read in. */
  lemma FailedCreationLocksOut(env: Env, states: seq<State>, steps: seq<Step>, i: nat, order: seq<Digest>, clock: int,
      c: Closing)
      returns (k: nat)
    requires IsRun(env, states, steps) && i < |states| && Boot(env, states[0])
    requires Fits(env, CloseList(env, states[i].front, order, clock), states[i].back, c)
    requires !CanBuild(env, CloseList(env, states[i].front, order, clock), states[i].back, c)
    ensures var (f, b) := (CloseList(env, states[i].front, order, clock), states[i].back);
      && f.rate > 0 && ChainsKnown(f.items, f.chains) && k < |f.items| && f.items[k].RevealChainItem?
      && CreationsReadable(env.h, b.db.eTables, f.items[..k])
      && forall cfg: Config, cursor: Cursor :: Readable(PanickedDb(env, f, b, k), b.dTable, cursor) && b.dTable != map[] ==>
        StartUp(env.h, cfg, PanickedDb(env, f, b, k), b.dTable, cursor) == Err(Panic)
  {
    var (f, b) := (CloseList(env, states[i].front, order, clock), states[i].back);
    assert f.rate > 0 && ChainsKnown(f.items, f.chains);
    hide Boot, DoStep, CanStep, Fits, StartUp, Readable, InitEChainFromDB, CloseList, PanickedDb, ChainsKnown;
    k := FirstUnreadable(env.h, b.db.eTables, f.items);
    PanickedHasChain(env, f, b, k);
    forall cfg: Config, cursor: Cursor | Readable(PanickedDb(env, f, b, k), b.dTable, cursor) && b.dTable != map[]
      ensures StartUp(env.h, cfg, PanickedDb(env, f, b, k), b.dTable, cursor) == Err(Panic)
    {
      UnreadableStops(env.h, cfg, PanickedDb(env, f, b, k), b.dTable, cursor, f.items[k].first.chainID);
    }
  }

  /** The promises can be kept from the start: a server with an empty database. */
  lemma EmptyIsHonest(t: Trust, b: Back)
    requires b.dBlocks == [] && b.aSealed == [] && b.fSealed == [] && b.aNext.entries == []
    ensures Honest(t, b)
  {
  }
}
