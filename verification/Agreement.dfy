/** What a client makes of the server's blocks: it accepts them, and with the server's directory chain it
    has the server's balances. */
module Agreement {
  import opened Basics
  import opened Entries
  import opened Messages
  import opened Signatures
  import opened Ledger
  import opened ECLedger
  import opened EntryStore
  import opened Builder
  import opened BuildProofs
  import opened Server
  import opened ServerBlocks
  import opened CloseProofs
  import opened Runs
  import opened Restart
  import opened Validator
  import opened SyncUp
  import opened SyncProofs
  import Minutes
  import EBlock
  import ECBlock
  import AdminBlock
  import DirectoryBlock

  // ---------------------------------------------------------------- listed entry credit blocks

  /** The entry credit blocks that a directory block lists, in order. */
  function ECKeys(es: seq<DirectoryBlock.DBEntry>): seq<Digest> {
    if es == [] then []
    else ECKeys(es[..|es| - 1]) + if es[|es| - 1].chainID == EC_CHAINID then [es[|es| - 1].keyMR] else []
  }

  function AllECKeys(blocks: seq<DirectoryBlock.Block>): seq<Digest> {
    if blocks == [] then [] else AllECKeys(blocks[..|blocks| - 1]) + ECKeys(blocks[|blocks| - 1].entries)
  }

  /** The blocks came under the listed keys. */
  predicate Answers(h: Hashing, keys: seq<Digest>, ecs: seq<ECBlock.Block>) {
    |ecs| == |keys| && forall i :: 0 <= i < |ecs| ==> CameAs(h, ecs[i], keys[i])
  }

  /** Every header says what the body is. */
  predicate AllMatch(h: Hashing, ecs: seq<ECBlock.Block>) {
    forall i :: 0 <= i < |ecs| ==> ECBlock.HeaderMatches(h, ecs[i])
  }

  lemma AnswersAppend(h: Hashing, keys: seq<Digest>, ecs: seq<ECBlock.Block>, key: Digest, ec: ECBlock.Block)
    requires Answers(h, keys, ecs) && CameAs(h, ec, key)
    ensures Answers(h, keys + [key], ecs + [ec])
  {
    hide CameAs;
    assert forall i :: 0 <= i < |ecs + [ec]| ==> (ecs + [ec])[i] == if i < |ecs| then ecs[i] else ec;
  }

  lemma {:induction false} ECKeysAppend(a: seq<DirectoryBlock.DBEntry>, b: seq<DirectoryBlock.DBEntry>)
    ensures ECKeys(a + b) == ECKeys(a) + ECKeys(b)
    decreases |b|
  {
    if b == [] {
      assert a + b == a;
    } else {
      assert (a + b)[..|a + b| - 1] == a + b[..|b| - 1];
      ECKeysAppend(a, b[..|b| - 1]);
    }
  }

  lemma {:induction false} NoECKeys(es: seq<DirectoryBlock.DBEntry>)
    requires forall j :: 0 <= j < |es| ==> es[j].chainID != EC_CHAINID
    ensures ECKeys(es) == []
    decreases |es|
  {
    if es != [] {
      NoECKeys(es[..|es| - 1]);
    }
  }

  // ---------------------------------------------------------------- the server's side

  ghost predicate ServerLists(h: Hashing, b: Back) {
    Answers(h, AllECKeys(b.dBlocks), b.ecSealed) && AllMatch(h, b.ecSealed)
  }

  /** A directory block that the server made lists exactly its entry credit block. */
  lemma HeadsKeys(h: Hashing, d: DirectoryBlock.Block, a: AdminBlock.Block, ec: ECBlock.Block, f: FBlock)
    requires AdminBlock.Consistent(a) && |ec.header.expansion| < TWO_64 && Heads(h, d, a, ec, f)
    ensures ECKeys(d.entries) == [ECBlock.HeaderHash(h, ec)]
  {
    hide ECBlock.HeaderHash, AdminBlock.PartialHash, AdminBlock.Consistent, ECKeys;
    ChainIDsDiffer();
    var es := d.entries;
    assert es == es[..3] + es[3..] && es[..3] == [es[0]] + [es[1]] + [es[2]];
    ECKeysAppend(es[..3], es[3..]);
    ECKeysAppend([es[0]] + [es[1]], [es[2]]);
    ECKeysAppend([es[0]], [es[1]]);
    forall j | 0 <= j < |es[3..]|
      ensures es[3..][j].chainID != EC_CHAINID
    {
      assert !OwnChain(es[j + 3].chainID);
    }
    NoECKeys(es[3..]);
    NoECKeys([es[0]]);
    NoECKeys([es[2]]);
    OneECKey(es[1]);
  }

  lemma OneECKey(e: DirectoryBlock.DBEntry)
    requires e.chainID == EC_CHAINID
    ensures ECKeys([e]) == [e.keyMR]
  {
    assert [e][..0] == [];
  }

  lemma RecordOf(h: Hashing, b: Back, m: nat)
    requires AllRecorded(h, b) && m < |b.dBlocks|
    ensures |b.ecSealed| == |b.aSealed| == |b.fSealed| == |b.dBlocks| && RecordedAt(h, b, m)
  {
    hide RecordedAt;
  }

  lemma KeysOfPrefix(blocks: seq<DirectoryBlock.Block>, n: nat)
    requires 0 < n <= |blocks|
    ensures AllECKeys(blocks[..n]) == AllECKeys(blocks[..n - 1]) + ECKeys(blocks[n - 1].entries)
  {
    hide ECKeys;
    assert blocks[..n][..n - 1] == blocks[..n - 1];
  }

  lemma NoBlocks(h: Hashing)
    ensures Answers(h, AllECKeys([]), []) && AllMatch(h, [])
  {
  }

  lemma MatchAppend(h: Hashing, ecs: seq<ECBlock.Block>, ec: ECBlock.Block)
    requires AllMatch(h, ecs) && ECBlock.HeaderMatches(h, ec)
    ensures AllMatch(h, ecs + [ec])
  {
    hide ECBlock.HeaderMatches;
  }

  lemma {:induction false} RecordedLists(h: Hashing, b: Back, n: nat)
    requires AllRecorded(h, b) && n <= |b.dBlocks| == |b.ecSealed|
    ensures Answers(h, AllECKeys(b.dBlocks[..n]), b.ecSealed[..n]) && AllMatch(h, b.ecSealed[..n])
    decreases n
  {
    hide *;
    if n == 0 {
      NoBlocks(h);
    } else {
      var m := n - 1;
      RecordedLists(h, b, m);
      RecordOf(h, b, m);
      RecordMeans(h, b, m);
      KeysOfPrefix(b.dBlocks, n);
      assert b.ecSealed[..n] == b.ecSealed[..m] + [b.ecSealed[m]];
      AnswersAppend(h, AllECKeys(b.dBlocks[..m]), b.ecSealed[..m], ECBlock.HeaderHash(h, b.ecSealed[m]), b.ecSealed[m]);
      MatchAppend(h, b.ecSealed[..m], b.ecSealed[m]);
    }
  }

  lemma RecordMeans(h: Hashing, b: Back, m: nat)
    requires |b.ecSealed| == |b.aSealed| == |b.fSealed| == |b.dBlocks| && m < |b.dBlocks| && RecordedAt(h, b, m)
    ensures ECBlock.HeaderMatches(h, b.ecSealed[m]) && |b.ecSealed[m].header.expansion| < TWO_64
    ensures CameAs(h, b.ecSealed[m], ECBlock.HeaderHash(h, b.ecSealed[m]))
    ensures ECKeys(b.dBlocks[m].entries) == [ECBlock.HeaderHash(h, b.ecSealed[m])]
    ensures AdminBlock.Consistent(b.aSealed[m]) && b.aSealed[m].header.dbHeight == m
    ensures Heads(h, b.dBlocks[m], b.aSealed[m], b.ecSealed[m], b.fSealed[m])
  {
    hide Heads, ECBlock.HeaderHash, ECKeys, AdminBlock.Consistent, ECBlock.Built;
    HeadsKeys(h, b.dBlocks[m], b.aSealed[m], b.ecSealed[m], b.fSealed[m]);
  }

  lemma ServerListsOverRun(env: Env, states: seq<State>, steps: seq<Step>, i: nat)
    requires IsRun(env, states, steps) && i < |states| && Boot(env, states[0])
    ensures ServerLists(env.h, states[i].back)
  {
    hide *;
    var b, loaded := states[i].back, states[0].front.chains.Keys;
    BootInv(env, states[0]);
    RunKeepsInv(env, loaded, states, steps, i);
    InvBackMeans(env, loaded, states[i]);
    TablesMean(env.h, b);
    RecordedLists(env.h, b, |b.dBlocks|);
    assert b.dBlocks[..|b.dBlocks|] == b.dBlocks && b.ecSealed[..|b.dBlocks|] == b.ecSealed;
    ListsByParts(env.h, b);
  }

  lemma ListsByParts(h: Hashing, b: Back)
    requires Answers(h, AllECKeys(b.dBlocks), b.ecSealed) && AllMatch(h, b.ecSealed)
    ensures ServerLists(h, b)
  {
    hide Answers, AllECKeys, AllMatch;
  }

  // ---------------------------------------------------------------- the client's side

  /** The stored directory blocks by height. */
  function DirSeq(d: Disk): seq<DirectoryBlock.Block>
    requires d.height >= -1 && forall k :: 0 <= k <= d.height ==> k in d.dBlocks
  {
    seq(d.height + 1, i requires 0 <= i <= d.height => d.dBlocks[i])
  }

  ghost predicate ClientLists(h: Hashing, c: ClientState) {
    c.phase.Dead? || (GapFree(c.disk) && Answers(h, AllECKeys(DirSeq(c.disk)), c.disk.ecStored))
  }

  lemma {:induction false} PartsStoreListed(h: Hashing, pool: Pool, d: Disk, es: seq<DirectoryBlock.DBEntry>,
                                            keys: seq<Digest>)
    requires WellKeyed(h, pool) && Answers(h, keys, d.ecStored)
    ensures var (e, ok) := StoreParts(h, pool, d, es);
      ok ==> Answers(h, keys + ECKeys(es), e.ecStored)
    decreases |es|
  {
    hide WellKeyed, StorePart, Answers;
    if es == [] {
      assert keys + ECKeys(es) == keys;
    } else {
      var n := |es| - 1;
      PartsStoreListed(h, pool, d, es[..n], keys);
      var (m, ok) := StoreParts(h, pool, d, es[..n]);
      if ok {
        PartStoresListed(h, pool, m, es[n], keys + ECKeys(es[..n]));
        if es[n].chainID == EC_CHAINID {
          assert keys + ECKeys(es) == keys + ECKeys(es[..n]) + [es[n].keyMR];
        } else {
          assert ECKeys(es) == ECKeys(es[..n]);
        }
      }
    }
  }

  lemma PartStoresListed(h: Hashing, pool: Pool, d: Disk, e: DirectoryBlock.DBEntry, keys: seq<Digest>)
    requires WellKeyed(h, pool) && Answers(h, keys, d.ecStored)
    ensures var (d', ok) := StorePart(h, pool, d, e);
      ok ==> Answers(h, if e.chainID == EC_CHAINID then keys + [e.keyMR] else keys, d'.ecStored)
  {
    hide Answers, ECBlock.HeaderHash, ECBlock.Built, ECBlock.Sizable, AdminBlock.PartialHash, EBlock.KeyMR, Replay,
      StoreEBlock, InsertEntries,
      AdminBlock.Consistent, EBlock.Built;
    ChainIDsDiffer();
    var key := ByHash(e.keyMR);
    if key in pool && e.chainID == EC_CHAINID && pool[key].ECMsg? {
      assert MsgRight(h, key, pool[key]);
      assert CameAs(h, pool[key].ec, e.keyMR);
      AnswersAppend(h, keys, d.ecStored, e.keyMR, pool[key].ec);
    }
  }

  lemma SaveKeepsLists(h: Hashing, c: ClientState)
    requires SyncInv(h, c) && c.phase.Checked? && ClientLists(h, c) && SyncInv(h, OnSave(h, c))
    ensures ClientLists(h, OnSave(h, c))
  {
    hide Answers, WellKeyed, Keeps, StoreParts, ReplayBlocks, ECKeys, AllAtHand;
    var b := c.phase.b;
    PartsStoreListed(h, c.pool, c.disk, b.entries, AllECKeys(DirSeq(c.disk)));
    var (e, ok) := StoreParts(h, c.pool, c.disk, b.entries);
    PartsKeepDirs(h, c.pool, c.disk, b.entries);
    if ok {
      var d := OnSave(h, c).disk;
      assert DirSeq(d) == DirSeq(c.disk) + [b];
      assert DirSeq(d)[..|DirSeq(c.disk)|] == DirSeq(c.disk);
    }
  }

  lemma {:induction false} PartsKeepDirs(h: Hashing, pool: Pool, d: Disk, es: seq<DirectoryBlock.DBEntry>)
    ensures var e := StoreParts(h, pool, d, es).0; e.dBlocks == d.dBlocks && e.height == d.height
    decreases |es|
  {
    hide ECBlock.HeaderHash, ECBlock.Built, ECBlock.Sizable, AdminBlock.PartialHash, Replay, StoreEBlock,
      InsertEntries, AdminBlock.Consistent;
    if es != [] {
      PartsKeepDirs(h, pool, d, es[..|es| - 1]);
    }
  }

  lemma StepKeepsClientLists(h: Hashing, t: Trust, c: ClientState, step: ClientStep)
    requires SyncInv(h, c) && CanDo(h, c, step) && ClientLists(h, c) && SyncInv(h, Do(h, t, c, step))
    ensures ClientLists(h, Do(h, t, c, step))
  {
    if step.Save? {
      SaveKeepsLists(h, c);
    } else {
      OthersKeepDisk(h, t, c, step);
      hide SyncInv, Do, Answers, AllECKeys;
    }
  }

  lemma OthersKeepDisk(h: Hashing, t: Trust, c: ClientState, step: ClientStep)
    requires CanDo(h, c, step) && !step.Save?
    ensures Do(h, t, c, step).disk == c.disk && (c.phase.Dead? ==> Do(h, t, c, step).phase.Dead?)
  {
    hide OwnKey, BlockAnswer, DeleteBlock, AddBlockMsg, Decoded;
  }

  lemma {:induction false} ClientListsOverRun(h: Hashing, t: Trust, states: seq<ClientState>, steps: seq<ClientStep>,
                                              i: nat)
    requires IsSync(h, t, states, steps) && i < |states| && SyncInv(h, states[0]) && ClientLists(h, states[0])
    ensures ClientLists(h, states[i]) || SwapIn(h, states, steps)
    decreases i
  {
    hide SyncInv, CanDo, Do, SwapIn, ClientLists;
    SyncClosure(h, t, states, steps, i);
    if i > 0 && !SwapIn(h, states, steps) {
      ClientListsOverRun(h, t, states, steps, i - 1);
      SyncClosure(h, t, states, steps, i - 1);
      StepKeepsClientLists(h, t, states[i - 1], steps[i - 1]);
    }
  }

  // ---------------------------------------------------------------- one key, one block

  function ECInputs(ec: ECBlock.Block): set<Bytes>
    requires ECBlock.Sizable(ec)
  {
    {ECBlock.MarshalHeader(ec.header), ECBlock.MarshalBody(ec.body)}
  }

  function AllECInputs(ecs: seq<ECBlock.Block>): set<Bytes>
    requires forall i :: 0 <= i < |ecs| ==> ECBlock.Sizable(ecs[i])
  {
    set i, x | 0 <= i < |ecs| && x in ECInputs(ecs[i]) :: x
  }

  lemma EqualHeaderHash(h: Hashing, a: ECBlock.Block, b: ECBlock.Block)
    requires ECBlock.HeaderMatches(h, a) && ECBlock.HeaderMatches(h, b)
    requires ECBlock.HeaderHash(h, a) == ECBlock.HeaderHash(h, b)
    ensures a == b || CollisionBetween(h, ECInputs(a), ECInputs(b))
  {
    hide ECBlock.MarshalHeader, ECBlock.MarshalBody;
    var u, v := ECBlock.MarshalHeader(a.header), ECBlock.MarshalHeader(b.header);
    var x, y := ECBlock.MarshalBody(a.body), ECBlock.MarshalBody(b.body);
    assert u in ECInputs(a) && v in ECInputs(b) && x in ECInputs(a) && y in ECInputs(b);
    if u != v {
      assert Collides(h, u, v);
    } else {
      ECBlock.HeaderRoundTrip(a.header, []);
      ECBlock.HeaderRoundTrip(b.header, []);
      assert a.header == b.header;
      if x != y {
        assert Collides(h, x, y);
      } else {
        assert |a.body| == |b.body|;
        ECBlock.BodyRoundTrip(a.body, []);
        ECBlock.BodyRoundTrip(b.body, []);
      }
    }
  }

  lemma OneDifference(h: Hashing, keys: seq<Digest>, a: seq<ECBlock.Block>, b: seq<ECBlock.Block>, i: nat)
    requires (forall i :: 0 <= i < |a| ==> ECBlock.Sizable(a[i]))
    requires (forall i :: 0 <= i < |b| ==> ECBlock.Sizable(b[i]))
    requires i < |a| == |b| == |keys| && a[i] != b[i] && CameAs(h, a[i], keys[i]) && CameAs(h, b[i], keys[i])
    requires ECBlock.HeaderMatches(h, a[i]) && ECBlock.HeaderMatches(h, b[i])
    ensures ECBlocksCollide(h, a, b)
  {
    EqualHeaderHash(h, a[i], b[i]);
    hide ECBlock.HeaderHash, ECBlock.HeaderMatches, ECBlock.Sizable, ECInputs, CollisionBetween, CameAs;
    CollisionGrows(h, ECInputs(a[i]), ECInputs(b[i]), AllECInputs(a), AllECInputs(b));
  }

  lemma EqualAnswers(h: Hashing, keys: seq<Digest>, a: seq<ECBlock.Block>, b: seq<ECBlock.Block>)
    requires Answers(h, keys, a) && Answers(h, keys, b) && AllMatch(h, a) && AllMatch(h, b)
    ensures a == b || ECBlocksCollide(h, a, b)
  {
    AnswersSizable(h, keys, a);
    AnswersSizable(h, keys, b);
    hide ECBlock.HeaderMatches, ECBlock.Sizable, ECBlocksCollide, CameAs;
    if a != b {
      var i :| 0 <= i < |a| && a[i] != b[i];
      OneDifference(h, keys, a, b, i);
    }
  }

  lemma AnswersSizable(h: Hashing, keys: seq<Digest>, ecs: seq<ECBlock.Block>)
    requires Answers(h, keys, ecs)
    ensures forall i :: 0 <= i < |ecs| ==> ECBlock.Sizable(ecs[i])
  {
    hide ECBlock.Sizable, ECBlock.HeaderHash;
    forall i | 0 <= i < |ecs|
      ensures ECBlock.Sizable(ecs[i])
    {
      assert CameAs(h, ecs[i], keys[i]);
    }
  }

  ghost predicate ECBlocksCollide(h: Hashing, a: seq<ECBlock.Block>, b: seq<ECBlock.Block>) {
    && (forall i :: 0 <= i < |a| ==> ECBlock.Sizable(a[i])) && (forall i :: 0 <= i < |b| ==> ECBlock.Sizable(b[i]))
    && CollisionBetween(h, AllECInputs(a), AllECInputs(b))
  }

  // ---------------------------------------------------------------- the result

  /** A client with the server's directory chain has the server's balances, if the headers match: whenever
      a living client has stored exactly the directory blocks that the server has sealed, it has the
      server's entry credit blocks exactly if the header of each that it stored says what its body is;
      and then its balances are what the server's sealed blocks replay to, which right after a block are
      the server's live balances. The only other case is a hash collision, in the client's run or
      between the two sets of blocks. */
  lemma ClientHasServersBalances(env: Env, states: seq<State>, steps: seq<Step>, i: nat,
                                 t: Trust, clients: seq<ClientState>, moves: seq<ClientStep>, j: nat)
    requires IsRun(env, states, steps) && i < |states| && Boot(env, states[0])
    requires IsSync(env.h, t, clients, moves) && j < |clients| && SyncInv(env.h, clients[0])
    requires ClientLists(env.h, clients[0])
    requires !clients[j].phase.Dead? && GapFree(clients[j].disk) && DirSeq(clients[j].disk) == states[i].back.dBlocks
    ensures
      || SwapIn(env.h, clients, moves)
      || ECBlocksCollide(env.h, clients[j].disk.ecStored, states[i].back.ecSealed)
      || ((clients[j].disk.ecStored == states[i].back.ecSealed
          <==> AllMatch(env.h, clients[j].disk.ecStored)) && (AllMatch(env.h, clients[j].disk.ecStored) ==>
                && clients[j].disk.credits == ReplayBlocks(states[i].back.ecSealed)
                && (i > 0 && steps[i - 1].Close? ==> clients[j].disk.credits == states[i].front.credits)))
  {
    hide *;
    ServerListsOverRun(env, states, steps, i);
    ClientListsOverRun(env.h, t, clients, moves, j);
    SyncClosure(env.h, t, clients, moves, j);
    LedgerRefinement(env, states, steps, i);
    if !SwapIn(env.h, clients, moves) {
      SameListsSameBlocks(env.h, clients[j], states[i].back);
    }
  }

  lemma SameListsSameBlocks(h: Hashing, c: ClientState, b: Back)
    requires SyncInv(h, c) && ClientLists(h, c) && ServerLists(h, b)
    requires !c.phase.Dead? && GapFree(c.disk) && DirSeq(c.disk) == b.dBlocks
    ensures c.disk.credits == ReplayBlocks(c.disk.ecStored)
    ensures ECBlocksCollide(h, c.disk.ecStored, b.ecSealed)
        || (c.disk.ecStored == b.ecSealed <==> AllMatch(h, c.disk.ecStored))
  {
    var keys := AllECKeys(b.dBlocks);
    assert Answers(h, keys, c.disk.ecStored) && Answers(h, keys, b.ecSealed);
    hide Answers, ReplayBlocks, AllECInputs, CollisionBetween, AllMatch, ECBlocksCollide, WellKeyed, Keeps;
    if AllMatch(h, c.disk.ecStored) {
      EqualAnswers(h, keys, c.disk.ecStored, b.ecSealed);
    }
  }

  /** Why the headers have to match: next to the block that the server made, another body of as many
      records under the same header comes under the same key and is read without complaint; it is the
      server's exactly if its header matches, unless the two bodies collide. */
  lemma OtherBody(h: Hashing, ec: ECBlock.Block, body: seq<ECBlock.ECEntry>)
    requires ECBlock.HeaderMatches(h, ec) && |body| == |ec.body| && ECBlock.Sizable(ECBlock.Block(ec.header, body))
    ensures |ec.header.expansion| < TWO_64
    ensures var other := ECBlock.Block(ec.header, body);
      && CameAs(h, other, ECBlock.HeaderHash(h, ec))
      && ECBlock.Unmarshal(ECBlock.MarshalHeader(ec.header) + ECBlock.MarshalBody(body)) == Ok((other, []))
      && (ECBlocksCollide(h, [other], [ec]) || (ECBlock.HeaderMatches(h, other) <==> other == ec))
  {
    hide *;
    HeaderCounts(h, ec, body);
    OtherIsRead(h, ec, body);
    var other, key := ECBlock.Block(ec.header, body), ECBlock.HeaderHash(h, ec);
    if ECBlock.HeaderMatches(h, other) && other != ec {
      OneDifference(h, [key], [other], [ec], 0);
    }
  }

  lemma HeaderCounts(h: Hashing, ec: ECBlock.Block, body: seq<ECBlock.ECEntry>)
    requires ECBlock.HeaderMatches(h, ec) && ECBlock.Sizable(ECBlock.Block(ec.header, body))
    ensures |ec.header.expansion| < TWO_64 && ec.header.objectCount == |ec.body| && ECBlock.Sizable(ec)
    ensures CameAs(h, ec, ECBlock.HeaderHash(h, ec))
    ensures CameAs(h, ECBlock.Block(ec.header, body), ECBlock.HeaderHash(h, ec))
  {
    hide ECBlock.MarshalHeader, ECBlock.MarshalBody;
  }

  lemma OtherIsRead(h: Hashing, ec: ECBlock.Block, body: seq<ECBlock.ECEntry>)
    requires |ec.header.expansion| < TWO_64 && |body| == ec.header.objectCount
    ensures ECBlock.Unmarshal(ECBlock.MarshalHeader(ec.header) + ECBlock.MarshalBody(body))
        == Ok((ECBlock.Block(ec.header, body), []))
  {
    hide *;
    ECBlock.PartsRoundTrip(ec.header, body, []);
    assert ECBlock.MarshalBody(body) + [] == ECBlock.MarshalBody(body);
  }

  /** And the balances do differ: where the server's block has a minute marker, the other has a purchase
      of one credit. */
  lemma OtherBalances(h: Hashing, key: Digest)
    ensures var ec := ECBlock.NewECBlock().(body := [ECBlock.Minute(1)]);
      var body := [ECBlock.Increase(IncreaseBalance(key, ZERO_HASH, 0, 1))];
      && ECBlock.Sizable(ec) && |body| == |ec.body|
      && ReplayBlocks([ECBlock.Built(h, ec)]) != ReplayBlocks([ECBlock.Block(ECBlock.Built(h, ec).header, body)])
  {
    var ec := ECBlock.NewECBlock().(body := [ECBlock.Minute(1)]);
    var body := [ECBlock.Increase(IncreaseBalance(key, ZERO_HASH, 0, 1))];
    ShortBody();
    var a, b := ECBlock.Built(h, ec), ECBlock.Block(ECBlock.Built(h, ec).header, body);
    assert [a][..0] == [] && [b][..0] == [];
    assert ReplayBlocks([a]) == Replay(map[], a.body) && ReplayBlocks([b]) == Replay(map[], body);
    assert a.body[..0] == [] && body[..0] == [];
    assert key !in Replay(map[], a.body) && key in Replay(map[], body);
  }

  lemma ShortBody()
    ensures ECBlock.Sizable(ECBlock.NewECBlock().(body := [ECBlock.Minute(1)]))
  {
    assert ECBlock.MarshalBody([ECBlock.Minute(1)][1..]) == [];
  }

  /** Both start out right: a server and a client with nothing. */
  lemma BothStartEmpty(h: Hashing, b: Back)
    requires b.dBlocks == [] && b.ecSealed == []
    ensures ServerLists(h, b) && ClientLists(h, ClientState(map[], [], EmptyDisk(), Idle))
  {
  }

  // ---------------------------------------------------------------- acceptance

  /** The parts of directory block k are in the pool as the server stored them, and the entries of its
      entry blocks are there or already stored. */
  ghost predicate PartsServed(h: Hashing, b: Back, k: nat, pool: Pool, entries: map<Digest, Entry>)
    requires k < |b.dBlocks| == |b.aSealed|
  {
    forall j :: 0 <= j < |b.dBlocks[k].entries| ==> PartServed(h, b, k, pool, entries, b.dBlocks[k].entries[j])
  }

  ghost predicate PartServed(h: Hashing, b: Back, k: nat, pool: Pool, entries: map<Digest, Entry>,
      e: DirectoryBlock.DBEntry)
    requires k < |b.aSealed|
  {
    && ByHash(e.keyMR) in pool
    && (e.chainID == ADMIN_CHAINID ==> pool[ByHash(e.keyMR)] == AMsg(b.aSealed[k]))
    && (!OwnChain(e.chainID) ==>
        exists i :: 0 <= i < |b.eSealed| && BlockServed(b, i, pool, entries, pool[ByHash(e.keyMR)]))
  }

  predicate BlockServed(b: Back, i: nat, pool: Pool, entries: map<Digest, Entry>, m: PoolMsg)
    requires i < |b.eSealed|
  {
    && m == EMsg(b.eSealed[i])
    && forall n :: 0 <= n < |b.eSealed[i].body| && b.eSealed[i].body[n] in b.db.entries ==>
      ByHash(b.eSealed[i].body[n]) in pool || b.eSealed[i].body[n] in entries
  }

  /** The client has the block below in its slot, or has nothing below. */
  predicate PreviousThere(b: Back, k: nat, blocks: seq<Option<DirectoryBlock.Block>>)
    requires k < |b.dBlocks|
  {
    k > 0 ==> k <= |blocks| && blocks[k - 1] == Some(b.dBlocks[k - 1])
  }

  lemma SignatureAccepted(t: Trust, b: Back, k: nat, blocks: seq<Option<DirectoryBlock.Block>>)
    requires k < |b.dBlocks| && PreviousThere(b, k, blocks)
    requires k < |b.aSealed| && SignedBelow(t, b.dBlocks, k, b.aSealed[k]) && b.aSealed[k].header.dbHeight == k
    ensures SignatureAnswer(t, blocks, b.aSealed[k]) == Yes
  {
    hide SignatureAnswer, DirectoryBlock.MarshalHeader, Unsigned, SignsFor;
    AnswerMeans(t, blocks, b.aSealed[k]);
  }

  lemma PartAccepted(h: Hashing, t: Trust, b: Back, k: nat, pool: Pool, blocks: seq<Option<DirectoryBlock.Block>>,
                     entries: map<Digest, Entry>, e: DirectoryBlock.DBEntry)
    requires k < |b.aSealed| && PartServed(h, b, k, pool, entries, e) && SignatureAnswer(t, blocks, b.aSealed[k]) == Yes
    requires EntriesStored(b.eSealed, b.db.entries)
    ensures PartAnswer(t, pool, blocks, entries, e) == Yes
  {
    hide SignatureAnswer, EBlock.IsMinuteMarker;
    if !OwnChain(e.chainID) {
      var i :| 0 <= i < |b.eSealed| && BlockServed(b, i, pool, entries, pool[ByHash(e.keyMR)]);
      assert BodyStored(b.eSealed[i].body, b.db.entries);
      forall n | 0 <= n < |b.eSealed[i].body|
        ensures EntryAtHand(pool, entries, b.eSealed[i].body[n])
      {
      }
    }
  }

  lemma {:induction false} PartsAccepted(h: Hashing, t: Trust, b: Back, k: nat, pool: Pool,
      blocks: seq<Option<DirectoryBlock.Block>>, entries: map<Digest, Entry>, es: seq<DirectoryBlock.DBEntry>)
    requires k < |b.aSealed| && SignatureAnswer(t, blocks, b.aSealed[k]) == Yes
    requires EntriesStored(b.eSealed, b.db.entries)
    requires forall j :: 0 <= j < |es| ==> PartServed(h, b, k, pool, entries, es[j])
    ensures PartsAnswer(t, pool, blocks, entries, es) == Yes
    decreases |es|
  {
    hide SignatureAnswer, EntriesStored, PartServed, PartAnswer;
    if es != [] {
      var n := |es| - 1;
      assert forall j :: 0 <= j < n ==> es[..n][j] == es[j];
      PartsAccepted(h, t, b, k, pool, blocks, entries, es[..n]);
      PartAccepted(h, t, b, k, pool, blocks, entries, es[n]);
    }
  }

  lemma InvStored(env: Env, loaded: set<Digest>, s: State)
    requires Inv(env, loaded, s)
    ensures EntriesStored(s.back.eSealed, s.back.db.entries)
  {
    hide OpensRight, ChainsRight, BlocksCollide, AllListed, Recorded, FrontInv, TableRight,
      DirectoryBlock.Numbered, DirectoryBlock.Linked, Storable, StoreAll, EntriesStored;
  }

  lemma HonestAt(t: Trust, b: Back, k: nat)
    requires Honest(t, b) && k < |b.dBlocks|
    ensures |b.aSealed| == |b.dBlocks| && SignedBelow(t, b.dBlocks, k, b.aSealed[k])
  {
    hide SignedBelow, FactoidAt;
  }

  lemma ServedMeans(h: Hashing, b: Back, k: nat, pool: Pool, entries: map<Digest, Entry>, j: nat)
    requires k < |b.dBlocks| == |b.aSealed| && PartsServed(h, b, k, pool, entries) && j < |b.dBlocks[k].entries|
    ensures PartServed(h, b, k, pool, entries, b.dBlocks[k].entries[j])
  {
    hide PartServed;
  }

  lemma AcceptedIn(env: Env, loaded: set<Digest>, t: Trust, s: State, k: nat, pool: Pool,
      blocks: seq<Option<DirectoryBlock.Block>>,
                   entries: map<Digest, Entry>)
    requires Inv(env, loaded, s) && Honest(t, s.back) && k < |s.back.dBlocks| == |s.back.aSealed|
    requires k == 0 ==> t.genesis == DirectoryBlock.DBHash(env.h, s.back.dBlocks[0])
    requires PartsServed(env.h, s.back, k, pool, entries) && PreviousThere(s.back, k, blocks)
    ensures BlockAnswer(env.h, t, pool, blocks, entries, s.back.dBlocks[k]) == Yes
  {
    hide *;
    InvBackMeans(env, loaded, s);
    InvStored(env, loaded, s);
    TablesMean(env.h, s.back);
    HonestAt(t, s.back, k);
    SignatureAccepted(t, s.back, k, blocks);
    forall j | 0 <= j < |s.back.dBlocks[k].entries|
      ensures PartServed(env.h, s.back, k, pool, entries, s.back.dBlocks[k].entries[j])
    {
      ServedMeans(env.h, s.back, k, pool, entries, j);
    }
    PartsAccepted(env.h, t, s.back, k, pool, blocks, entries, s.back.dBlocks[k].entries);
    NumberedAt(s.back.dBlocks, k);
    AnswerByParts(env.h, t, pool, blocks, entries, s.back.dBlocks[k]);
  }

  /** Acceptance: a client that trusts the server's key finds every directory block of every server run
      in order, once all its parts are in the pool as the server stored them and the block below is in its
      slot; block 0 if it is the one expected. */
  lemma ServersBlockIsAccepted(env: Env, t: Trust, states: seq<State>, steps: seq<Step>, i: nat, k: nat,
                               pool: Pool, blocks: seq<Option<DirectoryBlock.Block>>, entries: map<Digest, Entry>)
    requires IsRun(env, states, steps) && i < |states| && Boot(env, states[0]) && Honest(t, states[0].back)
    requires forall n :: 0 <= n < i ==> StepHonest(t, states[n], steps[n])
    requires k < |states[i].back.dBlocks| == |states[i].back.aSealed|
    requires k == 0 ==> t.genesis == DirectoryBlock.DBHash(env.h, states[i].back.dBlocks[0])
    requires PartsServed(env.h, states[i].back, k, pool, entries) && PreviousThere(states[i].back, k, blocks)
    ensures BlockAnswer(env.h, t, pool, blocks, entries, states[i].back.dBlocks[k]) == Yes
  {
    hide *;
    BootInv(env, states[0]);
    RunKeepsInv(env, states[0].front.chains.Keys, states, steps, i);
    RunKeepsHonest(env, t, states, steps, i);
    AcceptedIn(env, states[0].front.chains.Keys, t, states[i], k, pool, blocks, entries);
  }

  lemma NumberedAt(blocks: seq<DirectoryBlock.Block>, k: nat)
    requires DirectoryBlock.Numbered(blocks) && k < |blocks|
    ensures blocks[k].header.dbHeight == k
  {
  }

  lemma AnswerByParts(h: Hashing, t: Trust, pool: Pool, blocks: seq<Option<DirectoryBlock.Block>>, entries: map<Digest,
      Entry>,
                      b: DirectoryBlock.Block)
    requires PartsAnswer(t, pool, blocks, entries, b.entries) == Yes
    requires b.header.dbHeight == 0 ==> t.genesis == DirectoryBlock.DBHash(h, b)
    ensures BlockAnswer(h, t, pool, blocks, entries, b) == Yes
  {
    hide PartsAnswer, DirectoryBlock.DBHash;
  }
}
