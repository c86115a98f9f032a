/** The check of the whole directory chain at start-up (process/init.go, validateDChain), and the
    agreement of the builder with it. */
module Validator {
  import opened Basics
  import opened Entries
  import opened EntryStore
  import opened Builder
  import opened Server
  import opened ServerBlocks
  import opened CloseProofs
  import opened Runs
  import opened Ledger
  import EBlock
  import DirectoryBlock

  /** `Panics` are the run-time panics of the check itself; the server also stops on `Invalid`. */
  datatype Verdict = Valid | Invalid | Panics

  // ---------------------------------------------------------------- one block

  /** process/init.go:467-495. A stored entry block without entries has no Merkle root. */
  function EBlockVerdict(h: Hashing, db: Db, mr: Digest): Verdict {
    if mr !in db.eTables.mr || db.eTables.mr[mr] !in db.eTables.eb then Invalid
    else
      var eb := db.eTables.eb[db.eTables.mr[mr]];
      if eb.body == [] then Panics
      else if EBlock.KeyMR(h, eb) != mr then Invalid
      else if BodyStored(eb.body, db.entries) then Valid
      else Invalid
  }

  /** process/init.go:394-418 with the checks of 426-464. */
  function EntryVerdict(h: Hashing, db: Db, e: DirectoryBlock.DBEntry): Verdict {
    if e.chainID == EC_CHAINID then (if e.keyMR in db.ecBlocks then Valid else Invalid)
    else if e.chainID == ADMIN_CHAINID then (if e.keyMR in db.aBlocks then Valid else Invalid)
    else if e.chainID == FACTOID_CHAINID then
      (if e.keyMR in db.fBlocks && db.fBlocks[e.keyMR].keyMR == e.keyMR then Valid else Invalid)
    else EBlockVerdict(h, db, e.keyMR)
  }

  /** The first entry that fails decides. */
  function EntriesVerdict(h: Hashing, db: Db, es: seq<DirectoryBlock.DBEntry>): Verdict {
    if es == [] then Valid
    else
      var before := EntriesVerdict(h, db, es[..|es| - 1]);
      if before != Valid then before else EntryVerdict(h, db, es[|es| - 1])
  }

  function DBlockVerdict(h: Hashing, db: Db, b: DirectoryBlock.Block): Verdict {
    if b.header.bodyMR != DirectoryBlock.BodyMR(h, b.entries) then Invalid else EntriesVerdict(h, db, b.entries)
  }

  /** Blocks 0 to k of the chain, in the order of process/init.go:336-377. */
  function UpTo(h: Hashing, db: Db, genesis: Digest, blocks: seq<DirectoryBlock.Block>, k: nat): Verdict
    requires k < |blocks|
  {
    if k == 0 then
      var first := DBlockVerdict(h, db, blocks[0]);
      if first != Valid then first else if DirectoryBlock.DBHash(h, blocks[0]) != genesis then Panics else Valid
    else
      var before := UpTo(h, db, genesis, blocks, k - 1);
      if before != Valid then before
      else if DirectoryBlock.DBHash(h, blocks[k - 1]) != blocks[k].header.prevLedgerKeyMR then Invalid
      else if DirectoryBlock.KeyMR(h, blocks[k - 1]) != blocks[k].header.prevKeyMR then Invalid
      else DBlockVerdict(h, db, blocks[k])
  }

  /** process/init.go:325-380 on a server, for which the empty chain has no block 0 to look at. */
  function ChainVerdict(h: Hashing, db: Db, genesis: Digest, blocks: seq<DirectoryBlock.Block>,
                        nextDBHeight: nat): Verdict {
    if |blocks| != nextDBHeight then Invalid
    else if blocks == [] then Panics
    else UpTo(h, db, genesis, blocks, |blocks| - 1)
  }

  // ---------------------------------------------------------------- the loops

  /** process/init.go:467-495 */
  method ValidateEBlockByMR(h: Hashing, db: Db, mr: Digest) returns (v: Verdict)
    ensures v == EBlockVerdict(h, db, mr)
  {
    hide EBlock.KeyMR, EBlock.IsMinuteMarker;
    if mr !in db.eTables.mr || db.eTables.mr[mr] !in db.eTables.eb {
      return Invalid;
    }
    var eb := db.eTables.eb[db.eTables.mr[mr]];
    if eb.body == [] {
      return Panics;
    }
    if mr != EBlock.KeyMR(h, eb) {
      return Invalid;
    }
    for k := 0 to |eb.body|
      invariant BodyStored(eb.body[..k], db.entries)
    {
      assert eb.body[..k + 1] == eb.body[..k] + [eb.body[k]];
      if !EBlock.IsMinuteMarker(eb.body[k]) && eb.body[k] !in db.entries {
        return Invalid;
      }
    }
    assert eb.body[..|eb.body|] == eb.body;
    return Valid;
  }

  /** process/init.go:383-423 */
  method ValidateDBlock(h: Hashing, db: Db, b: DirectoryBlock.Block) returns (v: Verdict, keyMR: Digest, dbHash: Digest)
    ensures v == DBlockVerdict(h, db, b)
    ensures v.Valid? ==> keyMR == DirectoryBlock.KeyMR(h, b) && dbHash == DirectoryBlock.DBHash(h, b)
  {
    keyMR, dbHash := ZERO_HASH, ZERO_HASH;
    if b.header.bodyMR != DirectoryBlock.BodyMR(h, b.entries) {
      return Invalid, keyMR, dbHash;
    }
    for i := 0 to |b.entries|
      invariant EntriesVerdict(h, db, b.entries[..i]) == Valid
    {
      var e := b.entries[i];
      assert b.entries[..i + 1][..i] == b.entries[..i];
      if e.chainID == EC_CHAINID {
        v := if e.keyMR in db.ecBlocks then Valid else Invalid;
      } else if e.chainID == ADMIN_CHAINID {
        v := if e.keyMR in db.aBlocks then Valid else Invalid;
      } else if e.chainID == FACTOID_CHAINID {
        v := if e.keyMR in db.fBlocks && db.fBlocks[e.keyMR].keyMR == e.keyMR then Valid else Invalid;
      } else {
        v := ValidateEBlockByMR(h, db, e.keyMR);
      }
      if v != Valid {
        FirstFailureDecides(h, db, b.entries, i);
        return v, keyMR, dbHash;
      }
    }
    assert b.entries[..|b.entries|] == b.entries;
    return Valid, DirectoryBlock.KeyMR(h, b), DirectoryBlock.DBHash(h, b);
  }

  lemma {:induction false} FirstFailureDecides(h: Hashing, db: Db, es: seq<DirectoryBlock.DBEntry>, i: nat)
    requires i < |es| && EntriesVerdict(h, db, es[..i]) == Valid && EntryVerdict(h, db, es[i]) != Valid
    ensures EntriesVerdict(h, db, es) == EntryVerdict(h, db, es[i])
    decreases |es|
  {
    hide EntryVerdict;
    if i < |es| - 1 {
      assert es[..|es| - 1][..i] == es[..i];
      FirstFailureDecides(h, db, es[..|es| - 1], i);
    }
  }

  lemma {:induction false} FirstBadBlockDecides(h: Hashing, db: Db, genesis: Digest,
                                                blocks: seq<DirectoryBlock.Block>, i: nat, k: nat)
    requires i <= k < |blocks| && UpTo(h, db, genesis, blocks, i) != Valid
    ensures UpTo(h, db, genesis, blocks, k) == UpTo(h, db, genesis, blocks, i)
    decreases k
  {
    hide DBlockVerdict, DirectoryBlock.KeyMR, DirectoryBlock.DBHash;
    if i < k {
      FirstBadBlockDecides(h, db, genesis, blocks, i, k - 1);
    }
  }

  /** process/init.go:325-380 */
  method ValidateDChain(h: Hashing, db: Db, genesis: Digest, blocks: seq<DirectoryBlock.Block>,
                        nextDBHeight: nat) returns (v: Verdict)
    ensures v == ChainVerdict(h, db, genesis, blocks, nextDBHeight)
  {
    hide DBlockVerdict, DirectoryBlock.KeyMR, DirectoryBlock.DBHash;
    if |blocks| != nextDBHeight {
      return Invalid;
    }
    if blocks == [] {
      return Panics;
    }
    var prevMR, prevBlkHash;
    v, prevMR, prevBlkHash := ValidateDBlock(h, db, blocks[0]);
    if v == Valid && prevBlkHash != genesis {
      v := Panics;
    }
    if v != Valid {
      FirstBadBlockDecides(h, db, genesis, blocks, 0, |blocks| - 1);
      return;
    }
    for i := 1 to |blocks|
      invariant UpTo(h, db, genesis, blocks, i - 1) == Valid
      invariant prevMR == DirectoryBlock.KeyMR(h, blocks[i - 1]) && prevBlkHash == DirectoryBlock.DBHash(h, blocks[i - 1])
    {
      if prevBlkHash != blocks[i].header.prevLedgerKeyMR || prevMR != blocks[i].header.prevKeyMR {
        FirstBadBlockDecides(h, db, genesis, blocks, i, |blocks| - 1);
        return Invalid;
      }
      v, prevMR, prevBlkHash := ValidateDBlock(h, db, blocks[i]);
      if v != Valid {
        FirstBadBlockDecides(h, db, genesis, blocks, i, |blocks| - 1);
        return;
      }
    }
    return Valid;
  }

  // ---------------------------------------------------------------- what a valid chain is

  /** Everything the block lists is in the database, under the key it is listed by. */
  predicate Backed(h: Hashing, db: Db, b: DirectoryBlock.Block) {
    forall j :: 0 <= j < |b.entries| ==> EntryBacked(h, db, b.entries[j])
  }

  /** The entry credit or admin block is stored under its key, the factoid block too and reports it, and the
      entry block that the key leads to is not empty, has that key, and names only stored entries and markers. */
  predicate EntryBacked(h: Hashing, db: Db, e: DirectoryBlock.DBEntry) {
    && (e.chainID == EC_CHAINID ==> e.keyMR in db.ecBlocks)
    && (e.chainID == ADMIN_CHAINID ==> e.keyMR in db.aBlocks)
    && (e.chainID == FACTOID_CHAINID ==> e.keyMR in db.fBlocks && db.fBlocks[e.keyMR].keyMR == e.keyMR)
    && (e.chainID !in {EC_CHAINID, ADMIN_CHAINID, FACTOID_CHAINID} ==>
          && e.keyMR in db.eTables.mr && db.eTables.mr[e.keyMR] in db.eTables.eb
          && EBlockBacked(h, db, db.eTables.eb[db.eTables.mr[e.keyMR]], e.keyMR))
  }

  predicate EBlockBacked(h: Hashing, db: Db, eb: EBlock.Block, key: Digest) {
    && eb.body != [] && EBlock.KeyMR(h, eb) == key
    && forall k :: 0 <= k < |eb.body| ==> eb.body[k] in db.entries || eb.body[k][..31] == Zeros(31)
  }

  lemma BodyStoredMeans(body: seq<Digest>, entries: map<Digest, Entry>)
    ensures BodyStored(body, entries)
        <==> forall k :: 0 <= k < |body| ==> body[k] in entries || body[k][..31] == Zeros(31)
  {
  }

  lemma VerdictMeans(h: Hashing, db: Db, e: DirectoryBlock.DBEntry)
    ensures EntryVerdict(h, db, e) == Valid <==> EntryBacked(h, db, e)
  {
    hide EBlock.KeyMR, BodyStored;
    ChainIDsDiffer();
    if e.keyMR in db.eTables.mr && db.eTables.mr[e.keyMR] in db.eTables.eb {
      BodyStoredMeans(db.eTables.eb[db.eTables.mr[e.keyMR]].body, db.entries);
    }
  }

  lemma {:induction false} EntriesValid(h: Hashing, db: Db, es: seq<DirectoryBlock.DBEntry>)
    ensures EntriesVerdict(h, db, es) == Valid <==> forall j :: 0 <= j < |es| ==> EntryBacked(h, db, es[j])
    decreases |es|
  {
    hide EntryVerdict, EntryBacked;
    if es != [] {
      var n := |es| - 1;
      EntriesValid(h, db, es[..n]);
      VerdictMeans(h, db, es[n]);
      assert forall j :: 0 <= j < n ==> es[..n][j] == es[j];
    }
  }

  lemma BlockValid(h: Hashing, db: Db, b: DirectoryBlock.Block)
    ensures DBlockVerdict(h, db, b) == Valid
        <==> b.header.bodyMR == DirectoryBlock.BodyMR(h, b.entries) && Backed(h, db, b)
  {
    hide EntriesVerdict, EntryBacked, DirectoryBlock.BodyMR;
    EntriesValid(h, db, b.entries);
  }

  lemma {:induction false} UpToValid(h: Hashing, db: Db, genesis: Digest, blocks: seq<DirectoryBlock.Block>, k: nat)
    requires k < |blocks|
    ensures UpTo(h, db, genesis, blocks, k) == Valid
       <==> (DirectoryBlock.DBHash(h, blocks[0]) == genesis
             && forall i :: 0 <= i <= k ==> DirectoryBlock.LinkedAt(h, blocks, i) && Backed(h, db, blocks[i]))
  {
    hide DBlockVerdict, Backed, DirectoryBlock.KeyMR, DirectoryBlock.DBHash, DirectoryBlock.BodyMR;
    BlockValid(h, db, blocks[k]);
    if k > 0 {
      UpToValid(h, db, genesis, blocks, k - 1);
    }
  }

  /** What validation establishes: the chain that HistoryBinding speaks about, fully backed. */
  lemma ValidMeans(h: Hashing, db: Db, genesis: Digest, blocks: seq<DirectoryBlock.Block>, nextDBHeight: nat)
    ensures ChainVerdict(h, db, genesis, blocks, nextDBHeight) == Valid
       <==> (|blocks| == nextDBHeight > 0 && DirectoryBlock.DBHash(h, blocks[0]) == genesis
           && DirectoryBlock.Linked(h, blocks)
             && forall i :: 0 <= i < |blocks| ==> Backed(h, db, blocks[i]))
  {
    hide Backed, UpTo, DirectoryBlock.LinkedAt, DirectoryBlock.DBHash;
    if |blocks| == nextDBHeight && blocks != [] {
      UpToValid(h, db, genesis, blocks, |blocks| - 1);
    }
  }

  /** What validation is for: two nodes whose loaded chains pass it, with whatever databases, and whose
      newest blocks have one key Merkle root, hold the same history, or two strings that they hashed
      collide. */
  lemma ValidatedHistoriesAgree(h: Hashing, dbA: Db, dbB: Db, genesisA: Digest, genesisB: Digest,
                                a: seq<DirectoryBlock.Block>, b: seq<DirectoryBlock.Block>)
    requires ChainVerdict(h, dbA, genesisA, a, |a|) == Valid && ChainVerdict(h, dbB, genesisB, b, |b|) == Valid
    requires DirectoryBlock.Numbered(a) && DirectoryBlock.Numbered(b)
    requires a != [] && b != [] && DirectoryBlock.KeyMR(h, a[|a| - 1]) == DirectoryBlock.KeyMR(h, b[|b| - 1])
    ensures (a == b && genesisA == genesisB)
      || CollisionBetween(h, DirectoryBlock.ChainInputs(h, a), DirectoryBlock.ChainInputs(h, b))
  {
    hide DirectoryBlock.KeyMR, DirectoryBlock.DBHash, DirectoryBlock.Linked, DirectoryBlock.Numbered,
      DirectoryBlock.ChainInputs, Backed, ChainVerdict;
    ValidMeans(h, dbA, genesisA, a, |a|);
    ValidMeans(h, dbB, genesisB, b, |b|);
    DirectoryBlock.HistoryBinding(h, a, b);
  }

  // ---------------------------------------------------------------- the builder meets the validator

  /** The key table leads from a stored block's key to a stored block with that key. */
  lemma {:induction false} KeyLeadsHome(h: Hashing, bs: seq<EBlock.Block>, j: nat)
    requires Storable(h, bs) && j < |bs|
    ensures EBlock.KeyMR(h, bs[j]) in StoreAll(h, bs).mr
    ensures exists i ::
      (0 <= i < |bs| && EBlock.KeyMR(h, bs[i]) == EBlock.KeyMR(h, bs[j])
       && StoreAll(h, bs).mr[EBlock.KeyMR(h, bs[j])] == EBlock.FullHash(h, bs[i]))
    decreases |bs|
  {
    hide EBlock.KeyMR, EBlock.FullHash, EBlock.Built, Put, Key;
    var n := |bs| - 1;
    var prev := bs[..n];
    if EBlock.KeyMR(h, bs[j]) == EBlock.KeyMR(h, bs[n]) {
      assert StoreAll(h, bs).mr[EBlock.KeyMR(h, bs[j])] == EBlock.FullHash(h, bs[n]);
    } else {
      assert prev[j] == bs[j];
      KeyLeadsHome(h, prev, j);
      var i :| 0 <= i < |prev| && EBlock.KeyMR(h, prev[i]) == EBlock.KeyMR(h, prev[j])
        && StoreAll(h, prev).mr[EBlock.KeyMR(h, prev[j])] == EBlock.FullHash(h, prev[i]);
      assert bs[i] == prev[i];
    }
  }

  /** The entry tables hold the blocks stored so far and every entry they name. */
  predicate Stocked(h: Hashing, db: Db, eSealed: seq<EBlock.Block>) {
    Storable(h, eSealed) && db.eTables == StoreAll(h, eSealed) && EntriesStored(eSealed, db.entries)
  }

  lemma StoredEBlockIsValid(h: Hashing, db: Db, bs: seq<EBlock.Block>, j: nat)
    requires Stocked(h, db, bs) && j < |bs| && !BlocksCollide(h, bs)
    ensures bs[j].body != [] && EBlockVerdict(h, db, EBlock.KeyMR(h, bs[j])) == Valid
  {
    hide EBlock.KeyMR, EBlock.FullHash, EBlock.Built, StoreAll, BodyStored, CollisionBetween, StoredInputs;
    KeyLeadsHome(h, bs, j);
    var i :| 0 <= i < |bs| && EBlock.KeyMR(h, bs[i]) == EBlock.KeyMR(h, bs[j])
      && StoreAll(h, bs).mr[EBlock.KeyMR(h, bs[j])] == EBlock.FullHash(h, bs[i]);
    StoredBlockIsFound(h, bs, i);
    assert BodyStored(bs[i].body, db.entries);
  }

  /** The one thing the builder cannot see to: that each listed factoid block, when read back, reports
      the key it is listed by. */
  predicate FactoidsHonest(b: Back) {
    forall i, j :: 0 <= i < |b.dBlocks| && 0 <= j < |b.dBlocks[i].entries| && b.dBlocks[i].entries[j].chainID == FACTOID_CHAINID ==>
      FactoidHonest(b.db, b.dBlocks[i].entries[j].keyMR)
  }

  predicate FactoidHonest(db: Db, key: Digest) {
    key in db.fBlocks && db.fBlocks[key].keyMR == key
  }

  /** What is listed and stored passes its check, unless it is a factoid block under a foreign key. */
  lemma ListedIsBacked(h: Hashing, db: Db, bs: seq<EBlock.Block>, e: DirectoryBlock.DBEntry)
    requires Stocked(h, db, bs) && Listed(h, db, bs, e) && !BlocksCollide(h, bs)
    ensures EntryVerdict(h, db, e) == Valid <==> (e.chainID == FACTOID_CHAINID ==> FactoidHonest(db, e.keyMR))
  {
    ChainIDsDiffer();
    hide Stocked, EBlock.KeyMR, EBlockVerdict, BlocksCollide;
    if e.chainID != EC_CHAINID && e.chainID != ADMIN_CHAINID && e.chainID != FACTOID_CHAINID {
      var j :| 0 <= j < |bs| && bs[j].body != [] && EBlock.KeyMR(h, bs[j]) == e.keyMR;
      StoredEBlockIsValid(h, db, bs, j);
    }
  }

  lemma BuiltIsValid(h: Hashing, b: Back)
    requires Tidy(h, b) && AllListed(h, b) && b.dBlocks != [] && !BlocksCollide(h, b.eSealed)
    ensures ChainVerdict(h, b.db, DirectoryBlock.DBHash(h, b.dBlocks[0]), b.dBlocks, b.nextDBHeight) == Valid
        <==> FactoidsHonest(b)
  {
    assert |b.dBlocks| == b.nextDBHeight && DirectoryBlock.Linked(h, b.dBlocks) && Stocked(h, b.db, b.eSealed);
    ValidMeans(h, b.db, DirectoryBlock.DBHash(h, b.dBlocks[0]), b.dBlocks, b.nextDBHeight);
    hide Tidy, Stocked, EntryVerdict, EntryBacked, Listed, BlocksCollide, ChainVerdict, DirectoryBlock.DBHash,
      DirectoryBlock.Linked, FactoidHonest;
    forall i, j | 0 <= i < |b.dBlocks| && 0 <= j < |b.dBlocks[i].entries|
      ensures EntryBacked(h, b.db, b.dBlocks[i].entries[j])
        <==> (b.dBlocks[i].entries[j].chainID == FACTOID_CHAINID ==> FactoidHonest(b.db, b.dBlocks[i].entries[j].keyMR))
    {
      assert Listed(h, b.db, b.eSealed, b.dBlocks[i].entries[j]);
      VerdictMeans(h, b.db, b.dBlocks[i].entries[j]);
      ListedIsBacked(h, b.db, b.eSealed, b.dBlocks[i].entries[j]);
    }
    if FactoidsHonest(b) {
      forall i | 0 <= i < |b.dBlocks|
        ensures Backed(h, b.db, b.dBlocks[i])
      {
      }
    } else {
      var i, j :| 0 <= i < |b.dBlocks| && 0 <= j < |b.dBlocks[i].entries|
          && b.dBlocks[i].entries[j].chainID == FACTOID_CHAINID
        && !FactoidHonest(b.db, b.dBlocks[i].entries[j].keyMR);
      assert !Backed(h, b.db, b.dBlocks[i]);
    }
  }

  /** The chain passes the check, with its own first block as the expected one, exactly when the factoid blocks
      report the keys they are listed by; unless stored entry blocks collide. */
  ghost predicate Meets(h: Hashing, b: Back)
    requires b.dBlocks != []
  {
    || BlocksCollide(h, b.eSealed)
    || (ChainVerdict(h, b.db, DirectoryBlock.DBHash(h, b.dBlocks[0]), b.dBlocks, b.nextDBHeight) == Valid
        <==> FactoidsHonest(b))
  }

  lemma BuiltMeets(env: Env, loaded: set<Digest>, s: State)
    requires Inv(env, loaded, s) && s.back.dBlocks != []
    ensures Meets(env.h, s.back)
  {
    hide FrontInv, OpensRight, TableRight, ChainsRight, Recorded, AllListed, Tidy, BlocksCollide, ChainVerdict,
        FactoidsHonest;
    if !BlocksCollide(env.h, s.back.eSealed) {
      BuiltIsValid(env.h, s.back);
    }
  }

  /** Builder meets validator: the chain and database of every reachable state pass the start-up check
      exactly when the factoid blocks report the keys they are listed by, unless two stored entry
      blocks collide. The genesis hash is that of the run's own first block. */
  lemma BuilderMeetsValidator(env: Env, states: seq<State>, steps: seq<Step>, i: nat)
    requires IsRun(env, states, steps) && i < |states| && Boot(env, states[0]) && states[i].back.dBlocks != []
    ensures Meets(env.h, states[i].back)
  {
    hide *;
    BootInv(env, states[0]);
    RunKeepsInv(env, states[0].front.chains.Keys, states, steps, i);
    BuiltMeets(env, states[0].front.chains.Keys, states[i]);
  }
}
