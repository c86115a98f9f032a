/** Entry credit balances seen from the blocks: what a process list writes into the entry credit
    block (process/processor.go, build functions) and how balances are recomputed from blocks
    (process/init.go, initializeECreditMap). */
module ECLedger {
  import opened Basics
  import opened Entries
  import opened Messages
  import opened Ledger
  import opened ECBlock

  // ---------------------------------------------------------------- replaying blocks

  /** process/init.go:240-262 for one entry; e.NumEC is cut to an int32. */
  function ReplayOne(credits: map<Digest, int>, e: ECEntry): map<Digest, int> {
    match e
    case ChainCommit(c) => AddTo(credits, c.ecPubKey, -(c.credits as int))
    case EntryCommit(c) => AddTo(credits, c.ecPubKey, -(c.credits as int))
    case Increase(b) => AddTo(credits, b.ecPubKey, ToInt32(b.numEC))
    case ServerIndex(_) => credits
    case Minute(_) => credits
  }

  function Replay(credits: map<Digest, int>, es: seq<ECEntry>): map<Digest, int> {
    if es == [] then credits
    else ReplayOne(Replay(credits, es[..|es| - 1]), es[|es| - 1])
  }

  /** process/init.go:240-262 */
  method InitializeECreditMap(credits: map<Digest, int>, block: Block) returns (r: map<Digest, int>)
    ensures r == Replay(credits, block.body)
  {
    r := credits;
    for i := 0 to |block.body|
      invariant r == Replay(credits, block.body[..i])
    {
      assert block.body[..i + 1][..i] == block.body[..i];
      match block.body[i] {
        case ChainCommit(c) => r := AddTo(r, c.ecPubKey, -(c.credits as int));
        case EntryCommit(c) => r := AddTo(r, c.ecPubKey, -(c.credits as int));
        case Increase(b) => r := AddTo(r, b.ecPubKey, ToInt32(b.numEC));
        case ServerIndex(_) =>
        case Minute(_) =>
      }
    }
    assert block.body[..|block.body|] == block.body;
  }

  function ReplayBlocks(blocks: seq<Block>): map<Digest, int> {
    if blocks == [] then map[]
    else Replay(ReplayBlocks(blocks[..|blocks| - 1]), blocks[|blocks| - 1].body)
  }

  /** process/init.go:87-94: what a restart, or a client storing the same blocks, computes. */
  method BalancesFromBlocks(blocks: seq<Block>) returns (eCreditMap: map<Digest, int>)
    ensures eCreditMap == ReplayBlocks(blocks)
  {
    eCreditMap := map[];
    for i := 0 to |blocks|
      invariant eCreditMap == ReplayBlocks(blocks[..i])
    {
      assert blocks[..i + 1][..i] == blocks[..i];
      eCreditMap := InitializeECreditMap(eCreditMap, blocks[i]);
    }
    assert blocks[..|blocks|] == blocks;
  }

  lemma {:induction false} ReplayAppend(credits: map<Digest, int>, a: seq<ECEntry>, b: seq<ECEntry>)
    ensures Replay(credits, a + b) == Replay(Replay(credits, a), b)
    decreases |b|
  {
    hide ReplayOne;
    if b == [] {
      assert a + b == a;
    } else {
      assert (a + b)[..|a + b| - 1] == a + b[..|b| - 1];
      ReplayAppend(credits, a, b[..|b| - 1]);
    }
  }

  /** Server and minute markers do not touch balances. */
  lemma {:induction false} ReplayMarkers(credits: map<Digest, int>, es: seq<ECEntry>)
    requires forall i :: 0 <= i < |es| ==> es[i].ServerIndex? || es[i].Minute?
    ensures Replay(credits, es) == credits
    decreases |es|
  {
    if es != [] {
      ReplayMarkers(credits, es[..|es| - 1]);
    }
  }

  // ---------------------------------------------------------------- writing the block

  /** process/processor.go:820-840: one balance increase per output. NumEC is the int32 amount turned
      into a uint64 again. */
  function Increases(rate: u64, txid: Digest, outputs: seq<(Digest, u64)>): seq<ECEntry>
    requires rate > 0
  {
    if outputs == [] then []
    else
      var n := |outputs| - 1;
      Increases(rate, txid, outputs[..n])
        + [Increase(IncreaseBalance(outputs[n].0, txid, n % TWO_64, CreditsFor(outputs[n].1, rate) % TWO_64))]
  }

  function EntriesOf(rate: u64, i: Item): seq<ECEntry>
    requires rate > 0
  {
    match i
    case CommitEntryItem(c) => [EntryCommit(c)]
    case CommitChainItem(c) => [ChainCommit(c)]
    case FactoidItem(tx) => Increases(rate, tx.hash, tx.ecOutputs)
    case MinuteItem(m) => [Minute(m)]
    case RevealEntryItem(_) => []
    case RevealChainItem(_) => []
  }

  /** Everything a process list adds to the entry credit block. */
  function ECEntries(rate: u64, items: seq<Item>): seq<ECEntry>
    requires rate > 0
  {
    if items == [] then []
    else ECEntries(rate, items[..|items| - 1]) + EntriesOf(rate, items[|items| - 1])
  }

  lemma ECEntriesSnoc(rate: u64, items: seq<Item>, i: Item)
    requires rate > 0
    ensures ECEntries(rate, items + [i]) == ECEntries(rate, items) + EntriesOf(rate, i)
  {
    assert (items + [i])[..|items|] == items;
  }

  /** The two casts on the way into a block and out again cancel. */
  lemma CastsCancel(x: int)
    requires -TWO_31 <= x < TWO_31
    ensures ToInt32(x % TWO_64) == x
  {
    if x >= 0 {
      assert x % TWO_64 == x;
    } else {
      assert x % TWO_64 == x + TWO_64;
      assert (x + TWO_64) % TWO_32 == x + TWO_32;
    }
  }

  lemma {:induction false} ReplayIncreases(credits: map<Digest, int>, rate: u64, txid: Digest,
                                           outputs: seq<(Digest, u64)>)
    requires rate > 0
    ensures Replay(credits, Increases(rate, txid, outputs)) == AddOutputs(credits, rate, outputs)
    decreases |outputs|
  {
    hide ToInt32;
    if outputs != [] {
      var n := |outputs| - 1;
      ReplayIncreases(credits, rate, txid, outputs[..n]);
      CastsCancel(CreditsFor(outputs[n].1, rate));
      var es := Increases(rate, txid, outputs);
      assert es[..|es| - 1] == Increases(rate, txid, outputs[..n]);
    }
  }
}
