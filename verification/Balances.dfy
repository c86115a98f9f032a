/** The live balances against the blocks: the ledger refinement, and when no balance is overdrawn. */
module Balances {
  import opened Basics
  import opened Entries
  import opened Messages
  import opened Ledger
  import opened ECBlock
  import opened ECLedger
  import Arith

  // ---------------------------------------------------------------- live balances and pending items

  /** The live balances are the balances at the last sealed block plus what the process list will
      write into the next one. */
  predicate Balanced(base: map<Digest, int>, f: Front) {
    f.rate > 0 && f.credits == Replay(base, ECEntries(f.rate, f.items))
  }

  lemma AcceptExtends(base: map<Digest, int>, f: Front, i: Item)
    requires f.rate > 0
    ensures Replay(base, ECEntries(f.rate, f.items + [i]))
         == Replay(Replay(base, ECEntries(f.rate, f.items)), EntriesOf(f.rate, i))
  {
    hide Replay, EntriesOf;
    ECEntriesSnoc(f.rate, f.items, i);
    ReplayAppend(base, ECEntries(f.rate, f.items), EntriesOf(f.rate, i));
  }

  lemma ReplaySingle(credits: map<Digest, int>, e: ECEntry)
    ensures Replay(credits, [e]) == ReplayOne(credits, e)
    ensures Replay(credits, []) == credits
  {
    assert [e][..0] == [];
    assert Replay(credits, [e]) == ReplayOne(Replay(credits, []), e);
  }

  lemma CommitEntryKeepsBalance(env: Env, base: map<Digest, int>, f: Front, c: CommitEntry, clock: int)
    requires Balanced(base, f) && f.totalItems == 0
    ensures Balanced(base, ProcessCommitEntry(env, f, c, clock).0)
  {
    hide ToInt32, InTime, Replay, ECEntries;
    AcceptExtends(base, f, CommitEntryItem(c));
    ReplaySingle(f.credits, EntryCommit(c));
  }

  lemma CommitChainKeepsBalance(env: Env, base: map<Digest, int>, f: Front, c: CommitChain, clock: int)
    requires Balanced(base, f) && f.totalItems == 0
    ensures Balanced(base, ProcessCommitChain(env, f, c, clock).0)
  {
    hide ToInt32, InTime, Replay, ECEntries;
    AcceptExtends(base, f, CommitChainItem(c));
    ReplaySingle(f.credits, ChainCommit(c));
  }

  lemma RevealKeepsBalance(env: Env, base: map<Digest, int>, f: Front, e: Entry)
    requires Balanced(base, f) && f.totalItems == 0
    ensures Balanced(base, ProcessRevealEntry(env, f, e).0)
  {
    hide Replay, ECEntries, ProcessRevealEntry;
    RevealShape(env, f, e);
    assert f.items + [] == f.items;
    AcceptExtends(base, f, RevealEntryItem(e));
    AcceptExtends(base, f, RevealChainItem(e));
    ReplayNothing(f.credits);
  }

  lemma ReplayNothing(credits: map<Digest, int>)
    ensures Replay(credits, []) == credits
  {
  }

  lemma BuyKeepsBalance(env: Env, base: map<Digest, int>, f: Front, tx: FctTx)
    requires Balanced(base, f) && f.totalItems == 0
    ensures Balanced(base, ProcessBuyEntryCredit(env, f, tx).0)
  {
    hide Replay, ECEntries, AddOutputs, Increases;
    AcceptExtends(base, f, FactoidItem(tx));
    ReplayIncreases(f.credits, f.rate, tx.hash, tx.ecOutputs);
  }

  lemma MinuteKeepsBalance(base: map<Digest, int>, f: Front, m: byte)
    requires Balanced(base, f)
    ensures Balanced(base, Accept(f, MinuteItem(m)))
  {
    hide Replay, ECEntries;
    AcceptExtends(base, f, MinuteItem(m));
    ReplaySingle(f.credits, Minute(m));
  }

  // ---------------------------------------------------------------- never overdrawn

  /** Every balance is a non-negative int32. */
  predicate Solvent(credits: map<Digest, int>) {
    forall k :: k in credits ==> 0 <= credits[k] < TWO_31
  }

  /** What the outputs buy for one key, in unbounded arithmetic. */
  function Purchased(rate: u64, outputs: seq<(Digest, u64)>, k: Digest): nat
    requires rate > 0
  {
    if outputs == [] then 0
    else
      var n := |outputs| - 1;
      var bought: nat := outputs[n].1 / rate;
      Purchased(rate, outputs[..n], k) + if outputs[n].0 == k then bought else 0
  }

  lemma ToInt32Sum(x: int, y: int)
    ensures ToInt32(ToInt32(x) + ToInt32(y)) == ToInt32(x + y)
  {
    Int32Residue(x);
    Int32Residue(y);
    var p, q := ToInt32(x), ToInt32(y);
    assert (x + y) - (p + q) == TWO_32 * ((x - p) / TWO_32 + (y - q) / TWO_32);
    SameResidue(x + y, p + q, (x - p) / TWO_32 + (y - q) / TWO_32);
  }

  lemma Int32Residue(x: int)
    ensures x - ToInt32(x) == TWO_32 * ((x - ToInt32(x)) / TWO_32)
  {
  }

  lemma SameResidue(x: int, y: int, k: int)
    requires x - y == TWO_32 * k
    ensures x % TWO_32 == y % TWO_32 && ToInt32(x) == ToInt32(y)
  {
    Arith.DivModUnique(x, TWO_32, y / TWO_32 + k, y % TWO_32);
  }
  lemma {:induction false} BalanceAfterOutputs(credits: map<Digest, int>, rate: u64, outputs: seq<(Digest, u64)>,
                                               k: Digest)
    requires rate > 0 && -TWO_31 <= Balance(credits, k) < TWO_31
    ensures Balance(AddOutputs(credits, rate, outputs), k) == ToInt32(Balance(credits, k) + Purchased(rate, outputs, k))
    decreases |outputs|
  {
    hide ToInt32;
    if outputs != [] {
      var n := |outputs| - 1;
      BalanceAfterOutputs(credits, rate, outputs[..n], k);
      if outputs[n].0 == k {
        ToInt32Sum(Balance(credits, k) + Purchased(rate, outputs[..n], k), outputs[n].1 / rate);
      }
    }
  }

  /** What records do to one key, in unbounded arithmetic: credits bought minus credits charged. */
  function Net(es: seq<ECEntry>, k: Digest): int {
    if es == [] then 0 else Net(es[..|es| - 1], k) + NetOne(es[|es| - 1], k)
  }

  function NetOne(e: ECEntry, k: Digest): int {
    match e
    case ChainCommit(c) => if c.ecPubKey == k then -(c.credits as int) else 0
    case EntryCommit(c) => if c.ecPubKey == k then -(c.credits as int) else 0
    case Increase(b) => if b.ecPubKey == k then ToInt32(b.numEC) else 0
    case ServerIndex(_) => 0
    case Minute(_) => 0
  }

  lemma {:induction false} NetAppend(a: seq<ECEntry>, b: seq<ECEntry>, k: Digest)
    ensures Net(a + b, k) == Net(a, k) + Net(b, k)
    decreases |b|
  {
    hide NetOne;
    if b == [] {
      assert a + b == a;
    } else {
      assert (a + b)[..|a + b| - 1] == a + b[..|b| - 1];
      NetAppend(a, b[..|b| - 1], k);
    }
  }

  lemma ReplayOneNet(credits: map<Digest, int>, e: ECEntry, k: Digest)
    requires -TWO_31 <= Balance(credits, k) < TWO_31
    ensures Balance(ReplayOne(credits, e), k) == ToInt32(Balance(credits, k) + NetOne(e, k))
  {
  }

  /** Replaying records adds their net effect to each balance, in 32-bit arithmetic. */
  lemma {:induction false} ReplayIsNet(credits: map<Digest, int>, es: seq<ECEntry>, k: Digest)
    requires -TWO_31 <= Balance(credits, k) < TWO_31
    ensures Balance(Replay(credits, es), k) == ToInt32(Balance(credits, k) + Net(es, k))
    decreases |es|
  {
    hide ReplayOne, NetOne;
    if es != [] {
      var n := |es| - 1;
      ReplayIsNet(credits, es[..n], k);
      ReplayOneNet(Replay(credits, es[..n]), es[n], k);
      ToInt32Add(Balance(credits, k) + Net(es[..n], k), NetOne(es[n], k));
    }
  }

  lemma ToInt32Add(x: int, y: int)
    ensures ToInt32(ToInt32(x) + y) == ToInt32(x + y)
  {
    Int32Residue(x);
    var p := ToInt32(x);
    SameResidue(x + y, p + y, (x - p) / TWO_32);
  }

  /** A purchase creates accounts for the keys it pays and for no others. */
  lemma {:induction false} AccountsAfterOutputs(credits: map<Digest, int>, rate: u64, outputs: seq<(Digest, u64)>)
    requires rate > 0
    ensures AddOutputs(credits, rate, outputs).Keys == credits.Keys + set i | 0 <= i < |outputs| :: outputs[i].0
    decreases |outputs|
  {
    if outputs != [] {
      var n := |outputs| - 1;
      AccountsAfterOutputs(credits, rate, outputs[..n]);
      assert (set i | 0 <= i < |outputs| :: outputs[i].0)
          == (set i | 0 <= i < n :: outputs[..n][i].0) + {outputs[n].0} by {
        forall i | 0 <= i < n
          ensures outputs[..n][i] == outputs[i]
        {
        }
      }
    }
  }

  /** No sum of this purchase leaves the non-negative half of 32 bits. */
  predicate PurchaseFits(credits: map<Digest, int>, rate: u64, outputs: seq<(Digest, u64)>)
    requires rate > 0
  {
    forall i :: 0 <= i < |outputs| ==>
      (Balance(credits, outputs[i].0) + Purchased(rate, outputs, outputs[i].0)) % TWO_32 < TWO_31
  }

  lemma Int32NonNegative(x: int)
    ensures ToInt32(x) >= 0 <==> x % TWO_32 < TWO_31
  {
  }

  /** A purchase leaves every balance non-negative exactly when, for each key it pays, the balance
      plus the credits bought is below 2^31 modulo 2^32. */
  lemma PurchaseSolventIff(credits: map<Digest, int>, rate: u64, outputs: seq<(Digest, u64)>)
    requires rate > 0 && Solvent(credits)
    ensures Solvent(AddOutputs(credits, rate, outputs)) <==> PurchaseFits(credits, rate, outputs)
  {
    hide ToInt32, AddOutputs, Purchased;
    var after := AddOutputs(credits, rate, outputs);
    AccountsAfterOutputs(credits, rate, outputs);
    forall k | k in after
      ensures after[k] == ToInt32(Balance(credits, k) + Purchased(rate, outputs, k))
      ensures after[k] >= 0 <==> (Balance(credits, k) + Purchased(rate, outputs, k)) % TWO_32 < TWO_31
    {
      BalanceAfterOutputs(credits, rate, outputs, k);
      Int32NonNegative(Balance(credits, k) + Purchased(rate, outputs, k));
    }
    if Solvent(after) {
      forall i | 0 <= i < |outputs|
        ensures (Balance(credits, outputs[i].0) + Purchased(rate, outputs, outputs[i].0)) % TWO_32 < TWO_31
      {
        assert outputs[i].0 in after;
      }
    }
    if PurchaseFits(credits, rate, outputs) {
      forall k | k in after
        ensures 0 <= after[k] < TWO_31
      {
        if i :| 0 <= i < |outputs| && outputs[i].0 == k {
          assert (Balance(credits, outputs[i].0) + Purchased(rate, outputs, outputs[i].0)) % TWO_32 < TWO_31;
        } else {
          NotPaid(rate, outputs, k);
        }
      }
    }
  }

  lemma {:induction false} NotPaid(rate: u64, outputs: seq<(Digest, u64)>, k: Digest)
    requires rate > 0
    ensures (forall i :: 0 <= i < |outputs| ==> outputs[i].0 != k) ==> Purchased(rate, outputs, k) == 0
    decreases |outputs|
  {
    if (forall i :: 0 <= i < |outputs| ==> outputs[i].0 != k) && outputs != [] {
      var n := |outputs| - 1;
      assert forall i :: 0 <= i < n ==> outputs[..n][i] == outputs[i];
      NotPaid(rate, outputs[..n], k);
    }
  }

  /** One purchase of 2^31 credits makes an empty account negative. */
  lemma BigPurchaseOverdraws(k: Digest)
    ensures Balance(AddOutputs(map[], 1, [(k, 0x8000_0000)]), k) == -TWO_31
  {
    assert [(k, 0x8000_0000 as int)][..0] == [];
    assert CreditsFor(0x8000_0000, 1) == -TWO_31;
  }

  // ---------------------------------------------------------------- solvency at every prefix

  /** The entry can be replayed without overdrawing or overflowing. */
  predicate CoveredAt(credits: map<Digest, int>, e: ECEntry) {
    match e
    case ChainCommit(c) => Balance(credits, c.ecPubKey) >= c.credits
    case EntryCommit(c) => Balance(credits, c.ecPubKey) >= c.credits
    case Increase(b) => ToInt32(b.numEC) >= 0 && Balance(credits, b.ecPubKey) + ToInt32(b.numEC) < TWO_31
    case ServerIndex(_) => true
    case Minute(_) => true
  }

  predicate Covered(credits: map<Digest, int>, es: seq<ECEntry>) {
    forall i :: 0 <= i < |es| ==> CoveredAt(Replay(credits, es[..i]), es[i])
  }

  lemma CoveredStep(credits: map<Digest, int>, e: ECEntry)
    requires Solvent(credits) && CoveredAt(credits, e)
    ensures Solvent(ReplayOne(credits, e))
  {
  }

  /** Then every balance at every prefix of the replay is non-negative. */
  lemma {:induction false} SolventAtEveryPrefix(credits: map<Digest, int>, es: seq<ECEntry>, i: nat)
    requires Solvent(credits) && Covered(credits, es) && i <= |es|
    ensures Solvent(Replay(credits, es[..i]))
    decreases i
  {
    hide CoveredAt, ReplayOne, Solvent;
    if i > 0 {
      SolventAtEveryPrefix(credits, es, i - 1);
      CoveredStep(Replay(credits, es[..i - 1]), es[i - 1]);
      assert es[..i][..i - 1] == es[..i - 1];
    }
  }

  lemma CoveredAppend(credits: map<Digest, int>, a: seq<ECEntry>, b: seq<ECEntry>)
    requires Covered(credits, a) && Covered(Replay(credits, a), b)
    ensures Covered(credits, a + b)
  {
    hide CoveredAt, Replay;
    forall i | 0 <= i < |a + b|
      ensures CoveredAt(Replay(credits, (a + b)[..i]), (a + b)[i])
    {
      if i < |a| {
        assert (a + b)[..i] == a[..i];
      } else {
        assert (a + b)[..i] == a + b[..i - |a|];
        ReplayAppend(credits, a, b[..i - |a|]);
      }
    }
  }

  lemma CoveredOne(credits: map<Digest, int>, e: ECEntry)
    requires CoveredAt(credits, e)
    ensures Covered(credits, [e])
  {
    hide CoveredAt, ReplayOne;
    forall i | 0 <= i < |[e]|
      ensures CoveredAt(Replay(credits, [e][..i]), [e][i])
    {
      assert [e][..i] == [];
    }
  }

  /** A purchase that a caller would call reasonable: each amount buys less than 2^31 credits and no
      balance reaches 2^31. */
  predicate SafePurchase(credits: map<Digest, int>, rate: u64, outputs: seq<(Digest, u64)>)
    requires rate > 0
  {
    && (forall i :: 0 <= i < |outputs| ==> outputs[i].1 / rate < TWO_31)
    && (forall i :: 0 <= i < |outputs| ==>
        Balance(credits, outputs[i].0) + Purchased(rate, outputs, outputs[i].0) < TWO_31)
  }

  lemma {:induction false} PurchasedMonotone(rate: u64, outputs: seq<(Digest, u64)>, n: nat, k: Digest)
    requires rate > 0 && n <= |outputs|
    ensures Purchased(rate, outputs[..n], k) <= Purchased(rate, outputs, k)
    decreases |outputs|
  {
    if n < |outputs| {
      PurchasedMonotone(rate, outputs[..|outputs| - 1], n, k);
      assert outputs[..|outputs| - 1][..n] == outputs[..n];
    } else {
      assert outputs[..n] == outputs;
    }
  }

  lemma SafePrefix(credits: map<Digest, int>, rate: u64, outputs: seq<(Digest, u64)>)
    requires rate > 0 && outputs != [] && SafePurchase(credits, rate, outputs)
    ensures SafePurchase(credits, rate, outputs[..|outputs| - 1])
  {
    var n := |outputs| - 1;
    forall i | 0 <= i < n
      ensures outputs[..n][i] == outputs[i]
      ensures Balance(credits, outputs[i].0) + Purchased(rate, outputs[..n], outputs[i].0) < TWO_31
    {
      PurchasedMonotone(rate, outputs, n, outputs[i].0);
    }
  }

  lemma {:induction false} SafePurchaseCovered(credits: map<Digest, int>, rate: u64, txid: Digest,
                                               outputs: seq<(Digest, u64)>)
    requires rate > 0 && Solvent(credits) && SafePurchase(credits, rate, outputs)
    ensures Covered(credits, Increases(rate, txid, outputs))
    decreases |outputs|
  {
    hide CoveredAt, Replay, Solvent, SafePurchase, Covered;
    if outputs == [] {
      CoveredNothing(credits);
    } else {
      var n := |outputs| - 1;
      SafePrefix(credits, rate, outputs);
      SafePurchaseCovered(credits, rate, txid, outputs[..n]);
      LastOutputCovered(credits, rate, txid, outputs);
      var es := Increases(rate, txid, outputs[..n]);
      var e := Increase(IncreaseBalance(outputs[n].0, txid, n % TWO_64, CreditsFor(outputs[n].1, rate) % TWO_64));
      CoveredOne(Replay(credits, es), e);
      CoveredAppend(credits, es, [e]);
    }
  }

  lemma CoveredNothing(credits: map<Digest, int>)
    ensures Covered(credits, [])
  {
  }

  lemma SmallInt32(x: int)
    requires 0 <= x < TWO_31
    ensures ToInt32(x) == x
  {
  }

  lemma SolventBalance(credits: map<Digest, int>, k: Digest)
    requires Solvent(credits)
    ensures 0 <= Balance(credits, k) < TWO_31
  {
  }

  lemma LastOutputCovered(credits: map<Digest, int>, rate: u64, txid: Digest, outputs: seq<(Digest, u64)>)
    requires rate > 0 && outputs != [] && Solvent(credits) && SafePurchase(credits, rate, outputs)
    ensures var n := |outputs| - 1;
      CoveredAt(Replay(credits, Increases(rate, txid, outputs[..n])),
                Increase(IncreaseBalance(outputs[n].0, txid, n % TWO_64, CreditsFor(outputs[n].1, rate) % TWO_64)))
  {
    hide Replay, AddOutputs, Increases, ToInt32, Balance, Solvent, Purchased, SafePurchase, CreditsFor;
    var n := |outputs| - 1;
    var k := outputs[n].0;
    SolventBalance(credits, k);
    ReplayIncreases(credits, rate, txid, outputs[..n]);
    BalanceAfterOutputs(credits, rate, outputs[..n], k);
    LastOutputFits(credits, rate, outputs);
    SmallInt32(Balance(credits, k) + Purchased(rate, outputs[..n], k));
    CastsCancel(CreditsFor(outputs[n].1, rate));
  }

  /** The last output of a reasonable purchase fits, on top of the others. */
  lemma LastOutputFits(credits: map<Digest, int>, rate: u64, outputs: seq<(Digest, u64)>)
    requires rate > 0 && outputs != [] && SafePurchase(credits, rate, outputs)
    ensures var n := |outputs| - 1;
      && 0 <= CreditsFor(outputs[n].1, rate)
      && Balance(credits, outputs[n].0) + Purchased(rate, outputs[..n], outputs[n].0) + CreditsFor(outputs[n].1,
          rate) < TWO_31
  {
    hide ToInt32, Balance;
    var n := |outputs| - 1;
    var bought: nat := outputs[n].1 / rate;
    SmallInt32(bought);
  }

  /** The pending entries can be replayed after the sealed ones without overdrawing anyone. */
  predicate PendingCovered(base: map<Digest, int>, f: Front) {
    Balanced(base, f) && Solvent(base) && Covered(base, ECEntries(f.rate, f.items))
  }

  lemma PendingSolvent(base: map<Digest, int>, f: Front)
    requires PendingCovered(base, f)
    ensures Solvent(f.credits)
  {
    hide Covered, Solvent, Replay, ECEntries;
    var es := ECEntries(f.rate, f.items);
    SolventAtEveryPrefix(base, es, |es|);
    assert es[..|es|] == es;
  }

  lemma AcceptKeepsCovered(base: map<Digest, int>, f: Front, i: Item)
    requires PendingCovered(base, f) && Covered(f.credits, EntriesOf(f.rate, i))
    ensures Covered(base, ECEntries(f.rate, f.items + [i]))
  {
    hide Covered, Solvent, Replay, ECEntries, EntriesOf;
    ECEntriesSnoc(f.rate, f.items, i);
    CoveredAppend(base, ECEntries(f.rate, f.items), EntriesOf(f.rate, i));
  }

  lemma CommitEntryKeepsCovered(env: Env, base: map<Digest, int>, f: Front, c: CommitEntry, clock: int)
    requires PendingCovered(base, f) && f.totalItems == 0
    ensures PendingCovered(base, ProcessCommitEntry(env, f, c, clock).0)
  {
    CommitEntryKeepsBalance(env, base, f, c, clock);
    if Balance(f.credits, c.ecPubKey) >= c.credits {
      CoveredOne(f.credits, EntryCommit(c));
      AcceptKeepsCovered(base, f, CommitEntryItem(c));
    }
    hide Covered, Solvent, Replay, ECEntries, Balanced, InTime;
  }

  lemma CommitChainKeepsCovered(env: Env, base: map<Digest, int>, f: Front, c: CommitChain, clock: int)
    requires PendingCovered(base, f) && f.totalItems == 0
    ensures PendingCovered(base, ProcessCommitChain(env, f, c, clock).0)
  {
    CommitChainKeepsBalance(env, base, f, c, clock);
    if Balance(f.credits, c.ecPubKey) >= c.credits {
      CoveredOne(f.credits, ChainCommit(c));
      AcceptKeepsCovered(base, f, CommitChainItem(c));
    }
    hide Covered, Solvent, Replay, ECEntries, Balanced, InTime;
  }

  lemma RevealKeepsCovered(env: Env, base: map<Digest, int>, f: Front, e: Entry)
    requires PendingCovered(base, f) && f.totalItems == 0
    ensures PendingCovered(base, ProcessRevealEntry(env, f, e).0)
  {
    hide Solvent, Replay, ECEntries, Covered, ProcessRevealEntry, Balanced;
    RevealKeepsBalance(env, base, f, e);
    RevealShape(env, f, e);
    assert f.items + [] == f.items;
    CoveredNothing(f.credits);
    AcceptKeepsCovered(base, f, RevealEntryItem(e));
    AcceptKeepsCovered(base, f, RevealChainItem(e));
  }

  lemma MinuteKeepsCovered(base: map<Digest, int>, f: Front, m: byte)
    requires PendingCovered(base, f)
    ensures PendingCovered(base, Accept(f, MinuteItem(m)))
  {
    MinuteKeepsBalance(base, f, m);
    CoveredOne(f.credits, Minute(m));
    AcceptKeepsCovered(base, f, MinuteItem(m));
  }

  lemma BuyKeepsCovered(env: Env, base: map<Digest, int>, f: Front, tx: FctTx)
    requires PendingCovered(base, f) && f.totalItems == 0 && SafePurchase(f.credits, f.rate, tx.ecOutputs)
    ensures PendingCovered(base, ProcessBuyEntryCredit(env, f, tx).0)
  {
    hide Covered, Solvent, Replay, ECEntries, AddOutputs, SafePurchase;
    BuyKeepsBalance(env, base, f, tx);
    PendingSolvent(base, f);
    SafePurchaseCovered(f.credits, f.rate, tx.hash, tx.ecOutputs);
    AcceptKeepsCovered(base, f, FactoidItem(tx));
  }
}
