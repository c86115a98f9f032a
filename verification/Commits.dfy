/** How accepted commits and accepted reveals match up, and what published entries cost. */
module Commits {
  import opened Basics
  import opened Entries
  import opened Messages
  import opened Ledger

  // ---------------------------------------------------------------- open commits

  /** The commits that no reveal has used yet, read off the history. */
  function PendingEntries(h: Hashing, log: seq<Item>): map<Digest, CommitEntry> {
    if log == [] then map[]
    else
      var m := PendingEntries(h, log[..|log| - 1]);
      match log[|log| - 1]
      case CommitEntryItem(c) => m[c.entryHash := c]
      case RevealEntryItem(e) => m - {EntryHash(h, e)}
      case CommitChainItem(_) => m
      case RevealChainItem(_) => m
      case FactoidItem(_) => m
      case MinuteItem(_) => m
  }

  function PendingChains(h: Hashing, log: seq<Item>): map<Digest, CommitChain> {
    if log == [] then map[]
    else
      var m := PendingChains(h, log[..|log| - 1]);
      match log[|log| - 1]
      case CommitChainItem(c) => m[c.entryHash := c]
      case RevealChainItem(e) => m - {EntryHash(h, e)}
      case CommitEntryItem(_) => m
      case RevealEntryItem(_) => m
      case FactoidItem(_) => m
      case MinuteItem(_) => m
  }

  /** Item i may follow the history `prev`: a commit only if none is open for its hash and it takes no
      more than ten or twenty credits, a reveal only if one is open, and fits. */
  predicate MatchedAt(env: Env, prev: seq<Item>, i: Item) {
    match i
    case CommitEntryItem(c) => c.entryHash !in PendingEntries(env.h, prev) && c.credits <= 10
    case CommitChainItem(c) => c.entryHash !in PendingChains(env.h, prev) && c.credits <= 20
    case RevealEntryItem(e) =>
      EntryHash(env.h, e) in PendingEntries(env.h, prev)
          && Pays(PendingEntries(env.h, prev)[EntryHash(env.h, e)].credits, e)
    case RevealChainItem(e) =>
      EntryHash(env.h, e) in PendingChains(env.h, prev)
          && Founds(env.h, PendingChains(env.h, prev)[EntryHash(env.h, e)], e)
    case FactoidItem(_) => true
    case MinuteItem(_) => true
  }

  predicate Matched(env: Env, log: seq<Item>) {
    forall i :: 0 <= i < |log| ==> MatchedAt(env, log[..i], log[i])
  }

  /** The server's commit maps are exactly the open commits of its history. */
  predicate Books(env: Env, f: Front) {
    && f.commitEntries == PendingEntries(env.h, f.log)
    && f.commitChains == PendingChains(env.h, f.log)
    && Matched(env, f.log)
  }

  lemma Snoc(env: Env, log: seq<Item>, i: Item)
    ensures (log + [i])[..|log|] == log && (log + [i])[|log|] == i
    ensures Matched(env, log) && MatchedAt(env, log, i) ==> Matched(env, log + [i])
  {
    hide MatchedAt;
    if Matched(env, log) && MatchedAt(env, log, i) {
      forall k | 0 <= k < |log + [i]|
        ensures MatchedAt(env, (log + [i])[..k], (log + [i])[k])
      {
        if k < |log| {
          assert (log + [i])[..k] == log[..k];
        } else {
          assert (log + [i])[..k] == log;
        }
      }
    }
  }

  lemma MatchedPrefix(env: Env, log: seq<Item>, n: nat)
    requires Matched(env, log) && n <= |log|
    ensures Matched(env, log[..n])
  {
    hide MatchedAt;
    forall k | 0 <= k < n
      ensures MatchedAt(env, log[..n][..k], log[..n][k])
    {
      assert log[..n][..k] == log[..k];
    }
  }

  lemma CommitEntryKeepsBooks(env: Env, f: Front, c: CommitEntry, clock: int)
    requires Books(env, f) && f.totalItems == 0
    ensures Books(env, ProcessCommitEntry(env, f, c, clock).0)
  {
    Snoc(env, f.log, CommitEntryItem(c));
  }

  lemma CommitChainKeepsBooks(env: Env, f: Front, c: CommitChain, clock: int)
    requires Books(env, f) && f.totalItems == 0
    ensures Books(env, ProcessCommitChain(env, f, c, clock).0)
  {
    Snoc(env, f.log, CommitChainItem(c));
  }

  lemma RevealEntryKeepsBooks(env: Env, f: Front, e: Entry, hash: Digest)
    requires Books(env, f) && f.totalItems == 0 && hash in f.commitEntries && hash == EntryHash(env.h, e)
    ensures Books(env, RevealCommittedEntry(env, f, e, hash).0)
  {
    hide EntryHash, EntryCost, MarshalEntry, Matched, Pays;
    PaysMeans(f.commitEntries[hash].credits, e);
    Snoc(env, f.log, RevealEntryItem(e));
  }

  lemma RevealChainKeepsBooks(env: Env, f: Front, e: Entry, hash: Digest)
    requires Books(env, f) && f.totalItems == 0 && hash in f.commitChains && hash == EntryHash(env.h, e)
    ensures Books(env, RevealCommittedChain(env, f, e, hash).0)
  {
    hide EntryHash, ChainRevealFault, Matched, Founds;
    FaultMeans(env, f.commitChains[hash], e);
    Snoc(env, f.log, RevealChainItem(e));
  }

  lemma RevealKeepsBooks(env: Env, f: Front, e: Entry)
    requires Books(env, f) && f.totalItems == 0
    ensures Books(env, ProcessRevealEntry(env, f, e).0)
  {
    hide EntryHash, Books, RevealCommittedEntry, RevealCommittedChain, Reserved;
    var hash := EntryHash(env.h, e);
    if hash in f.commitEntries {
      RevealEntryKeepsBooks(env, f, e, hash);
    } else if hash in f.commitChains {
      RevealChainKeepsBooks(env, f, e, hash);
    }
  }

  lemma OtherKeepsBooks(env: Env, f: Front, i: Item)
    requires Books(env, f) && (i.FactoidItem? || i.MinuteItem?)
    ensures Books(env, Accept(f, i))
  {
    Snoc(env, f.log, i);
  }

  // ---------------------------------------------------------------- alternation

  predicate CommitsEntry(i: Item, x: Digest) { i.CommitEntryItem? && i.ce.entryHash == x }
  predicate RevealsEntry(h: Hashing, i: Item, x: Digest) { i.RevealEntryItem? && EntryHash(h, i.entry) == x }
  predicate CommitsChain(i: Item, x: Digest) { i.CommitChainItem? && i.cc.entryHash == x }
  predicate RevealsChain(h: Hashing, i: Item, x: Digest) { i.RevealChainItem? && EntryHash(h, i.first) == x }

  /** No entry reveal of x strictly between positions i and j. */
  predicate NoEntryRevealBetween(h: Hashing, log: seq<Item>, x: Digest, i: nat, j: nat)
    requires j <= |log|
  {
    forall k :: i < k < j ==> !RevealsEntry(h, log[k], x)
  }

  /** The commit at i is open after the whole history. */
  predicate EntryOpenSince(env: Env, log: seq<Item>, x: Digest, i: nat) {
    && i < |log| && CommitsEntry(log[i], x)
    && x in PendingEntries(env.h, log) && log[i].ce == PendingEntries(env.h, log)[x]
    && NoEntryRevealBetween(env.h, log, x, i, |log|)
  }

  lemma {:induction false} EntryOpenOrigin(env: Env, log: seq<Item>, x: Digest)
    requires x in PendingEntries(env.h, log)
    ensures exists i: nat :: EntryOpenSince(env, log, x, i)
    decreases |log|
  {
    hide EntryHash;
    var n := |log| - 1;
    if CommitsEntry(log[n], x) {
      assert EntryOpenSince(env, log, x, n);
    } else {
      EntryOpenOrigin(env, log[..n], x);
      var i: nat :| EntryOpenSince(env, log[..n], x, i);
      assert log[i] == log[..n][i];
      forall k | i < k < |log|
        ensures !RevealsEntry(env.h, log[k], x)
      {
        assert k < n ==> log[k] == log[..n][k];
      }
      assert EntryOpenSince(env, log, x, i);
    }
  }

  lemma {:induction false} EntryStaysOpen(env: Env, log: seq<Item>, x: Digest, i: nat)
    requires i < |log| && CommitsEntry(log[i], x) && NoEntryRevealBetween(env.h, log, x, i, |log|)
    ensures x in PendingEntries(env.h, log)
    decreases |log|
  {
    hide EntryHash;
    var n := |log| - 1;
    if i < n {
      assert forall k :: i < k < n ==> log[..n][k] == log[k];
      EntryStaysOpen(env, log[..n], x, i);
    }
  }

  /** No chain reveal of x strictly between positions i and j. */
  predicate NoChainRevealBetween(h: Hashing, log: seq<Item>, x: Digest, i: nat, j: nat)
    requires j <= |log|
  {
    forall k :: i < k < j ==> !RevealsChain(h, log[k], x)
  }

  /** The commit at i is open after the whole history. */
  predicate ChainOpenSince(env: Env, log: seq<Item>, x: Digest, i: nat) {
    && i < |log| && CommitsChain(log[i], x)
    && x in PendingChains(env.h, log) && log[i].cc == PendingChains(env.h, log)[x]
    && NoChainRevealBetween(env.h, log, x, i, |log|)
  }

  lemma {:induction false} ChainOpenOrigin(env: Env, log: seq<Item>, x: Digest)
    requires x in PendingChains(env.h, log)
    ensures exists i: nat :: ChainOpenSince(env, log, x, i)
    decreases |log|
  {
    hide EntryHash;
    var n := |log| - 1;
    if CommitsChain(log[n], x) {
      assert ChainOpenSince(env, log, x, n);
    } else {
      ChainOpenOrigin(env, log[..n], x);
      var i: nat :| ChainOpenSince(env, log[..n], x, i);
      assert log[i] == log[..n][i];
      forall k | i < k < |log|
        ensures !RevealsChain(env.h, log[k], x)
      {
        assert k < n ==> log[k] == log[..n][k];
      }
      assert ChainOpenSince(env, log, x, i);
    }
  }

  lemma {:induction false} ChainStaysOpen(env: Env, log: seq<Item>, x: Digest, i: nat)
    requires i < |log| && CommitsChain(log[i], x) && NoChainRevealBetween(env.h, log, x, i, |log|)
    ensures x in PendingChains(env.h, log)
    decreases |log|
  {
    hide EntryHash;
    var n := |log| - 1;
    if i < n {
      assert forall k :: i < k < n ==> log[..n][k] == log[k];
      ChainStaysOpen(env, log[..n], x, i);
    }
  }

  /** Entry commits and entry reveals of one hash alternate, starting with a commit: before each reveal
      there is a commit with no reveal in between, and between two commits there is a reveal. */
  lemma EntriesAlternate(env: Env, log: seq<Item>, x: Digest, j: nat)
    requires Matched(env, log) && j < |log|
    ensures RevealsEntry(env.h, log[j], x) ==>
      exists i: nat :: i < j && CommitsEntry(log[i], x) && NoEntryRevealBetween(env.h, log, x, i, j)
    ensures CommitsEntry(log[j], x) ==>
      forall i: nat :: i < j && CommitsEntry(log[i], x) ==> !NoEntryRevealBetween(env.h, log, x, i, j)
  {
    hide EntryHash, Pays, Founds;
    var prev := log[..j];
    assert MatchedAt(env, prev, log[j]);
    if RevealsEntry(env.h, log[j], x) {
      EntryOpenOrigin(env, prev, x);
      var i: nat :| EntryOpenSince(env, prev, x, i);
      assert log[i] == prev[i];
      assert forall k :: i < k < j ==> log[k] == prev[k];
      assert NoEntryRevealBetween(env.h, log, x, i, j);
    }
    if CommitsEntry(log[j], x) {
      forall i: nat | i < j && CommitsEntry(log[i], x)
        ensures !NoEntryRevealBetween(env.h, log, x, i, j)
      {
        if NoEntryRevealBetween(env.h, log, x, i, j) {
          assert forall k :: i < k < j ==> prev[k] == log[k];
          EntryStaysOpen(env, prev, x, i);
        }
      }
    }
  }

  /** The same for chain commits and chain reveals. */
  lemma ChainsAlternate(env: Env, log: seq<Item>, x: Digest, j: nat)
    requires Matched(env, log) && j < |log|
    ensures RevealsChain(env.h, log[j], x) ==>
      exists i: nat :: i < j && CommitsChain(log[i], x) && NoChainRevealBetween(env.h, log, x, i, j)
    ensures CommitsChain(log[j], x) ==>
      forall i: nat :: i < j && CommitsChain(log[i], x) ==> !NoChainRevealBetween(env.h, log, x, i, j)
  {
    hide EntryHash, Pays, Founds;
    var prev := log[..j];
    assert MatchedAt(env, prev, log[j]);
    if RevealsChain(env.h, log[j], x) {
      ChainOpenOrigin(env, prev, x);
      var i: nat :| ChainOpenSince(env, prev, x, i);
      assert log[i] == prev[i];
      assert forall k :: i < k < j ==> log[k] == prev[k];
      assert NoChainRevealBetween(env.h, log, x, i, j);
    }
    if CommitsChain(log[j], x) {
      forall i: nat | i < j && CommitsChain(log[i], x)
        ensures !NoChainRevealBetween(env.h, log, x, i, j)
      {
        if NoChainRevealBetween(env.h, log, x, i, j) {
          assert forall k :: i < k < j ==> prev[k] == log[k];
          ChainStaysOpen(env, prev, x, i);
        }
      }
    }
  }

  // ---------------------------------------------------------------- what is paid for

  /** Credits taken for the accepted commits. */
  function Committed(log: seq<Item>): nat {
    if log == [] then 0
    else
      Committed(log[..|log| - 1]) +
        match log[|log| - 1]
        case CommitEntryItem(c) => c.credits as int
        case CommitChainItem(c) => c.credits as int
        case RevealEntryItem(_) => 0
        case RevealChainItem(_) => 0
        case FactoidItem(_) => 0
        case MinuteItem(_) => 0
  }

  function CostOf(e: Entry): nat {
    if EntryCost(MarshalEntry(e)).Ok? then EntryCost(MarshalEntry(e)).value else 0
  }

  /** The price of everything published: each entry its cost, each new chain ten credits more. */
  function Published(log: seq<Item>): nat {
    if log == [] then 0
    else
      Published(log[..|log| - 1]) +
        match log[|log| - 1]
        case RevealEntryItem(e) => CostOf(e)
        case RevealChainItem(e) => CostOf(e) + 10
        case CommitEntryItem(_) => 0
        case CommitChainItem(_) => 0
        case FactoidItem(_) => 0
        case MinuteItem(_) => 0
  }

  ghost function Sum(m: map<Digest, nat>): nat {
    if m == map[] then 0 else var k :| k in m; m[k] + Sum(m - {k})
  }

  lemma {:induction false} SumRemove(m: map<Digest, nat>, k: Digest)
    requires k in m
    ensures Sum(m) == m[k] + Sum(m - {k})
    decreases |m|
  {
    var k' :| k' in m && Sum(m) == m[k'] + Sum(m - {k'});
    if k' != k {
      SumRemove(m - {k'}, k);
      SumRemove(m - {k}, k');
      assert m - {k'} - {k} == m - {k} - {k'};
    }
  }

  lemma SumAdd(m: map<Digest, nat>, k: Digest, v: nat)
    requires k !in m
    ensures Sum(m[k := v]) == Sum(m) + v
  {
    SumRemove(m[k := v], k);
    assert m[k := v] - {k} == m;
  }

  function EntryCredits(m: map<Digest, CommitEntry>): map<Digest, nat> {
    map k | k in m :: m[k].credits as int
  }

  function ChainCredits(m: map<Digest, CommitChain>): map<Digest, nat> {
    map k | k in m :: m[k].credits as int
  }

  /** Credits committed but not yet used. */
  ghost function Open(env: Env, log: seq<Item>): nat {
    Sum(EntryCredits(PendingEntries(env.h, log))) + Sum(ChainCredits(PendingChains(env.h, log)))
  }

  lemma OpenAfterCommitEntry(env: Env, prev: seq<Item>, c: CommitEntry)
    requires MatchedAt(env, prev, CommitEntryItem(c))
    ensures Open(env, prev + [CommitEntryItem(c)]) == Open(env, prev) + c.credits
  {
    hide Sum;
    var log := prev + [CommitEntryItem(c)];
    assert log[..|prev|] == prev;
    var m := PendingEntries(env.h, prev);
    assert EntryCredits(m[c.entryHash := c]) == EntryCredits(m)[c.entryHash := c.credits as int];
    SumAdd(EntryCredits(m), c.entryHash, c.credits);
  }

  lemma OpenAfterCommitChain(env: Env, prev: seq<Item>, c: CommitChain)
    requires MatchedAt(env, prev, CommitChainItem(c))
    ensures Open(env, prev + [CommitChainItem(c)]) == Open(env, prev) + c.credits
  {
    hide Sum;
    var log := prev + [CommitChainItem(c)];
    assert log[..|prev|] == prev;
    var m := PendingChains(env.h, prev);
    assert ChainCredits(m[c.entryHash := c]) == ChainCredits(m)[c.entryHash := c.credits as int];
    SumAdd(ChainCredits(m), c.entryHash, c.credits);
  }

  lemma OpenAfterRevealEntry(env: Env, prev: seq<Item>, e: Entry)
    requires MatchedAt(env, prev, RevealEntryItem(e))
    ensures Open(env, prev + [RevealEntryItem(e)]) + CostOf(e) <= Open(env, prev)
  {
    hide Sum, EntryHash, EntryCost, Pays, MarshalEntry;
    var log := prev + [RevealEntryItem(e)];
    assert log[..|prev|] == prev;
    var m, x := PendingEntries(env.h, prev), EntryHash(env.h, e);
    PaysMeans(m[x].credits, e);
    assert EntryCredits(m - {x}) == EntryCredits(m) - {x};
    SumRemove(EntryCredits(m), x);
  }

  lemma OpenAfterRevealChain(env: Env, prev: seq<Item>, e: Entry)
    requires MatchedAt(env, prev, RevealChainItem(e))
    ensures Open(env, prev + [RevealChainItem(e)]) + CostOf(e) + 10 <= Open(env, prev)
  {
    hide Sum, EntryHash, EntryCost, Pays, MarshalEntry;
    var log := prev + [RevealChainItem(e)];
    assert log[..|prev|] == prev;
    var m, x := PendingChains(env.h, prev), EntryHash(env.h, e);
    PaysMeans(m[x].credits - 10, e);
    assert ChainCredits(m - {x}) == ChainCredits(m) - {x};
    SumRemove(ChainCredits(m), x);
  }

  /** Every credit committed is either still open or has been enough for what it published. */
  lemma {:induction false} PublishedIsPaid(env: Env, log: seq<Item>)
    requires Matched(env, log)
    ensures Published(log) + Open(env, log) <= Committed(log)
    decreases |log|
  {
    hide Open, MatchedAt, CostOf;
    if log == [] {
      OpenEmpty(env);
    } else {
      var n := |log| - 1;
      var prev, i := log[..n], log[n];
      assert log == prev + [i];
      MatchedPrefix(env, log, n);
      PublishedIsPaid(env, prev);
      assert MatchedAt(env, prev, i);
      match i
      case CommitEntryItem(c) => OpenAfterCommitEntry(env, prev, c);
      case CommitChainItem(c) => OpenAfterCommitChain(env, prev, c);
      case RevealEntryItem(e) => OpenAfterRevealEntry(env, prev, e);
      case RevealChainItem(e) => OpenAfterRevealChain(env, prev, e);
      case FactoidItem(_) => OpenUnchanged(env, prev, i);
      case MinuteItem(_) => OpenUnchanged(env, prev, i);
    }
  }

  lemma OpenEmpty(env: Env)
    ensures Open(env, []) == 0
  {
    assert EntryCredits(map[]) == map[] && ChainCredits(map[]) == map[];
  }

  lemma OpenUnchanged(env: Env, prev: seq<Item>, i: Item)
    requires i.FactoidItem? || i.MinuteItem?
    ensures Open(env, prev + [i]) == Open(env, prev)
  {
    assert (prev + [i])[..|prev|] == prev;
  }
}
