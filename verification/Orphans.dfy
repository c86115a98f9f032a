/** The orphan pool: which reveals wait in it, and that one whose turn has come gets on the list before the
    period ends. */
module Orphans {
  import opened Basics
  import opened Entries
  import opened Messages
  import opened Ledger
  import opened Acceptance
  import opened ReplayFilter
  import opened Builder
  import opened Server
  import opened ServerBlocks
  import opened CloseProofs
  import opened Runs

  /** Every orphan is a reveal, under the hash that commits name it by. */
  predicate Keyed(h: Hashing, f: Front) {
    forall k :: k in f.orphans ==> f.orphans[k].MsgRevealEntry? && NameOf(h, f.orphans[k].entry) == k
  }

  /** The orphan's chain is known by now, and its commit pays. */
  predicate Waiting(f: Front, x: Digest) {
    x in f.orphans && f.orphans[x].MsgRevealEntry? && EntryRevealDue(f, f.orphans[x].entry, x)
  }

  // ---------------------------------------------------------------- keys

  lemma RevealKeepsKeyed(env: Env, f: Front, e: Entry)
    requires Keyed(env.h, f) && f.totalItems == 0
    ensures var g := ProcessRevealEntry(env, f, e).0; Keyed(env.h, g) && g.totalItems == 0
  {
    hide NameOf, ProcessRevealEntry, EntryRevealDue, ChainRevealDue, Waits, Registers, Fledgling;
    RevealAccepted(env, f, e);
  }

  lemma RetryKeepsKeyed(env: Env, f: Front, k: Digest, clock: int)
    requires Keyed(env.h, f) && f.totalItems == 0 && k in f.orphans
    ensures var g := RetryOrphan(env, f, k, clock); Keyed(env.h, g) && g.totalItems == 0
  {
    hide NameOf, ProcessRevealEntry;
    RevealKeepsKeyed(env, f, f.orphans[k].entry);
  }

  lemma {:induction false} DrainKeepsKeyed(env: Env, f: Front, order: seq<Digest>, clock: int)
    requires Keyed(env.h, f) && f.totalItems == 0
    ensures var g := ProcessFromOrphanPool(env, f, order, clock); Keyed(env.h, g) && g.totalItems == 0
    decreases |order|
  {
    hide Keyed, RetryOrphan;
    if order != [] {
      var n := |order| - 1;
      DrainKeepsKeyed(env, f, order[..n], clock);
      var g := ProcessFromOrphanPool(env, f, order[..n], clock);
      if order[n] in g.orphans {
        RetryKeepsKeyed(env, g, order[n], clock);
      }
    }
  }

  lemma ServeKeepsKeyed(env: Env, f: Front, ev: Event)
    requires f.rate > 0 && f.totalItems == 0 && Keyed(env.h, f)
    ensures Keyed(env.h, Serve(env, f, ev).0)
  {
    hide NameOf, ProcessRevealEntry, InTime, Fresh, Record, AddTo, AddOutputs, GetMilliTime;
    if ev.OnRevealEntry? {
      RevealKeepsKeyed(env, f, ev.entry);
    }
  }

  lemma StepKeepsKeyed(env: Env, loaded: set<Digest>, s: State, step: Step)
    requires Inv(env, loaded, s) && CanStep(env, s, step) && Keyed(env.h, s.front)
    ensures Keyed(env.h, DoStep(env, s, step).front)
  {
    InvFront(env, loaded, s);
    hide Inv, Keyed, Serve, CanBuild, SealAll, BuildBlocks, ProcessFromOrphanPool;
    match step
    case Message(ev) => ServeKeepsKeyed(env, s.front, ev);
    case Close(order, clock, c) =>
      DrainKeepsKeyed(env, s.front, order, clock);
      BuildBlocksShape(env, CloseList(env, s.front, order, clock), s.back, c);
      SameOrphans(env.h, ProcessFromOrphanPool(env, s.front, order, clock), DoStep(env, s, step).front);
  }

  lemma SameOrphans(h: Hashing, f: Front, g: Front)
    requires Keyed(h, f) && g.orphans == f.orphans
    ensures Keyed(h, g)
  {
  }

  /** In every reachable state only reveals wait, each under its own hash. */
  lemma {:induction false} OrphansOverRun(env: Env, states: seq<State>, steps: seq<Step>, n: nat)
    requires IsRun(env, states, steps) && n < |states| && Boot(env, states[0])
    ensures Keyed(env.h, states[n].front)
    decreases n
  {
    hide DoStep, CanStep, Inv, Keyed, Boot;
    if n == 0 {
      NothingWaits(env, states[0]);
    } else {
      BootInv(env, states[0]);
      RunKeepsInv(env, states[0].front.chains.Keys, states, steps, n - 1);
      OrphansOverRun(env, states, steps, n - 1);
      StepKeepsKeyed(env, states[0].front.chains.Keys, states[n - 1], steps[n - 1]);
    }
  }

  lemma NothingWaits(env: Env, s: State)
    requires Boot(env, s)
    ensures Keyed(env.h, s.front)
  {
    hide BackInv, ChainsAsRead, ChainsIdle;
  }

  // ---------------------------------------------------------------- the second try

  /** Retrying another orphan leaves a waiting one waiting. */
  lemma OtherRetry(env: Env, f: Front, k: Digest, clock: int, x: Digest)
    requires Keyed(env.h, f) && f.totalItems == 0 && k in f.orphans && k != x && Waiting(f, x)
    ensures var g := RetryOrphan(env, f, k, clock); Waiting(g, x) && g.orphans[x] == f.orphans[x] && f.items <= g.items
  {
    hide NameOf, ProcessRevealEntry, EntryRevealDue, ChainRevealDue, Waits, Registers, Fledgling;
    RevealAccepted(env, f, f.orphans[k].entry);
    StillDue(f, RetryOrphan(env, f, k, clock), f.orphans[x].entry, x);
  }

  lemma StillDue(f: Front, g: Front, e: Entry, x: Digest)
    requires EntryRevealDue(f, e, x) && f.chains.Keys <= g.chains.Keys
    requires x in f.commitEntries ==> x in g.commitEntries && g.commitEntries[x] == f.commitEntries[x]
    ensures EntryRevealDue(g, e, x)
  {
    hide Pays, Unreserved;
  }

  /** Retrying it lists it and uses up its commit. */
  lemma OwnRetry(env: Env, f: Front, clock: int, x: Digest)
    requires Keyed(env.h, f) && f.totalItems == 0 && Waiting(f, x)
    ensures var g := RetryOrphan(env, f, x, clock);
      g.items == f.items + [RevealEntryItem(f.orphans[x].entry)] && x !in g.orphans && x !in g.commitEntries
  {
    hide NameOf, ProcessRevealEntry, ChainRevealDue, Waits, Registers, Fledgling, Pays, Unreserved;
    RevealAccepted(env, f, f.orphans[x].entry);
  }

  /** Later retries undo none of that. */
  lemma LaterRetry(env: Env, f: Front, k: Digest, clock: int, x: Digest)
    requires Keyed(env.h, f) && f.totalItems == 0 && k in f.orphans && x !in f.orphans && x !in f.commitEntries
    ensures var g := RetryOrphan(env, f, k, clock); x !in g.orphans && x !in g.commitEntries && f.items <= g.items
  {
    hide NameOf, ProcessRevealEntry, EntryRevealDue, ChainRevealDue, Waits, Registers, Fledgling;
    RevealAccepted(env, f, f.orphans[k].entry);
  }

  lemma {:induction false} StaysWaiting(env: Env, f: Front, order: seq<Digest>, clock: int, x: Digest)
    requires Keyed(env.h, f) && f.totalItems == 0 && Waiting(f, x) && x !in order
    ensures var g := ProcessFromOrphanPool(env, f, order, clock);
      Waiting(g, x) && g.orphans[x] == f.orphans[x] && f.items <= g.items
    decreases |order|
  {
    hide Keyed, Waiting, RetryOrphan;
    WaitingMeans(f, x);
    if order != [] {
      var n := |order| - 1;
      StaysWaiting(env, f, order[..n], clock, x);
      DrainKeepsKeyed(env, f, order[..n], clock);
      var g := ProcessFromOrphanPool(env, f, order[..n], clock);
      if order[n] in g.orphans {
        OtherRetry(env, g, order[n], clock, x);
      }
    }
  }

  lemma WaitingMeans(f: Front, x: Digest)
    requires Waiting(f, x)
    ensures x in f.orphans && f.orphans[x].MsgRevealEntry?
  {
  }

  /** However the pool is walked, an orphan that has come due is listed, leaves the pool and uses up its
      commit. */
  lemma {:induction false} WaitingIsListed(env: Env, f: Front, order: seq<Digest>, clock: int, x: Digest)
    requires Keyed(env.h, f) && f.totalItems == 0 && Waiting(f, x) && x in order
    ensures var g := ProcessFromOrphanPool(env, f, order, clock);
      && f.items <= g.items && RevealEntryItem(f.orphans[x].entry) in g.items[|f.items|..]
      && x !in g.orphans && x !in g.commitEntries
    decreases |order|
  {
    hide Keyed, Waiting, RetryOrphan;
    WaitingMeans(f, x);
    var n := |order| - 1;
    var g := ProcessFromOrphanPool(env, f, order[..n], clock);
    DrainKeepsKeyed(env, f, order[..n], clock);
    if x in order[..n] {
      WaitingIsListed(env, f, order[..n], clock, x);
      if order[n] in g.orphans {
        LaterRetry(env, g, order[n], clock, x);
        Longer(f.items, g.items, RetryOrphan(env, g, order[n], clock).items, RevealEntryItem(f.orphans[x].entry));
      }
    } else {
      StaysWaiting(env, f, order[..n], clock, x);
      WaitingMeans(g, x);
      OwnRetry(env, g, clock, x);
      assert (g.items + [RevealEntryItem(f.orphans[x].entry)])[|g.items|] == RevealEntryItem(f.orphans[x].entry);
    }
  }

  lemma Longer(a: seq<Item>, b: seq<Item>, c: seq<Item>, i: Item)
    requires a <= b <= c && i in b[|a|..]
    ensures a <= c && i in c[|a|..]
  {
    var k :| 0 <= k < |b[|a|..]| && b[|a|..][k] == i;
    assert c[|a|..][k] == c[|a| + k] == b[|a| + k];
  }

  /** A second chance: a reveal that was kept because its chain was not there yet, and whose chain has been
      created since, is on the list of the period when the period ends. */
  lemma SecondChance(env: Env, states: seq<State>, steps: seq<Step>, n: nat, x: Digest)
    requires IsRun(env, states, steps) && n < |steps| && Boot(env, states[0]) && steps[n].Close?
    requires Waiting(states[n].front, x) && x in steps[n].order
    ensures var (f, g) := (states[n].front, CloseList(env, states[n].front, steps[n].order, steps[n].clock));
      && f.items <= g.items && RevealEntryItem(f.orphans[x].entry) in g.items[|f.items|..]
      && g.items[|g.items| - 1] == MinuteItem(10)
      && x !in g.orphans && x !in g.commitEntries
  {
    hide Boot, DoStep, CanStep, Inv, Keyed, Waiting, ProcessFromOrphanPool;
    BootInv(env, states[0]);
    RunKeepsInv(env, states[0].front.chains.Keys, states, steps, n);
    InvFront(env, states[0].front.chains.Keys, states[n]);
    OrphansOverRun(env, states, steps, n);
    WaitingMeans(states[n].front, x);
    WaitingIsListed(env, states[n].front, steps[n].order, steps[n].clock, x);
    var g := ProcessFromOrphanPool(env, states[n].front, steps[n].order, steps[n].clock);
    Longer(states[n].front.items, g.items, g.items + [MinuteItem(10)], RevealEntryItem(states[n].front.orphans[x].entry));
  }
}
