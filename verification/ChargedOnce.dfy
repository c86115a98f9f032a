/** No signed message is charged twice: the replay filter in front of the handlers, the time inside
    the signed part, and the orphan pool that commits never reach. */
module ChargedOnce {
  import opened Basics
  import opened Entries
  import opened Messages
  import opened Ledger
  import opened ReplayFilter

  /** What the replay filter remembers about an item that moves credits. */
  function KeyOf(h: Hashing, i: Item): Option<(Digest, int)> {
    match i
    case CommitEntryItem(c) => Some((CommitEntrySigHash(h, c), Hours(GetMilliTime(c.milliTime) / 1000)))
    case CommitChainItem(c) => Some((CommitChainSigHash(h, c), Hours(GetMilliTime(c.milliTime) / 1000)))
    case FactoidItem(tx) => Some((tx.sigHash, Hours(tx.milliTimestamp / 1000)))
    case RevealEntryItem(_) => None
    case RevealChainItem(_) => None
    case MinuteItem(_) => None
  }

  /** The keys of the accepted items are all remembered, and all different. */
  predicate Once(h: Hashing, seen: Log, log: seq<Item>) {
    && (forall i :: 0 <= i < |log| && KeyOf(h, log[i]).Some? ==> KeyOf(h, log[i]).value in seen)
    && (forall i, j :: 0 <= i < j < |log| && KeyOf(h, log[i]).Some? ==> KeyOf(h, log[i]) != KeyOf(h, log[j]))
  }

  /** Nothing but reveals waits in the orphan pool, and the process list limit is never reached. */
  predicate Limits(f: Front) {
    f.totalItems == 0 && forall k :: k in f.orphans ==> f.orphans[k].MsgRevealEntry?
  }

  lemma UnkeyedKeepsOnce(h: Hashing, seen: Log, log: seq<Item>, i: Item)
    requires Once(h, seen, log) && KeyOf(h, i) == None
    ensures Once(h, seen, log + [i])
  {
    hide KeyOf;
  }

  /** A key that was fresh a moment ago and is remembered now may be used once. */
  lemma FreshKeyKeepsOnce(h: Hashing, before: Log, seen: Log, log: seq<Item>, i: Item)
    requires Once(h, before, log) && before <= seen
    requires KeyOf(h, i).Some? && KeyOf(h, i).value in seen && KeyOf(h, i).value !in before
    ensures Once(h, seen, log + [i])
  {
    hide KeyOf;
    var all := log + [i];
    forall a, b | 0 <= a < b < |all| && KeyOf(h, all[a]).Some?
      ensures KeyOf(h, all[a]) != KeyOf(h, all[b])
    {
      if b == |log| {
        assert KeyOf(h, log[a]).value in before;
      }
    }
  }

  lemma GrowingSeenKeepsOnce(h: Hashing, before: Log, seen: Log, log: seq<Item>)
    requires Once(h, before, log) && before <= seen
    ensures Once(h, seen, log)
  {
  }

  /** A commit, an entry credit purchase and the replay check, together. */
  lemma ServeKeepsOnce(env: Env, f: Front, ev: Event)
    requires f.rate > 0 && Limits(f) && Once(env.h, f.seen, f.log)
    ensures var g := Serve(env, f, ev).0; Once(env.h, g.seen, g.log)
  {
    match ev
    case OnCommitChain(c, valid, now, clock) => CommitChainOnce(env, f, c, valid, now, clock);
    case OnCommitEntry(c, valid, now, clock) => CommitEntryOnce(env, f, c, valid, now, clock);
    case OnRevealEntry(e, valid) => RevealOnce(env, f, e);
    case OnFactoidTX(tx, valid, now, added) => FactoidOnce(env, f, tx, valid, now, added);
    case OnMinute(m) => UnkeyedKeepsOnce(env.h, f.seen, f.log, MinuteItem(m));
  }

  lemma CommitChainOnce(env: Env, f: Front, c: CommitChain, valid: bool, now: int, clock: int)
    requires f.rate > 0 && f.totalItems == 0 && Once(env.h, f.seen, f.log)
    ensures var g := Serve(env, f, OnCommitChain(c, valid, now, clock)).0; Once(env.h, g.seen, g.log)
  {
    hide Once, ToInt32, Hours, CommitChainSigHash, InTime;
    var t := GetMilliTime(c.milliTime) / 1000;
    if Fresh(f.seen, CommitChainSigHash(env.h, c), t, now) {
      var seen := Record(f.seen, CommitChainSigHash(env.h, c), t, now);
      GrowingSeenKeepsOnce(env.h, f.seen, seen, f.log);
      FreshKeyKeepsOnce(env.h, f.seen, seen, f.log, CommitChainItem(c));
    }
  }

  lemma CommitEntryOnce(env: Env, f: Front, c: CommitEntry, valid: bool, now: int, clock: int)
    requires f.rate > 0 && f.totalItems == 0 && Once(env.h, f.seen, f.log)
    ensures var g := Serve(env, f, OnCommitEntry(c, valid, now, clock)).0; Once(env.h, g.seen, g.log)
  {
    hide Once, ToInt32, Hours, CommitEntrySigHash, InTime;
    var t := GetMilliTime(c.milliTime) / 1000;
    if Fresh(f.seen, CommitEntrySigHash(env.h, c), t, now) {
      var seen := Record(f.seen, CommitEntrySigHash(env.h, c), t, now);
      GrowingSeenKeepsOnce(env.h, f.seen, seen, f.log);
      FreshKeyKeepsOnce(env.h, f.seen, seen, f.log, CommitEntryItem(c));
    }
  }

  lemma FactoidOnce(env: Env, f: Front, tx: FctTx, valid: bool, now: int, added: bool)
    requires f.rate > 0 && f.totalItems == 0 && Once(env.h, f.seen, f.log)
    ensures var g := Serve(env, f, OnFactoidTX(tx, valid, now, added)).0; Once(env.h, g.seen, g.log)
  {
    hide Once, ToInt32, Hours, AddOutputs;
    var t := tx.milliTimestamp / 1000;
    if Fresh(f.seen, tx.sigHash, t, now) {
      var seen := Record(f.seen, tx.sigHash, t, now);
      GrowingSeenKeepsOnce(env.h, f.seen, seen, f.log);
      FreshKeyKeepsOnce(env.h, f.seen, seen, f.log, FactoidItem(tx));
    }
  }

  lemma RevealOnce(env: Env, f: Front, e: Entry)
    requires Once(env.h, f.seen, f.log)
    ensures var g := ProcessRevealEntry(env, f, e).0; Once(env.h, g.seen, g.log)
  {
    hide Once, ProcessRevealEntry;
    RevealShape(env, f, e);
    UnkeyedKeepsOnce(env.h, f.seen, f.log, RevealEntryItem(e));
    UnkeyedKeepsOnce(env.h, f.seen, f.log, RevealChainItem(e));
    assert f.log + [] == f.log;
  }

  // ---------------------------------------------------------------- the pool and the limit

  lemma RevealKeepsLimits(env: Env, f: Front, e: Entry)
    requires Limits(f)
    ensures Limits(ProcessRevealEntry(env, f, e).0)
  {
    hide ProcessRevealEntry;
    RevealShape(env, f, e);
  }

  // ---------------------------------------------------------------- what it means

  /** The same signed bytes ask for the same key. */
  lemma SameSignedPart(h: Hashing, a: Item, b: Item)
    requires (a.CommitEntryItem? && b.CommitEntryItem? && CommitEntryMsg(a.ce) == CommitEntryMsg(b.ce))
      || (a.CommitChainItem? && b.CommitChainItem? && CommitChainMsg(a.cc) == CommitChainMsg(b.cc))
    ensures KeyOf(h, a) == KeyOf(h, b)
  {
    if a.CommitEntryItem? {
      SignedPartFixesTime(a.ce, b.ce);
    } else {
      SignedChainPartFixesTime(a.cc, b.cc);
    }
  }

  /** The signed bytes of a commit item. */
  function SignedBytes(i: Item): Bytes
    requires i.CommitEntryItem? || i.CommitChainItem?
  {
    if i.CommitEntryItem? then CommitEntryMsg(i.ce) else CommitChainMsg(i.cc)
  }

  lemma SignedLengths(h: Hashing, i: Item)
    requires i.CommitEntryItem? || i.CommitChainItem?
    ensures |SignedBytes(i)| == if i.CommitEntryItem? then 40 else 104
    ensures KeyOf(h, i).Some?
  {
  }

  /** Over a whole run no two accepted commits carry the same signed bytes; and if two carry the same
      signature hash, their signed bytes are a SHA-256 collision. */
  lemma NeverChargedTwice(h: Hashing, seen: Log, log: seq<Item>, i: nat, j: nat)
    requires Once(h, seen, log) && i < j < |log|
    requires log[i].CommitEntryItem? || log[i].CommitChainItem?
    requires log[j].CommitEntryItem? || log[j].CommitChainItem?
    ensures SignedBytes(log[i]) != SignedBytes(log[j])
    ensures h.sha256(SignedBytes(log[i])) == h.sha256(SignedBytes(log[j])) ==>
      Collides(h, SignedBytes(log[i]), SignedBytes(log[j]))
  {
    hide KeyOf, CommitEntryMsg, CommitChainMsg;
    SignedLengths(h, log[i]);
    SignedLengths(h, log[j]);
    if SignedBytes(log[i]) == SignedBytes(log[j]) {
      SameSignedPart(h, log[i], log[j]);
    }
  }
}
