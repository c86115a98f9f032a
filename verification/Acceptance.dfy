/** Exactly when a message is accepted, and what it then changes: the tests of the handlers in seconds,
    credits and bytes. */
module Acceptance {
  import opened Basics
  import opened Entries
  import opened Messages
  import opened Ledger
  import opened ReplayFilter
  import opened Balances
  import EBlock

  // ---------------------------------------------------------------- commits

  /** The commit is stamped in time, no other is open for its entry, and it takes at most ten credits,
      which its key has. */
  predicate EntryDue(f: Front, c: CommitEntry, clock: int) {
    && Near(BEValue(c.milliTime) / 1000, clock)
    && c.entryHash !in f.commitEntries && c.credits <= 10 && c.credits <= Balance(f.credits, c.ecPubKey)
  }

  /** For a chain commit the limit is twenty. */
  predicate ChainDue(f: Front, c: CommitChain, clock: int) {
    && Near(BEValue(c.milliTime) / 1000, clock)
    && c.entryHash !in f.commitChains && c.credits <= 20 && c.credits <= Balance(f.credits, c.ecPubKey)
  }

  function Charged(credits: map<Digest, int>, key: Digest, n: int): map<Digest, int> {
    credits[key := ToInt32((if key in credits then credits[key] else 0) - n)]
  }

  /** A balance that covers the charge goes down by exactly that. */
  lemma ChargeIsExact(credits: map<Digest, int>, key: Digest, n: nat)
    requires n <= Balance(credits, key) < TWO_31
    ensures Charged(credits, key, n) == credits[key := Balance(credits, key) - n]
  {
  }

  /** An entry commit goes onto the process list exactly if it is due and there is room; then its key is
      charged and it is open. One that is not due changes nothing; one that finds no room is charged and
      waits with the orphans, if there is room there. */
  lemma EntryCommitAccepted(env: Env, f: Front, c: CommitEntry, clock: int)
    ensures var (g, o) := ProcessCommitEntry(env, f, c, clock);
      var charged := f.(commitEntries := f.commitEntries[c.entryHash := c],
          credits := Charged(f.credits, c.ecPubKey, c.credits));
      && (g.items == f.items + [CommitEntryItem(c)] <==> EntryDue(f, c, clock) && f.totalItems < 150000)
      && (g.items == f.items + [CommitEntryItem(c)] ==>
            o == Done && g == charged.(items := f.items + [CommitEntryItem(c)], log := f.log + [CommitEntryItem(c)]))
      && (!EntryDue(f, c, clock) ==> o.Refused? && g == f)
      && (EntryDue(f, c, clock) && f.totalItems >= 150000 ==>
            if |f.orphans| > 5000 then o == Refused(PoolFull) && g == charged
            else o == Done && g == charged.(orphans := f.orphans[env.wireSha(MsgCommitEntry(c)) := MsgCommitEntry(c)]))
  {
    hide Near, InTime, BEValue, ToInt32;
    InTimeMeans(c.milliTime, clock);
    LongerList(f.items, CommitEntryItem(c));
  }

  /** The same for chain commits. */
  lemma ChainCommitAccepted(env: Env, f: Front, c: CommitChain, clock: int)
    ensures var (g, o) := ProcessCommitChain(env, f, c, clock);
      var charged := f.(commitChains := f.commitChains[c.entryHash := c],
          credits := Charged(f.credits, c.ecPubKey, c.credits));
      && (g.items == f.items + [CommitChainItem(c)] <==> ChainDue(f, c, clock) && f.totalItems < 150000)
      && (g.items == f.items + [CommitChainItem(c)] ==>
            o == Done && g == charged.(items := f.items + [CommitChainItem(c)], log := f.log + [CommitChainItem(c)]))
      && (!ChainDue(f, c, clock) ==> o.Refused? && g == f)
      && (ChainDue(f, c, clock) && f.totalItems >= 150000 ==>
            if |f.orphans| > 5000 then o == Refused(PoolFull) && g == charged
            else o == Done && g == charged.(orphans := f.orphans[env.wireSha(MsgCommitChain(c)) := MsgCommitChain(c)]))
  {
    hide Near, InTime, BEValue, ToInt32;
    InTimeMeans(c.milliTime, clock);
    LongerList(f.items, CommitChainItem(c));
  }

  lemma LongerList(items: seq<Item>, i: Item)
    ensures items != items + [i]
  {
    assert |items + [i]| == |items| + 1;
  }

  /** The time in seconds is in the filter's window, in hours, and the signature hash was not accepted for
      its hour before. */
  predicate Timely(seen: Log, hash: Digest, t: int, now: int) {
    now / 3600 - 12 <= t / 3600 <= now / 3600 + 11 && (hash, t / 3600) !in seen
  }

  /** From the queue an entry commit must also pass the replay filter, which remembers it. */
  lemma EntryCommitServed(env: Env, f: Front, c: CommitEntry, now: int, clock: int)
    requires f.rate > 0 && now >= 0 && f.totalItems < 150000
    ensures var (g, o) := Serve(env, f, OnCommitEntry(c, true, now, clock));
      var (x, t) := (env.h.sha256(CommitEntryMsg(c)), BEValue(c.milliTime) / 1000);
      && (o == Done <==> Timely(f.seen, x, t, now) && EntryDue(f, c, clock))
      && g.seen == (if Timely(f.seen, x, t, now) then f.seen + {(x, t / 3600)} else f.seen)
      && (o == Done ==>
            g == f.(seen := g.seen, commitEntries := f.commitEntries[c.entryHash := c],
                    credits := Charged(f.credits, c.ecPubKey, c.credits),
                    items := f.items + [CommitEntryItem(c)], log := f.log + [CommitEntryItem(c)]))
      && (o != Done ==> g == f.(seen := g.seen))
  {
    hide EntryDue, Fresh, Record, BEValue, CommitEntryMsg, ProcessCommitEntry, Charged;
    var (x, t) := (CommitEntrySigHash(env.h, c), GetMilliTime(c.milliTime) / 1000);
    FreshInSeconds(f.seen, x, t, now);
    var g := f.(seen := Record(f.seen, x, t, now));
    EntryCommitAccepted(env, g, c, clock);
    EntryDueIgnoresFilter(f, c, clock, g.seen);
  }

  lemma EntryDueIgnoresFilter(f: Front, c: CommitEntry, clock: int, seen: Log)
    ensures EntryDue(f.(seen := seen), c, clock) <==> EntryDue(f, c, clock)
  {
  }

  lemma ChainCommitServed(env: Env, f: Front, c: CommitChain, now: int, clock: int)
    requires f.rate > 0 && now >= 0 && f.totalItems < 150000
    ensures var (g, o) := Serve(env, f, OnCommitChain(c, true, now, clock));
      var (x, t) := (env.h.sha256(CommitChainMsg(c)), BEValue(c.milliTime) / 1000);
      && (o == Done <==> Timely(f.seen, x, t, now) && ChainDue(f, c, clock))
      && g.seen == (if Timely(f.seen, x, t, now) then f.seen + {(x, t / 3600)} else f.seen)
      && (o == Done ==>
            g == f.(seen := g.seen, commitChains := f.commitChains[c.entryHash := c],
                    credits := Charged(f.credits, c.ecPubKey, c.credits),
                    items := f.items + [CommitChainItem(c)], log := f.log + [CommitChainItem(c)]))
      && (o != Done ==> g == f.(seen := g.seen))
  {
    hide ChainDue, Fresh, Record, BEValue, CommitChainMsg, ProcessCommitChain, Charged;
    var (x, t) := (CommitChainSigHash(env.h, c), GetMilliTime(c.milliTime) / 1000);
    FreshInSeconds(f.seen, x, t, now);
    var g := f.(seen := Record(f.seen, x, t, now));
    ChainCommitAccepted(env, g, c, clock);
    ChainDueIgnoresFilter(f, c, clock, g.seen);
  }

  lemma ChainDueIgnoresFilter(f: Front, c: CommitChain, clock: int, seen: Log)
    ensures ChainDue(f.(seen := seen), c, clock) <==> ChainDue(f, c, clock)
  {
  }

  // ---------------------------------------------------------------- reveals

  /** The hash that a commit names its entry by. */
  function NameOf(h: Hashing, e: Entry): Digest {
    var bin := MarshalEntry(e);
    h.sha256(h.sha512(bin) + bin)
  }

  lemma NameIsHash(h: Hashing, e: Entry)
    ensures NameOf(h, e) == EntryHash(h, e)
  {
  }

  /** Not one of the five ids that the server keeps to itself. */
  predicate Unreserved(cid: Digest) {
    !(cid[..31] == Zeros(31) && cid[31] in {0x00, 0x0a, 0x0c, 0x0d, 0x0f})
  }

  /** A paid entry of a known chain. */
  predicate EntryRevealDue(f: Front, e: Entry, x: Digest) {
    Unreserved(e.chainID) && x in f.commitEntries && e.chainID in f.chains && Pays(f.commitEntries[x].credits, e)
  }

  /** A paid first entry of an unknown chain, with the right id; an open entry commit comes first. */
  predicate ChainRevealDue(h: Hashing, f: Front, e: Entry, x: Digest) {
    && Unreserved(e.chainID) && x !in f.commitEntries && x in f.commitChains && e.chainID !in f.chains
    && Founds(h, f.commitChains[x], e)
  }

  /** A reveal that is kept for a second try: its chain is not there yet, or is there already, or its
      commit does not pay for it. */
  predicate Waits(f: Front, e: Entry, x: Digest) {
    && Unreserved(e.chainID)
    && if x in f.commitEntries then
         e.chainID !in f.chains || (|MarshalEntry(e)| <= 35 + 10240 && !Pays(f.commitEntries[x].credits, e))
       else
         && x in f.commitChains
         && (e.chainID in f.chains || (|MarshalEntry(e)| <= 35 + 10240 && !Pays(f.commitChains[x].credits - 10, e)))
  }

  /** The chain is registered before the reveal is checked. */
  predicate Registers(f: Front, e: Entry, x: Digest) {
    Unreserved(e.chainID) && x !in f.commitEntries && x in f.commitChains && e.chainID !in f.chains
  }

  function Fledgling(e: Entry): EBlock.EChain {
    EBlock.EChain(e.chainID, e, EBlock.Block(EBlock.Header(ZERO_HASH, ZERO_HASH, ZERO_HASH, ZERO_HASH, 0, 0, 0), []), 0)
  }

  /** What is left of a state that a reveal was refused in. */
  predicate RefusedFrom(f: Front, g: Front, e: Entry, x: Digest) {
    && g == f.(chains := g.chains, orphans := g.orphans)
    && g.chains == (if Registers(f, e, x) then f.chains[e.chainID := Fledgling(e)] else f.chains)
    && g.orphans == if Waits(f, e, x) && |f.orphans| <= 5000 then f.orphans[x := MsgRevealEntry(e)] else f.orphans
  }

  predicate AcceptedFrom(f: Front, g: Front, e: Entry, x: Digest) {
    if x in f.commitEntries then
      g == f.(items := f.items + [RevealEntryItem(e)], log := f.log + [RevealEntryItem(e)],
          commitEntries := f.commitEntries - {x})
    else
      g == f.(items := f.items + [RevealChainItem(e)], log := f.log + [RevealChainItem(e)],
          commitChains := f.commitChains - {x},
              chains := f.chains[e.chainID := Fledgling(e)])
  }

  lemma EntryRevealAccepted(env: Env, f: Front, e: Entry, x: Digest)
    requires f.totalItems < 150000 && x in f.commitEntries && Unreserved(e.chainID)
    ensures var (g, o) := RevealCommittedEntry(env, f, e, x);
      && (o == Done <==> EntryRevealDue(f, e, x))
      && if o == Done then AcceptedFrom(f, g, e, x) else RefusedFrom(f, g, e, x)
  {
    hide MarshalEntry, EntryCost, Pays, Unreserved;
    PaysMeans(f.commitEntries[x].credits, e);
    EntryCostMeaning(MarshalEntry(e));
  }

  /** What the checks of a chain reveal say about the price. */
  lemma FaultKinds(env: Env, c: CommitChain, e: Entry)
    ensures ChainRevealFault(env, c, e) == Some(Underpaid)
        <==> |MarshalEntry(e)| <= 35 + 10240 && !Pays(c.credits - 10, e)
  {
    hide MarshalEntry, EntryCost, Pays, NewChainID, DoubleSha;
    PaysMeans(c.credits - 10, e);
    EntryCostMeaning(MarshalEntry(e));
  }

  lemma ChainRevealAccepted(env: Env, f: Front, e: Entry, x: Digest)
    requires f.totalItems < 150000 && x !in f.commitEntries && x in f.commitChains && Unreserved(e.chainID)
    ensures var (g, o) := RevealCommittedChain(env, f, e, x);
      && (o == Done <==> ChainRevealDue(env.h, f, e, x))
      && if o == Done then AcceptedFrom(f, g, e, x) else RefusedFrom(f, g, e, x)
  {
    hide MarshalEntry, ChainRevealFault, Pays, Founds, Unreserved;
    FaultMeans(env, f.commitChains[x], e);
    FaultKinds(env, f.commitChains[x], e);
  }

  /** A reveal is accepted exactly if it is due, as an entry of its chain or as the first of a new one, and
      then uses up its commit. One that is refused leaves at most its chain registered and itself among
      the orphans. */
  lemma RevealAccepted(env: Env, f: Front, e: Entry)
    requires f.totalItems < 150000
    ensures var (g, o) := ProcessRevealEntry(env, f, e); var x := NameOf(env.h, e);
      && (o == Done <==> EntryRevealDue(f, e, x) || ChainRevealDue(env.h, f, e, x))
      && if o == Done then AcceptedFrom(f, g, e, x) else RefusedFrom(f, g, e, x)
  {
    hide MarshalEntry, RevealCommittedEntry, RevealCommittedChain, Pays, Founds, Unreserved, Reserved;
    var x := NameOf(env.h, e);
    assert x == EntryHash(env.h, e);
    UnreservedMeans(e.chainID);
    if Unreserved(e.chainID) && x in f.commitEntries {
      EntryRevealAccepted(env, f, e, x);
    } else if Unreserved(e.chainID) && x in f.commitChains {
      ChainRevealAccepted(env, f, e, x);
    }
  }

  lemma UnreservedMeans(cid: Digest)
    ensures Unreserved(cid) <==> !Reserved(cid)
  {
    ReservedMeans(cid);
    hide Reserved;
  }

  // ---------------------------------------------------------------- an honest user

  /** The clock readings of one message: seconds for the replay filter, and nanoseconds taken up to an hour
      later for the handler. */
  predicate Readings(now: int, clock: int) {
    now >= 0 && 0 <= clock - now * 1_000_000_000 < 3600 * 1_000_000_000
  }

  /** Stamped at most eleven hours from the filter's reading, and signed bytes that were never accepted. */
  predicate FreshlySigned(h: Hashing, seen: Log, signed: Bytes, t: int, now: int) {
    -11 * 3600 <= t - now <= 11 * 3600 && forall p :: p in seen ==> p.0 != h.sha256(signed)
  }

  lemma FreshlySignedPasses(h: Hashing, seen: Log, signed: Bytes, t: int, now: int, clock: int)
    requires Readings(now, clock) && t >= 0 && FreshlySigned(h, seen, signed, t, now)
    ensures Timely(seen, h.sha256(signed), t, now) && Near(t, clock)
  {
  }

  /** An honest entry gets on the list: a commit stamped within eleven hours, with a signature never seen,
      for an entry that has no open commit, of a known chain, with up to ten credits that cover the entry's
      size and that the key has; and then the reveal. The key is charged once and the commit is used up. */
  lemma HonestEntryIsListed(env: Env, f: Front, c: CommitEntry, e: Entry, now: int, clock: int)
    requires f.rate > 0 && f.totalItems == 0 && Readings(now, clock)
    requires FreshlySigned(env.h, f.seen, CommitEntryMsg(c), BEValue(c.milliTime) / 1000, now)
    requires c.entryHash == NameOf(env.h, e) && c.entryHash !in f.commitEntries
    requires Unreserved(e.chainID) && e.chainID in f.chains
    requires 1 <= c.credits <= 10 && |MarshalEntry(e)| - 35 <= 1024 * c.credits
    requires c.ecPubKey in f.credits && c.credits <= f.credits[c.ecPubKey] < TWO_31
    ensures var g := Serve(env, f, OnCommitEntry(c, true, now, clock)).0;
      g.rate > 0 &&
      var (k, o) := Serve(env, g, OnRevealEntry(e, true));
      && o == Done && k.items == f.items + [CommitEntryItem(c), RevealEntryItem(e)]
      && k.log == f.log + [CommitEntryItem(c), RevealEntryItem(e)]
      && k.credits == f.credits[c.ecPubKey := f.credits[c.ecPubKey] - c.credits]
      && k.commitEntries == f.commitEntries && k.chains == f.chains
  {
    hide *;
    FreshlySignedPasses(env.h, f.seen, CommitEntryMsg(c), BEValue(c.milliTime) / 1000, now, clock);
    ReadingsMean(now, clock);
    EntryIsDue(f, c, clock);
    EntryCommitServed(env, f, c, now, clock);
    var g := Serve(env, f, OnCommitEntry(c, true, now, clock)).0;
    ChargedIs(f.credits, c.ecPubKey, c.credits);
    EntryIsPaid(g, c, e);
    RevealServed(env, g, e);
    RevealAccepted(env, g, e);
    EntryOnList(f, g, ProcessRevealEntry(env, g, e).0, c, e);
  }

  lemma EntryIsDue(f: Front, c: CommitEntry, clock: int)
    requires Near(BEValue(c.milliTime) / 1000, clock) && c.entryHash !in f.commitEntries
    requires c.credits <= 10 && c.ecPubKey in f.credits && c.credits <= f.credits[c.ecPubKey]
    ensures EntryDue(f, c, clock)
  {
    hide Near, BEValue;
  }

  lemma ChargedIs(credits: map<Digest, int>, key: Digest, n: nat)
    requires key in credits && n <= credits[key] < TWO_31
    ensures Charged(credits, key, n) == credits[key := credits[key] - n]
  {
  }

  lemma EntryIsPaid(f: Front, c: CommitEntry, e: Entry)
    requires Unreserved(e.chainID) && e.chainID in f.chains && c.entryHash in f.commitEntries
        && f.commitEntries[c.entryHash] == c
    requires 1 <= c.credits <= 10 && |MarshalEntry(e)| - 35 <= 1024 * c.credits
    ensures EntryRevealDue(f, e, c.entryHash)
  {
    hide Unreserved, MarshalEntry;
  }

  /** The commit and then the reveal on top of a state. */
  lemma EntryOnList(f: Front, g: Front, k: Front, c: CommitEntry, e: Entry)
    requires c.entryHash !in f.commitEntries && g.commitEntries == f.commitEntries[c.entryHash := c]
        && g.chains == f.chains
    requires g.items == f.items + [CommitEntryItem(c)] && g.log == f.log + [CommitEntryItem(c)]
    requires AcceptedFrom(g, k, e, c.entryHash)
    ensures k.items == f.items + [CommitEntryItem(c), RevealEntryItem(e)]
    ensures k.log == f.log + [CommitEntryItem(c), RevealEntryItem(e)]
    ensures k.credits == g.credits && k.commitEntries == f.commitEntries && k.chains == f.chains
  {
    TwoMore(f.items, CommitEntryItem(c), RevealEntryItem(e));
    TwoMore(f.log, CommitEntryItem(c), RevealEntryItem(e));
    UsedUp(f.commitEntries, c.entryHash, c);
  }

  lemma ReadingsMean(now: int, clock: int)
    requires Readings(now, clock)
    ensures now >= 0
  {
  }

  lemma RevealServed(env: Env, f: Front, e: Entry)
    requires f.rate > 0
    ensures Serve(env, f, OnRevealEntry(e, true)) == ProcessRevealEntry(env, f, e)
  {
  }

  lemma TwoMore(s: seq<Item>, a: Item, b: Item)
    ensures s + [a] + [b] == s + [a, b]
  {
  }

  lemma UsedUp<T>(m: map<Digest, T>, x: Digest, v: T)
    requires x !in m
    ensures m[x := v] - {x} == m
  {
  }

  /** And an honest chain: its commit pays ten credits more and holds the right hashes, and nobody knows the
      chain. It is then known, with the revealed entry as its first. */
  lemma HonestChainIsListed(env: Env, f: Front, c: CommitChain, e: Entry, now: int, clock: int)
    requires f.rate > 0 && f.totalItems == 0 && Readings(now, clock)
    requires FreshlySigned(env.h, f.seen, CommitChainMsg(c), BEValue(c.milliTime) / 1000, now)
    requires c.entryHash == NameOf(env.h, e) && c.entryHash !in f.commitChains && c.entryHash !in f.commitEntries
    requires Unreserved(e.chainID) && e.chainID !in f.chains
    requires 11 <= c.credits <= 20 && |MarshalEntry(e)| - 35 <= 1024 * (c.credits - 10)
    requires c.ecPubKey in f.credits && c.credits <= f.credits[c.ecPubKey] < TWO_31
    requires e.chainID == env.h.sha256(Joined(env.h, e.extIDs)) && c.chainIDHash == env.h.sha256(env.h.sha256(e.chainID))
    requires var x: Bytes, cid: Bytes := c.entryHash, e.chainID; c.weld == env.h.sha256(env.h.sha256(x + cid))
    ensures var g := Serve(env, f, OnCommitChain(c, true, now, clock)).0;
      g.rate > 0 &&
      var (k, o) := Serve(env, g, OnRevealEntry(e, true));
      && o == Done && k.items == f.items + [CommitChainItem(c), RevealChainItem(e)]
      && k.log == f.log + [CommitChainItem(c), RevealChainItem(e)]
      && k.credits == f.credits[c.ecPubKey := f.credits[c.ecPubKey] - c.credits]
      && k.commitChains == f.commitChains && k.chains == f.chains[e.chainID := Fledgling(e)]
  {
    hide *;
    FreshlySignedPasses(env.h, f.seen, CommitChainMsg(c), BEValue(c.milliTime) / 1000, now, clock);
    ReadingsMean(now, clock);
    ChainIsDue(f, c, clock);
    ChainCommitServed(env, f, c, now, clock);
    var g := Serve(env, f, OnCommitChain(c, true, now, clock)).0;
    ChargedIs(f.credits, c.ecPubKey, c.credits);
    ChainIsPaid(env.h, g, c, e);
    RevealServed(env, g, e);
    RevealAccepted(env, g, e);
    ChainOnList(f, g, ProcessRevealEntry(env, g, e).0, c, e);
  }

  lemma ChainIsDue(f: Front, c: CommitChain, clock: int)
    requires Near(BEValue(c.milliTime) / 1000, clock) && c.entryHash !in f.commitChains
    requires c.credits <= 20 && c.ecPubKey in f.credits && c.credits <= f.credits[c.ecPubKey]
    ensures ChainDue(f, c, clock)
  {
    hide Near, BEValue;
  }

  lemma ChainIsPaid(h: Hashing, f: Front, c: CommitChain, e: Entry)
    requires Unreserved(e.chainID) && e.chainID !in f.chains && c.entryHash !in f.commitEntries
    requires c.entryHash in f.commitChains && f.commitChains[c.entryHash] == c
    requires 11 <= c.credits <= 20 && |MarshalEntry(e)| - 35 <= 1024 * (c.credits - 10)
    requires e.chainID == h.sha256(Joined(h, e.extIDs)) && c.chainIDHash == h.sha256(h.sha256(e.chainID))
    requires var x: Bytes, cid: Bytes := c.entryHash, e.chainID; c.weld == h.sha256(h.sha256(x + cid))
    ensures ChainRevealDue(h, f, e, c.entryHash)
  {
    hide Unreserved, MarshalEntry, Joined;
  }

  lemma ChainOnList(f: Front, g: Front, k: Front, c: CommitChain, e: Entry)
    requires c.entryHash !in f.commitChains && c.entryHash !in f.commitEntries && g.commitEntries == f.commitEntries
    requires g.commitChains == f.commitChains[c.entryHash := c] && g.chains == f.chains
    requires g.items == f.items + [CommitChainItem(c)] && g.log == f.log + [CommitChainItem(c)]
    requires AcceptedFrom(g, k, e, c.entryHash)
    ensures k.items == f.items + [CommitChainItem(c), RevealChainItem(e)]
    ensures k.log == f.log + [CommitChainItem(c), RevealChainItem(e)]
    ensures k.credits == g.credits && k.commitChains == f.commitChains && k.chains == f.chains[e.chainID := Fledgling(e)]
  {
    hide Fledgling;
    TwoMore(f.items, CommitChainItem(c), RevealChainItem(e));
    TwoMore(f.log, CommitChainItem(c), RevealChainItem(e));
    UsedUp(f.commitChains, c.entryHash, c);
  }

  // ---------------------------------------------------------------- purchases and minutes

  /** A factoid transaction that the library takes is listed exactly if it passes the replay filter; then
      every balance goes up by the whole credits that the outputs to its key buy, in 32 bits. */
  lemma PurchaseServed(env: Env, f: Front, tx: FctTx, now: int)
    requires f.rate > 0 && now >= 0 && f.totalItems < 150000
    ensures var (g, o) := Serve(env, f, OnFactoidTX(tx, true, now, true)); var t := tx.milliTimestamp / 1000;
      && (o == Done <==> Timely(f.seen, tx.sigHash, t, now))
      && (o == Done ==>
            && g == f.(seen := f.seen + {(tx.sigHash, t / 3600)}, credits := g.credits,
                       items := f.items + [FactoidItem(tx)], log := f.log + [FactoidItem(tx)])
            && forall k :: -TWO_31 <= Balance(f.credits, k) < TWO_31 ==>
                 Balance(g.credits, k) == ToInt32(Balance(f.credits, k) + Purchased(f.rate, tx.ecOutputs, k)))
      && (o != Done ==> g == f)
  {
    hide Fresh, Record, AddOutputs, Purchased, Balance, ToInt32;
    FreshInSeconds(f.seen, tx.sigHash, tx.milliTimestamp / 1000, now);
    forall k | -TWO_31 <= Balance(f.credits, k) < TWO_31
      ensures Balance(AddOutputs(f.credits, f.rate, tx.ecOutputs), k)
          == ToInt32(Balance(f.credits, k) + Purchased(f.rate, tx.ecOutputs, k))
    {
      BalanceAfterOutputs(f.credits, f.rate, tx.ecOutputs, k);
    }
  }

  /** The ends of minutes 1 to 9 go onto the list, and nothing else does. */
  lemma MinuteServed(env: Env, f: Front, m: byte)
    requires f.rate > 0
    ensures Serve(env, f, OnMinute(m)).0
         == if m in {1, 2, 3, 4, 5, 6, 7, 8, 9} then
              f.(items := f.items + [MinuteItem(m)], log := f.log + [MinuteItem(m)])
            else f
  {
  }

  // ---------------------------------------------------------------- every message

  /** The item that a message puts on the list, if it is accepted. */
  function ItemFor(f: Front, h: Hashing, ev: Event): Item {
    match ev
    case OnCommitChain(c, _, _, _) => CommitChainItem(c)
    case OnCommitEntry(c, _, _, _) => CommitEntryItem(c)
    case OnRevealEntry(e, _) => if NameOf(h, e) in f.commitEntries then RevealEntryItem(e) else RevealChainItem(e)
    case OnFactoidTX(tx, _, _, _) => FactoidItem(tx)
    case OnMinute(m) => MinuteItem(m)
  }

  /** What a message has to meet. */
  predicate Due(f: Front, h: Hashing, ev: Event) {
    match ev
    case OnCommitChain(c, valid, now, clock) =>
      valid && Timely(f.seen, h.sha256(CommitChainMsg(c)), BEValue(c.milliTime) / 1000, now) && ChainDue(f, c, clock)
    case OnCommitEntry(c, valid, now, clock) =>
      valid && Timely(f.seen, h.sha256(CommitEntryMsg(c)), BEValue(c.milliTime) / 1000, now) && EntryDue(f, c, clock)
    case OnRevealEntry(e, valid) => valid && (EntryRevealDue(f, e, NameOf(h, e)) || ChainRevealDue(h, f, e, NameOf(h, e)))
    case OnFactoidTX(tx, valid, now, added) => valid && added && Timely(f.seen, tx.sigHash, tx.milliTimestamp / 1000, now)
    case OnMinute(m) => 1 <= m <= 9
  }

  predicate AfterEpoch(ev: Event) {
    match ev
    case OnCommitChain(_, _, now, _) => now >= 0
    case OnCommitEntry(_, _, now, _) => now >= 0
    case OnFactoidTX(_, _, now, _) => now >= 0
    case _ => true
  }

  lemma RevealLists(f: Front, g: Front, e: Entry, x: Digest)
    ensures AcceptedFrom(f, g, e, x) ==>
      var i := if x in f.commitEntries then RevealEntryItem(e) else RevealChainItem(e);
        g.items == f.items + [i] && g.log == f.log + [i]
    ensures RefusedFrom(f, g, e, x) ==> g.items == f.items && g.log == f.log
  {
    hide Registers, Waits;
  }

  /** Each message puts its item on the list if it is due, and nothing if it is not. */
  lemma ListedIffDue(env: Env, f: Front, ev: Event)
    requires f.rate > 0 && f.totalItems < 150000 && AfterEpoch(ev)
    ensures var g := Serve(env, f, ev).0;
      if Due(f, env.h, ev) then g.items == f.items + [ItemFor(f, env.h, ev)] && g.log == f.log + [ItemFor(f, env.h, ev)]
      else g.items == f.items && g.log == f.log
  {
    hide Timely, ChainDue, EntryDue, EntryRevealDue, ChainRevealDue, NameOf, BEValue, CommitEntryMsg, CommitChainMsg,
      ProcessRevealEntry, AcceptedFrom, RefusedFrom, Charged;
    match ev
    case OnCommitChain(c, valid, now, clock) =>
      if valid {
        hide Serve;
        ChainCommitServed(env, f, c, now, clock);
      }
    case OnCommitEntry(c, valid, now, clock) =>
      if valid {
        hide Serve;
        EntryCommitServed(env, f, c, now, clock);
      }
    case OnRevealEntry(e, valid) =>
      RevealAccepted(env, f, e);
      RevealLists(f, ProcessRevealEntry(env, f, e).0, e, NameOf(env.h, e));
    case OnFactoidTX(tx, valid, now, added) =>
      if valid && added {
        hide Serve;
        PurchaseServed(env, f, tx, now);
      }
    case OnMinute(m) => MinuteServed(env, f, m);
  }
}
