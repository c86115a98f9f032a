/** The messages that reach the server and the items it accepts onto its process list. */
module Messages {
  import opened Basics
  import opened Entries

  /** A factoid transaction, as far as entry credits are concerned: its hashes, its time and its
      outputs to entry credit addresses. */
  datatype FctTx = FctTx(hash: Digest, sigHash: Digest, milliTimestamp: u64, ecOutputs: seq<(Digest, u64)>)

  datatype Msg =
    | MsgCommitEntry(ce: CommitEntry)
    | MsgCommitChain(cc: CommitChain)
    | MsgRevealEntry(entry: Entry)
    | MsgFactoidTX(tx: FctTx)

  /** An accepted item: the kind of acknowledgement and its message. END_MINUTE_k is MinuteItem(k). */
  datatype Item =
    | CommitEntryItem(ce: CommitEntry)
    | CommitChainItem(cc: CommitChain)
    | RevealEntryItem(entry: Entry)
    | RevealChainItem(first: Entry)
    | FactoidItem(tx: FctTx)
    | MinuteItem(minute: byte)

  predicate IsReveal(i: Item) {
    i.RevealEntryItem? || i.RevealChainItem?
  }

  function Revealed(i: Item): Entry
    requires IsReveal(i)
  {
    match i
    case RevealEntryItem(e) => e
    case RevealChainItem(e) => e
  }

  /** A reveal of an entry of chain cid. */
  predicate IsRevealOf(i: Item, cid: Digest) {
    IsReveal(i) && Revealed(i).chainID == cid
  }

  /** The chain was created by an accepted chain reveal. */
  predicate CreatedIn(log: seq<Item>, cid: Digest) {
    exists i :: 0 <= i < |log| && log[i].RevealChainItem? && log[i].first.chainID == cid
  }
}
