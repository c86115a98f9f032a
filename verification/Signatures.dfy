/** The server's signature of the previous directory block in each admin block, and its check
    (process/syncup.go, validateDBSignature). */
module Signatures {
  import opened Basics
  import opened Entries
  import AdminBlock
  import DirectoryBlock

  /** Foreign: the key and signature check of the server, and the expected genesis hash. */
  datatype Trust = Trust(serverPubKey: Digest, verify: (Bytes, Signature) -> bool, genesis: Digest)

  /** `Panics` is a run-time panic of the check itself. */
  datatype Answer = Yes | No | Panics

  /** common/adminBlock.go:195-204 */
  function FirstSignature(es: seq<AdminBlock.ABEntry>): Option<AdminBlock.ABEntry> {
    if es == [] then None
    else if es[0].DBSignature? then Some(es[0])
    else FirstSignature(es[1..])
  }

  /** process/syncup.go:427-457: the admin block must carry the server's signature of the directory
      block below it; without one it passes only at height 0. */
  function SignatureAnswer(t: Trust, blocks: seq<Option<DirectoryBlock.Block>>, a: AdminBlock.Block): Answer {
    match FirstSignature(a.entries)
    case None => if a.header.dbHeight == 0 then Yes else No
    case Some(s) =>
      if !s.DBSignature? || s.pubKey != t.serverPubKey then No
      else if a.header.dbHeight == 0 || a.header.dbHeight - 1 >= |blocks| then Panics
      else
        match blocks[a.header.dbHeight - 1]
        case None => No
        case Some(d) => if t.verify(DirectoryBlock.MarshalHeader(d.header), s.sig) then Yes else No
  }

  // ---------------------------------------------------------------- what a yes means

  predicate Unsigned(a: AdminBlock.Block) {
    forall i :: 0 <= i < |a.entries| ==> !a.entries[i].DBSignature?
  }

  /** Entry i is the first signature of the block. */
  predicate FirstAt(es: seq<AdminBlock.ABEntry>, i: nat) {
    i < |es| && es[i].DBSignature? && forall j :: 0 <= j < i ==> !es[j].DBSignature?
  }

  /** The first signature of the block is the server's, over this message. */
  predicate SignsFor(t: Trust, a: AdminBlock.Block, message: Bytes) {
    exists i :: 0 <= i < |a.entries| && FirstAt(a.entries, i) && a.entries[i].pubKey == t.serverPubKey
        && t.verify(message, a.entries[i].sig)
  }

  /** The admin block is signed as its height asks: above height 0 by the server, over the header of the
      directory block below, which must be there; at height 0 not at all. */
  predicate Signed(t: Trust, blocks: seq<Option<DirectoryBlock.Block>>, a: AdminBlock.Block) {
    if a.header.dbHeight == 0 then Unsigned(a)
    else
      var below := a.header.dbHeight - 1;
      && below < |blocks| && blocks[below].Some?
      && SignsFor(t, a, DirectoryBlock.MarshalHeader(blocks[below].value.header))
  }

  /** The server's key stands first, and there is no slot for the block below. */
  predicate NoSlotBelow(t: Trust, blocks: seq<Option<DirectoryBlock.Block>>, a: AdminBlock.Block) {
    && (exists i :: 0 <= i < |a.entries| && FirstAt(a.entries, i) && a.entries[i].pubKey == t.serverPubKey)
    && (a.header.dbHeight == 0 || a.header.dbHeight - 1 >= |blocks|)
  }

  lemma {:induction false} FirstIs(es: seq<AdminBlock.ABEntry>)
    ensures FirstSignature(es) == None <==> forall i :: 0 <= i < |es| ==> !es[i].DBSignature?
    ensures FirstSignature(es).Some? ==> exists i: nat :: FirstAt(es, i) && FirstSignature(es) == Some(es[i])
    decreases |es|
  {
    if es != [] {
      if es[0].DBSignature? {
        assert FirstAt(es, 0);
      } else {
        FirstIs(es[1..]);
        if FirstSignature(es[1..]).Some? {
          var i: nat :| FirstAt(es[1..], i) && FirstSignature(es[1..]) == Some(es[1..][i]);
          assert es[i + 1] == es[1..][i];
          forall j | 0 <= j < i + 1
            ensures !es[j].DBSignature?
          {
            assert j > 0 ==> es[j] == es[1..][j - 1];
          }
          assert FirstAt(es, i + 1);
        } else {
          forall j | 0 <= j < |es|
            ensures !es[j].DBSignature?
          {
            assert j > 0 ==> es[j] == es[1..][j - 1];
          }
        }
      }
    }
  }

  lemma FirstIsOne(es: seq<AdminBlock.ABEntry>, i: nat, j: nat)
    requires FirstAt(es, i) && FirstAt(es, j)
    ensures i == j
  {
  }

  /** The same in terms of the first signature. */
  lemma SignsForMeans(t: Trust, a: AdminBlock.Block, message: Bytes)
    ensures Unsigned(a) <==> FirstSignature(a.entries) == None
    ensures SignsFor(t, a, message)
       <==> (FirstSignature(a.entries).Some? && var s := FirstSignature(a.entries).value;
             s.DBSignature? && s.pubKey == t.serverPubKey && t.verify(message, s.sig))
  {
    hide FirstSignature;
    FirstIs(a.entries);
    if FirstSignature(a.entries).Some? {
      var i: nat :| FirstAt(a.entries, i) && FirstSignature(a.entries) == Some(a.entries[i]);
      forall j: nat | FirstAt(a.entries, j)
        ensures j == i
      {
        FirstIsOne(a.entries, i, j);
      }
    }
  }

  /** The check says yes exactly to what is signed as it should be, and panics exactly when it finds the
      server's key and then no slot to take the block below from. */
  lemma AnswerMeans(t: Trust, blocks: seq<Option<DirectoryBlock.Block>>, a: AdminBlock.Block)
    ensures SignatureAnswer(t, blocks, a) == Yes <==> Signed(t, blocks, a)
    ensures SignatureAnswer(t, blocks, a) == Panics <==> NoSlotBelow(t, blocks, a)
  {
    hide FirstSignature, DirectoryBlock.MarshalHeader;
    FirstIs(a.entries);
    if FirstSignature(a.entries).Some? {
      var i: nat :| FirstAt(a.entries, i) && FirstSignature(a.entries) == Some(a.entries[i]);
      forall j: nat | FirstAt(a.entries, j)
        ensures j == i
      {
        FirstIsOne(a.entries, i, j);
      }
    }
  }
}
