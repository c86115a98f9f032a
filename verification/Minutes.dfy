/** Minute markers: the writer in process/processor.go (buildEndOfMinute) puts the minute after the
    entries it accepted in it; the reader in wsapi/wsapi.go turns markers back into times. */
module Minutes {
  import opened Basics
  import opened Entries
  import opened Messages
  import EBlock

  // ---------------------------------------------------------------- the writer

  /** The chains with an entry since the last minute marker. */
  function Touched(items: seq<Item>): set<Digest> {
    if items == [] then {}
    else
      var last := items[|items| - 1];
      if last.MinuteItem? then {}
      else if IsReveal(last) then Touched(items[..|items| - 1]) + {Revealed(last).chainID}
      else Touched(items[..|items| - 1])
  }

  /** process/processor.go:873-883: the same by scanning forward and starting over at each marker. */
  method TouchedChains(items: seq<Item>) returns (tmpChains: set<Digest>)
    ensures tmpChains == Touched(items)
  {
    tmpChains := {};
    for i := 0 to |items|
      invariant tmpChains == Touched(items[..i])
    {
      assert items[..i + 1][..i] == items[..i];
      var v := items[i];
      if IsReveal(v) {
        tmpChains := tmpChains + {Revealed(v).chainID};
      } else if v.MinuteItem? {
        tmpChains := {};
      }
    }
    assert items[..|items|] == items;
  }

  /** The entry block body that a process list makes for chain cid, starting from an empty block. */
  function ChainBody(h: Hashing, items: seq<Item>, cid: Digest): seq<Digest> {
    if items == [] then []
    else
      var init, last := items[..|items| - 1], items[|items| - 1];
      if IsRevealOf(last, cid) then ChainBody(h, init, cid) + [EntryHash(h, Revealed(last))]
      else if last.MinuteItem? && cid in Touched(init) then ChainBody(h, init, cid) + [EBlock.MinuteMarker(last.minute)]
      else ChainBody(h, init, cid)
  }

  // ---------------------------------------------------------------- the reader

  datatype EntryAddr = EntryAddr(hash: Digest, timestamp: u32)

  /** The keys of the `mins` table of wsapi/wsapi.go:359-364. */
  predicate IsMarkerKey(d: Digest) {
    EBlock.IsMinuteMarker(d) && 1 <= d[31] <= 10
  }

  function TimeOf(base: u32, m: byte): u32 {
    (base + 60 * m) % TWO_32
  }

  function Stamped(hashes: seq<Digest>, t: u32): seq<EntryAddr> {
    seq(|hashes|, i requires 0 <= i < |hashes| => EntryAddr(hashes[i], t))
  }

  /** The entry list and the stack of entries still waiting for a marker. */
  function Read(base: u32, body: seq<Digest>): (seq<EntryAddr>, seq<Digest>) {
    if body == [] then ([], [])
    else
      var (list, stack) := Read(base, body[..|body| - 1]);
      var v := body[|body| - 1];
      if IsMarkerKey(v) then (list + Stamped(stack, TimeOf(base, v[31])), [])
      else (list, stack + [v])
  }

  /** wsapi/wsapi.go:357-382. `base` is the directory block's time in seconds. */
  method HandleEntryBlock(base: u32, body: seq<Digest>) returns (entryList: seq<EntryAddr>)
    ensures entryList == Read(base, body).0
  {
    entryList := [];
    var estack: seq<Digest> := [];
    for i := 0 to |body|
      invariant (entryList, estack) == Read(base, body[..i])
    {
      assert body[..i + 1][..i] == body[..i];
      var v := body[i];
      if IsMarkerKey(v) {
        var t := TimeOf(base, v[31]);
        ghost var before := entryList;
        for j := 0 to |estack|
          invariant entryList == before + Stamped(estack[..j], t)
        {
          assert Stamped(estack[..j + 1], t) == Stamped(estack[..j], t) + [EntryAddr(estack[j], t)];
          entryList := entryList + [EntryAddr(estack[j], t)];
        }
        assert estack[..|estack|] == estack;
        estack := [];
      } else {
        estack := estack + [v];
      }
    }
    assert body[..|body|] == body;
  }

  // ---------------------------------------------------------------- what should be reported

  predicate EndsWithMinute(items: seq<Item>) {
    items != [] && items[|items| - 1].MinuteItem?
  }

  /** The minute in force at the start of `items`: that of the first marker in it. */
  function FirstMinute(items: seq<Item>): byte
    requires EndsWithMinute(items)
  {
    if items[0].MinuteItem? then items[0].minute else FirstMinute(items[1..])
  }

  /** Every entry of chain cid in order, each with the time of the first marker after it: that many minutes
      after the base, in 32 bits. */
  function Attribution(h: Hashing, base: u32, items: seq<Item>, cid: Digest): seq<EntryAddr>
    requires items == [] || EndsWithMinute(items)
  {
    if items == [] then []
    else if IsRevealOf(items[0], cid) then
      [EntryAddr(EntryHash(h, Revealed(items[0])), (base + 60 * FirstMinute(items[1..])) % TWO_32)]
        + Attribution(h, base, items[1..], cid)
    else Attribution(h, base, items[1..], cid)
  }

  predicate ValidMinutes(items: seq<Item>) {
    forall i :: 0 <= i < |items| && items[i].MinuteItem? ==> 1 <= items[i].minute <= 10
  }

  /** One of the ten values that stand for minutes. */
  predicate LooksLikeMarker(d: Digest) {
    d[..31] == Zeros(31) && d[31] in {1, 2, 3, 4, 5, 6, 7, 8, 9, 10}
  }

  /** No entry of the chain hashes to one of them. */
  predicate NoEntryLooksLikeMarker(h: Hashing, items: seq<Item>, cid: Digest) {
    forall i :: 0 <= i < |items| && IsRevealOf(items[i], cid) ==> !LooksLikeMarker(EntryHash(h, Revealed(items[i])))
  }

  // ---------------------------------------------------------------- one minute

  predicate NoMinute(q: seq<Item>) {
    forall i :: 0 <= i < |q| ==> !q[i].MinuteItem?
  }

  /** The hashes of the entries of cid in q. */
  function Hashes(h: Hashing, q: seq<Item>, cid: Digest): seq<Digest> {
    if q == [] then []
    else
      var init, last := q[..|q| - 1], q[|q| - 1];
      Hashes(h, init, cid) + if IsRevealOf(last, cid) then [EntryHash(h, Revealed(last))] else []
  }

  lemma {:induction false} TouchedInMinute(h: Hashing, p: seq<Item>, q: seq<Item>, cid: Digest)
    requires NoMinute(q) && (p == [] || EndsWithMinute(p))
    ensures cid in Touched(p + q) <==> Hashes(h, q, cid) != []
    decreases |q|
  {
    if q == [] {
      assert p + q == p;
    } else {
      var n := |q| - 1;
      assert (p + q)[..|p + q| - 1] == p + q[..n];
      TouchedInMinute(h, p, q[..n], cid);
    }
  }

  lemma {:induction false} BodyInMinute(h: Hashing, p: seq<Item>, q: seq<Item>, cid: Digest)
    requires NoMinute(q)
    ensures ChainBody(h, p + q, cid) == ChainBody(h, p, cid) + Hashes(h, q, cid)
    decreases |q|
  {
    if q == [] {
      assert p + q == p;
      assert ChainBody(h, p, cid) + Hashes(h, q, cid) == ChainBody(h, p, cid);
    } else {
      var n := |q| - 1;
      assert (p + q)[..|p + q| - 1] == p + q[..n];
      BodyInMinute(h, p, q[..n], cid);
      assert ChainBody(h, p, cid) + Hashes(h, q, cid)
          == ChainBody(h, p, cid) + Hashes(h, q[..n], cid)
             + if IsRevealOf(q[n], cid) then [EntryHash(h, Revealed(q[n]))] else [];
    }
  }

  /** A minute adds its entries and, if there are any, its marker. */
  lemma BodyOfMinute(h: Hashing, p: seq<Item>, q: seq<Item>, m: byte, cid: Digest)
    requires NoMinute(q) && (p == [] || EndsWithMinute(p))
    ensures ChainBody(h, p + q + [MinuteItem(m)], cid) == ChainBody(h, p, cid) + Hashes(h, q, cid)
      + if Hashes(h, q, cid) != [] then [EBlock.MinuteMarker(m)] else []
  {
    var all := p + q + [MinuteItem(m)];
    assert all[..|all| - 1] == p + q;
    TouchedInMinute(h, p, q, cid);
    BodyInMinute(h, p, q, cid);
  }

  lemma {:induction false} ReadPlain(base: u32, body: seq<Digest>, hs: seq<Digest>)
    requires forall i :: 0 <= i < |hs| ==> !IsMarkerKey(hs[i])
    ensures Read(base, body + hs) == (Read(base, body).0, Read(base, body).1 + hs)
    decreases |hs|
  {
    if hs == [] {
      assert body + hs == body;
      assert Read(base, body).1 + hs == Read(base, body).1;
    } else {
      var n := |hs| - 1;
      assert (body + hs)[..|body + hs| - 1] == body + hs[..n];
      ReadPlain(base, body, hs[..n]);
      assert Read(base, body).1 + hs[..n] + [hs[n]] == Read(base, body).1 + hs;
    }
  }

  lemma {:induction false} HashesArePlain(h: Hashing, q: seq<Item>, cid: Digest)
    requires NoEntryLooksLikeMarker(h, q, cid)
    ensures forall i :: 0 <= i < |Hashes(h, q, cid)| ==> !IsMarkerKey(Hashes(h, q, cid)[i])
    decreases |q|
  {
    if q != [] {
      HashesArePlain(h, q[..|q| - 1], cid);
    }
  }

  lemma {:induction false} FirstMinuteOfMinute(q: seq<Item>, m: byte)
    requires NoMinute(q)
    ensures FirstMinute(q + [MinuteItem(m)]) == m
    decreases |q|
  {
    if q != [] {
      assert (q + [MinuteItem(m)])[1..] == q[1..] + [MinuteItem(m)];
      FirstMinuteOfMinute(q[1..], m);
    }
  }

  lemma {:induction false} HashesFront(h: Hashing, q: seq<Item>, cid: Digest)
    requires q != []
    ensures Hashes(h, q, cid)
         == (if IsRevealOf(q[0], cid) then [EntryHash(h, Revealed(q[0]))] else []) + Hashes(h, q[1..], cid)
    decreases |q|
  {
    var n := |q| - 1;
    if n == 0 {
      assert q[..0] == [] && q[1..] == [];
    } else {
      HashesFront(h, q[..n], cid);
      assert q[..n][1..] == q[1..][..n - 1];
    }
  }

  lemma {:induction false} AttributionOfMinute(h: Hashing, base: u32, q: seq<Item>, m: byte, cid: Digest)
    requires NoMinute(q)
    ensures Attribution(h, base, q + [MinuteItem(m)], cid) == Stamped(Hashes(h, q, cid), TimeOf(base, m))
    decreases |q|
  {
    var all := q + [MinuteItem(m)];
    if q == [] {
      assert all[1..] == [];
    } else {
      assert all[1..] == q[1..] + [MinuteItem(m)];
      AttributionOfMinute(h, base, q[1..], m, cid);
      FirstMinuteOfMinute(q[1..], m);
      HashesFront(h, q, cid);
    }
  }

  lemma {:induction false} FirstMinuteStays(p: seq<Item>, q: seq<Item>)
    requires EndsWithMinute(p) && EndsWithMinute(q)
    ensures FirstMinute(p + q) == FirstMinute(p)
    decreases |p|
  {
    if !p[0].MinuteItem? {
      assert (p + q)[1..] == p[1..] + q;
      FirstMinuteStays(p[1..], q);
    }
  }

  lemma {:induction false} AttributionAppends(h: Hashing, base: u32, p: seq<Item>, q: seq<Item>, cid: Digest)
    requires (p == [] || EndsWithMinute(p)) && EndsWithMinute(q)
    ensures Attribution(h, base, p + q, cid) == Attribution(h, base, p, cid) + Attribution(h, base, q, cid)
    decreases |p|
  {
    if p == [] {
      assert p + q == q;
    } else {
      assert (p + q)[1..] == p[1..] + q;
      AttributionAppends(h, base, p[1..], q, cid);
      if IsRevealOf(p[0], cid) {
        FirstMinuteStays(p[1..], q);
      }
    }
  }

  /** The last minute of a list: everything before it, the items in it, and its marker. */
  lemma SplitLastMinute(items: seq<Item>) returns (p: seq<Item>, q: seq<Item>, m: byte)
    requires EndsWithMinute(items)
    ensures items == p + q + [MinuteItem(m)] && NoMinute(q) && (p == [] || EndsWithMinute(p))
  {
    var k := |items| - 1;
    m := items[k].minute;
    while k > 0 && !items[k - 1].MinuteItem?
      invariant 0 <= k < |items|
      invariant NoMinute(items[k..|items| - 1])
    {
      k := k - 1;
    }
    p, q := items[..k], items[k..|items| - 1];
  }

  // ---------------------------------------------------------------- writer and reader together

  /** If no entry hash looks like a marker, reading back what was written reports every entry of the
      chain once, in order, at the minute it was accepted in, and leaves nothing waiting. */
  lemma {:induction false} ReaderUndoesWriter(h: Hashing, base: u32, items: seq<Item>, cid: Digest)
    requires items == [] || EndsWithMinute(items)
    requires ValidMinutes(items) && NoEntryLooksLikeMarker(h, items, cid)
    ensures Read(base, ChainBody(h, items, cid)) == (Attribution(h, base, items, cid), [])
    decreases |items|
  {
    if items != [] {
      var p, q, m := SplitLastMinute(items);
      assert items == p + (q + [MinuteItem(m)]);
      PartsInherit(h, p, q + [MinuteItem(m)], cid);
      assert items[|items| - 1] == MinuteItem(m);
      ReaderUndoesWriter(h, base, p, cid);
      ReadOneMinute(h, base, p, q, m, cid);
    }
  }

  lemma PartsInherit(h: Hashing, p: seq<Item>, q: seq<Item>, cid: Digest)
    requires ValidMinutes(p + q) && NoEntryLooksLikeMarker(h, p + q, cid)
    ensures ValidMinutes(p) && NoEntryLooksLikeMarker(h, p, cid)
  {
    forall i | 0 <= i < |p|
      ensures p[i] == (p + q)[i]
    {
    }
  }

  lemma ReadOneMinute(h: Hashing, base: u32, p: seq<Item>, q: seq<Item>, m: byte, cid: Digest)
    requires NoMinute(q) && (p == [] || EndsWithMinute(p)) && 1 <= m <= 10
    requires NoEntryLooksLikeMarker(h, p + q + [MinuteItem(m)], cid)
    requires Read(base, ChainBody(h, p, cid)) == (Attribution(h, base, p, cid), [])
    ensures Read(base, ChainBody(h, p + q + [MinuteItem(m)], cid))
         == (Attribution(h, base, p + q + [MinuteItem(m)], cid), [])
  {
    hide EntryHash, ChainBody, Hashes, Attribution;
    var hs, body, end := Hashes(h, q, cid), ChainBody(h, p, cid), [MinuteItem(m)];
    var items := p + q + end;
    assert items == p + (q + end);
    BodyOfMinute(h, p, q, m, cid);
    AttributionAppends(h, base, p, q + end, cid);
    AttributionOfMinute(h, base, q, m, cid);
    assert NoEntryLooksLikeMarker(h, q, cid) by {
      forall i | 0 <= i < |q| && IsRevealOf(q[i], cid)
        ensures !IsMarkerKey(EntryHash(h, Revealed(q[i])))
      {
        assert items[|p| + i] == q[i];
      }
    }
    HashesArePlain(h, q, cid);
    ReadPlain(base, body, hs);
    ReadMarker(base, body + hs, m);
    assert [] + hs == hs;
    if hs == [] {
      assert body + hs + [] == body;
      var before := Attribution(h, base, p, cid);
      assert before + Stamped(hs, TimeOf(base, m)) == before;
    }
  }

  lemma ReadMarker(base: u32, body: seq<Digest>, m: byte)
    requires 1 <= m <= 10
    ensures var (list, stack) := Read(base, body);
      Read(base, body + [EBlock.MinuteMarker(m)]) == (list + Stamped(stack, TimeOf(base, m)), [])
  {
    EBlock.MarkerFacts(m);
    assert (body + [EBlock.MinuteMarker(m)])[..|body|] == body;
  }

  function Count(body: seq<Digest>): nat {
    if body == [] then 0
    else Count(body[..|body| - 1]) + if IsMarkerKey(body[|body| - 1]) then 0 else 1
  }

  lemma {:induction false} ReadCounts(base: u32, body: seq<Digest>)
    ensures |Read(base, body).0| + |Read(base, body).1| == Count(body)
    decreases |body|
  {
    if body != [] {
      ReadCounts(base, body[..|body| - 1]);
    }
  }

  lemma CountSnoc(body: seq<Digest>, x: Digest)
    ensures Count(body + [x]) == Count(body) + if IsMarkerKey(x) then 0 else 1
  {
    assert (body + [x])[..|body|] == body;
  }

  lemma LooksSnoc(h: Hashing, items: seq<Item>, cid: Digest)
    requires items != []
    ensures NoEntryLooksLikeMarker(h, items, cid) <==>
      && NoEntryLooksLikeMarker(h, items[..|items| - 1], cid)
      && (IsRevealOf(items[|items| - 1], cid) ==> !LooksLikeMarker(EntryHash(h, Revealed(items[|items| - 1]))))
  {
    hide EntryHash, LooksLikeMarker, IsRevealOf;
    var n := |items| - 1;
    forall i | 0 <= i < n
      ensures items[..n][i] == items[i]
    {
    }
  }

  lemma {:induction false} BodyCounts(h: Hashing, items: seq<Item>, cid: Digest)
    requires ValidMinutes(items)
    ensures Count(ChainBody(h, items, cid)) <= |Hashes(h, items, cid)|
    ensures !NoEntryLooksLikeMarker(h, items, cid) ==> Count(ChainBody(h, items, cid)) < |Hashes(h, items, cid)|
    decreases |items|
  {
    hide EntryHash, NoEntryLooksLikeMarker, Count;
    if items == [] {
      assert Count([]) == 0 && NoEntryLooksLikeMarker(h, items, cid) by {
        CountEmpty(h, cid);
      }
    } else {
      var n := |items| - 1;
      var init, last := items[..n], items[n];
      BodyCounts(h, init, cid);
      LooksSnoc(h, items, cid);
      var body := ChainBody(h, init, cid);
      if IsRevealOf(last, cid) {
        CountSnoc(body, EntryHash(h, Revealed(last)));
      } else if last.MinuteItem? {
        EBlock.MarkerFacts(last.minute);
        CountSnoc(body, EBlock.MinuteMarker(last.minute));
      }
    }
  }

  lemma CountEmpty(h: Hashing, cid: Digest)
    ensures Count([]) == 0 && NoEntryLooksLikeMarker(h, [], cid)
  {
  }

  lemma {:induction false} AttributionCounts(h: Hashing, base: u32, items: seq<Item>, cid: Digest)
    requires items == [] || EndsWithMinute(items)
    ensures |Attribution(h, base, items, cid)| == |Hashes(h, items, cid)|
    decreases |items|
  {
    if items != [] {
      AttributionCounts(h, base, items[1..], cid);
      HashesFront(h, items, cid);
    }
  }

  /** The round trip holds exactly when no entry of the chain hashes to a marker value; otherwise the
      reader swallows that entry. */
  lemma MinuteRoundTrip(h: Hashing, base: u32, items: seq<Item>, cid: Digest)
    requires EndsWithMinute(items) && ValidMinutes(items)
    ensures Read(base, ChainBody(h, items, cid)).0 == Attribution(h, base, items, cid)
       <==> NoEntryLooksLikeMarker(h, items, cid)
  {
    if NoEntryLooksLikeMarker(h, items, cid) {
      ReaderUndoesWriter(h, base, items, cid);
    } else {
      ReadCounts(base, ChainBody(h, items, cid));
      BodyCounts(h, items, cid);
      AttributionCounts(h, base, items, cid);
    }
  }
}
