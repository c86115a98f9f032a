/** The growing sparse slice that the process list (consensus/plist.go) and the directory chain
    (common/directoryBlock.go, AddDBlockToDChain) share, and the process list built on it. */
module ProcessList {
  import opened Basics

  // ---------------------------------------------------------------- the slice as a value

  /** Writing slot `index` of a sparse slice: missing slots before it are nil. */
  function PutAt<T>(s: seq<Option<T>>, index: nat, x: T): (t: seq<Option<T>>)
    ensures |t| == (if index < |s| then |s| else index + 1) && t[index] == Some(x)
    ensures forall i :: 0 <= i < |t| && i != index ==> t[i] == if i < |s| then s[i] else None
  {
    if index < |s| then s[index := Some(x)]
    else s + seq(index - |s|, _ => None) + [Some(x)]
  }

  /** A whole history of writes. */
  function PutAll<T>(ops: seq<(nat, T)>): seq<Option<T>> {
    if ops == [] then []
    else PutAt(PutAll(ops[..|ops| - 1]), ops[|ops| - 1].0, ops[|ops| - 1].1)
  }

  /** The item written last at index i, if any. */
  function LastAt<T>(ops: seq<(nat, T)>, i: nat): Option<T> {
    if ops == [] then None
    else if ops[|ops| - 1].0 == i then Some(ops[|ops| - 1].1)
    else LastAt(ops[..|ops| - 1], i)
  }

  /** The slice is a map: a slot holds the last item written there or nil, and no growth loses one. */
  lemma {:induction false} SliceRefinesMap<T>(ops: seq<(nat, T)>, i: nat)
    ensures i < |PutAll(ops)| ==> PutAll(ops)[i] == LastAt(ops, i)
    ensures |PutAll(ops)| <= i ==> LastAt(ops, i) == None
  {
    if ops != [] {
      SliceRefinesMap(ops[..|ops| - 1], i);
    }
  }

  // ---------------------------------------------------------------- the slice in memory

  /** A Go slice of pointers: `cells` is the backing array, so its length is the capacity. */
  class Slice<T> {
    var cells: array<Option<T>>
    var len: nat

    ghost predicate Valid()
      reads this, cells
    {
      && len <= cells.Length && 1 <= cells.Length
      && forall i :: len <= i < cells.Length ==> cells[i] == None
    }

    ghost function Contents(): seq<Option<T>>
      requires Valid()
      reads this, cells
    {
      cells[..len]
    }

    constructor (sizeHint: nat)
      requires 1 <= sizeHint
      ensures Valid() && Contents() == [] && fresh(cells)
    {
      cells := new Option<T>[sizeHint](_ => None);
      len := 0;
    }

    /** consensus/plist.go:34-51 and common/directoryBlock.go:564-581. From index 2^31 on the new
        capacity wraps around in 32 bits and the Go code panics. */
    method Put(index: u32, x: T)
      requires Valid() && index < TWO_31
      modifies this, cells
      ensures Valid() && (cells == old(cells) || fresh(cells))
      ensures Contents() == PutAt(old(Contents()), index, x)
    {
      if index >= cells.Length {
        var temp := new Option<T>[(index * 2) % TWO_32](_ => None);
        forall i | 0 <= i < len {
          temp[i] := cells[i];
        }
        cells := temp;
      }
      if index >= len {
        len := index + 1;
      }
      cells[index] := Some(x);
      assert Contents() == PutAt(old(Contents()), index, x);
    }
  }

  // ---------------------------------------------------------------- the process list

  /** A process list item: the index in its acknowledgement, and the message. The acknowledgement's
      type and the message's kind travel together, so M carries both. */
  datatype PLItem<M> = PLItem(ackIndex: u32, msg: M)

  /** MyProcessList together with the manager methods that act on it. */
  class ProcessList<M> {
    const plItems: Slice<PLItem<M>>
    var nextIndex: nat
    var totalItems: nat

    ghost predicate Valid()
      reads this, plItems, plItems.cells
    {
      && plItems.Valid()
      && |plItems.Contents()| == nextIndex
      && forall i :: 0 <= i < nextIndex ==>
           plItems.Contents()[i].Some? && plItems.Contents()[i].value.ackIndex == i
    }

    /** The items in order: the server's own list is dense. */
    ghost function Items(): (s: seq<PLItem<M>>)
      requires Valid()
      reads this, plItems, plItems.cells
      ensures |s| == nextIndex
      ensures forall i :: 0 <= i < |s| ==> s[i].ackIndex == i
    {
      seq(nextIndex, i requires 0 <= i < nextIndex && Valid() reads this, plItems, plItems.cells =>
        plItems.Contents()[i].value)
    }

    constructor (sizeHint: nat)
      requires 1 <= sizeHint
      ensures Valid() && Items() == [] && totalItems == 0
      ensures fresh(plItems) && fresh(plItems.cells)
    {
      plItems := new Slice<PLItem<M>>(sizeHint);
      nextIndex := 0;
      totalItems := 0;
    }

    /** consensus/plistmgr.go:111-128. The position becomes the acknowledgement's index. */
    method AddMyProcessListItem(msg: M)
      requires Valid() && nextIndex < TWO_31
      modifies this, plItems, plItems.cells
      ensures Valid() && totalItems == old(totalItems)
      ensures plItems.cells == old(plItems.cells) || fresh(plItems.cells)
      ensures Items() == old(Items()) + [PLItem(old(nextIndex), msg)]
    {
      ghost var before := Items();
      var item := PLItem(nextIndex, msg);
      nextIndex := nextIndex + 1;
      plItems.Put(item.ackIndex, item);
      assert Items() == before + [item];
    }

    /** consensus/plistmgr.go:138-142. Nothing ever changes totalItems. */
    method IsMyPListExceedingLimit() returns (exceeding: bool)
      ensures exceeding <==> totalItems >= MAX_PLIST_SIZE
    {
      exceeding := totalItems >= MAX_PLIST_SIZE;
    }

    /** consensus/plist.go:61-63 */
    method GetPLItems() returns (items: seq<PLItem<M>>)
      requires Valid()
      ensures items == Items()
    {
      items := [];
      for i := 0 to nextIndex
        invariant items == Items()[..i]
      {
        assert plItems.Contents()[i].Some?;
        items := items + [plItems.cells[i].value];
      }
    }
  }
}
