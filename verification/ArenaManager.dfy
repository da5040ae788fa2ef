/**
 The arena mode of the buffer manager. Over every sequence of calls the free list and the
 live allocations partition the arena; an allocation fails only when no contiguous free
 range is long enough, and otherwise gets the lowest one.
 */
module ArenaManager {
  import opened Arena

  /** A live allocation: where it starts and the bytes it was asked for. */
  datatype Extent = Extent(offset: nat, byteLength: nat) {
    /** The bytes it occupies, alignment padding included. */
    function Occupied(): Block { Block(offset, Align(byteLength)) }
  }

  datatype Allocated = Placed(offset: nat) | MemoryError | ManagerClosed

  type Live = map<nat, Extent>

  ghost predicate InLive(live: Live, x: int) {
    exists id | id in live :: Within(live[id].Occupied(), x)
  }

  /** The `size` bytes from `offset` on are inside the arena and used by nobody. */
  ghost predicate Unused(live: Live, bytes: nat, offset: int, size: nat) {
    0 <= offset && offset + size <= bytes && forall x | offset <= x < offset + size :: !InLive(live, x)
  }

  /** Live allocations are aligned, inside the arena and pairwise disjoint. */
  ghost predicate Separate(live: Live, bytes: nat) {
    && (forall id | id in live ::
          live[id].offset % ALIGNMENT == 0 && live[id].byteLength > 0 && live[id].Occupied().End() <= bytes)
    && (forall i, j, x | i in live && j in live && i != j ::
          !(Within(live[i].Occupied(), x) && Within(live[j].Occupied(), x)))
  }

  /** Every byte of the arena is either on the free list or in a live allocation. */
  ghost predicate Partition(free: seq<Block>, live: Live, bytes: nat) {
    forall x :: InFree(free, x) <==> 0 <= x < bytes && !InLive(live, x)
  }

  ghost predicate Tidy(free: seq<Block>, live: Live, bytes: nat) {
    Coalesced(free, bytes) && AllAligned(free) && Partition(free, live, bytes)
  }

  /** The free list is a function of what is live: allocating and releasing restores it. */
  lemma FreeListDetermined(a: seq<Block>, b: seq<Block>, live: Live, bytes: nat)
    requires Tidy(a, live, bytes) && Tidy(b, live, bytes)
    ensures a == b
  {
    Canonical(a, b, bytes);
  }

  /** Releasing everything leaves one whole block. */
  lemma AllReleased(free: seq<Block>, bytes: nat)
    requires Tidy(free, map[], bytes) && bytes > 0
    ensures free == [Block(0, bytes)]
  {
    WholeWhenAllFree(free, bytes);
  }

  lemma GapIsUnused(free: seq<Block>, live: Live, bytes: nat, offset: int, size: nat)
    requires Tidy(free, live, bytes) && size > 0
    ensures Gap(free, offset, size) <==> Unused(live, bytes, offset, size)
  {
    if Gap(free, offset, size) {
      assert InFree(free, offset) && InFree(free, offset + size - 1);
    }
  }

  lemma GapNeedsBlock(free: seq<Block>, bytes: nat, offset: int, size: nat)
    requires Coalesced(free, bytes) && size > 0
    ensures Gap(free, offset, size) ==> exists b | b in free :: b.size >= size
  {
    if Gap(free, offset, size) {
      var i := GapInOneBlock(free, bytes, offset, size);
      assert free[i] in free;
    }
  }

  lemma TakenPartition(free: seq<Block>, live: Live, bytes: nat, i: nat, id: nat, byteLength: nat)
    requires Tidy(free, live, bytes) && Separate(live, bytes) && id !in live && byteLength > 0
    requires i < |free| && Align(byteLength) <= free[i].size
    ensures var after := live[id := Extent(free[i].offset, byteLength)];
      Tidy(Carved(free, i, Align(byteLength)), after, bytes) && Separate(after, bytes)
  {
    var e := Extent(free[i].offset, byteLength);
    var after := live[id := e];
    var required := Align(byteLength);
    CarvedCoalesced(free, bytes, i, required);
    CarvedAligned(free, i, required);
    assert free[i] in free && Aligned(free[i]) && Usable(free[i], bytes);
    BlockIsGap(free, i, e.offset, required);
    GapIsUnused(free, live, bytes, e.offset, required);
    forall x ensures InLive(after, x) <==> InLive(live, x) || Within(e.Occupied(), x) {
      TakenBytes(live, id, e, x);
    }
    forall x ensures InFree(Carved(free, i, required), x) <==> 0 <= x < bytes && !InLive(after, x) {
      CarvedBytes(free, bytes, i, required, x);
    }
    forall j, x | j in live && Within(live[j].Occupied(), x) ensures !Within(e.Occupied(), x) {
      assert InLive(live, x);
    }
  }

  lemma TakenBytes(live: Live, id: nat, e: Extent, x: int)
    requires id !in live
    ensures InLive(live[id := e], x) <==> InLive(live, x) || Within(e.Occupied(), x)
  {
    var after := live[id := e];
    assert forall j | j in live :: after[j] == live[j];
    assert after[id] == e;
  }

  lemma DroppedBytes(live: Live, bytes: nat, id: nat, x: int)
    requires Separate(live, bytes) && id in live
    ensures InLive(live, x) <==> InLive(live - {id}, x) || Within(live[id].Occupied(), x)
    ensures !(InLive(live - {id}, x) && Within(live[id].Occupied(), x))
  {
    var after := live - {id};
    assert forall j | j in after :: j in live && after[j] == live[j];
    if InLive(live, x) {
      var j :| j in live && Within(live[j].Occupied(), x);
      assert j == id || j in after;
    }
  }

  /** The list with one block appended, as the sort puts it in order. */
  lemma SortPlaces(free: seq<Block>, b: Block, bytes: nat)
    requires Coalesced(free, bytes)
    ensures Ordered(free, bytes, 0) && Sort(free + [b]) == InsertSorted(free, b)
  {
    assert (free + [b])[..|free|] == free;
    forall i, j | 0 <= i < j < |free| ensures free[i].End() + 0 <= free[j].offset {
      assert free[i].End() + 1 <= free[j].offset;
    }
    SortOrdered(free, bytes, 1);
  }

  /** Sorting the returned block in leaves exactly the bytes that nobody uses any more. */
  lemma ReturnedPartition(free: seq<Block>, live: Live, bytes: nat, id: nat)
    requires Tidy(free, live, bytes) && Separate(live, bytes) && id in live
    ensures var sorted := Sort(free + [live[id].Occupied()]);
      Ordered(sorted, bytes, 0) && AllAligned(sorted) && Partition(sorted, live - {id}, bytes)
  {
    var b := live[id].Occupied();
    SortPlaces(free, b, bytes);
    forall x | Within(b, x) ensures !InFree(free, x) {
      assert InLive(live, x);
    }
    ClearOf(free, b, bytes, 0);
    InsertOrdered(free, b, bytes);
    InsertAligned(free, b);
    forall x ensures InFree(InsertSorted(free, b), x) <==> 0 <= x < bytes && !InLive(live - {id}, x) {
      InsertBytes(free, b, x);
      DroppedBytes(live, bytes, id, x);
    }
  }

  class ArenaBuffers {
    const bytes: nat
    var closed: bool
    var mapped: bool // the region exists
    var free: seq<Block>
    var live: Live

    ghost predicate Valid()
      reads this
    {
      && bytes > 0 && bytes % ALIGNMENT == 0 && Separate(live, bytes)
      && (if mapped then Tidy(free, live, bytes) else live == map[])
      && (closed && live == map[] ==> !mapped)
    }

    constructor (bytes: nat)
      requires bytes > 0 && bytes % ALIGNMENT == 0
      ensures Valid() && live == map[] && !closed && this.bytes == bytes
    {
      this.bytes, closed, mapped, free, live := bytes, false, false, [], map[];
    }

    method Create()
      requires Valid() && !closed
      modifies `mapped, `free
      ensures Valid() && mapped && (old(mapped) ==> free == old(free))
    {
      if !mapped {
        mapped, free := true, [Block(0, bytes)];
        forall x ensures InFree(free, x) <==> 0 <= x < bytes && !InLive(live, x) {
          OneBlockBytes(free[0], x);
        }
      }
    }

    /** Takes the lowest free range that is long enough, and fails only if there is none. */
    method Allocate(byteLength: nat, id: nat) returns (r: Allocated)
      requires Valid() && byteLength > 0 && id !in live
      modifies `mapped, `free, `live
      ensures Valid()
      ensures r.ManagerClosed? <==> closed
      ensures r.MemoryError? <==> !closed && forall o :: !Unused(old(live), bytes, o, Align(byteLength))
      ensures r.Placed? ==>
        && Unused(old(live), bytes, r.offset, Align(byteLength))
        && (forall o | o < r.offset :: !Unused(old(live), bytes, o, Align(byteLength)))
      ensures live == if r.Placed? then old(live)[id := Extent(r.offset, byteLength)] else old(live)
    {
      if closed {
        return ManagerClosed;
      }
      Create();
      var required := Align(byteLength);
      var i := 0;
      while i < |free|
        invariant i <= |free| && Valid() && mapped && live == old(live)
        invariant forall k | 0 <= k < i :: free[k].size < required
      {
        if free[i].size >= required {
          var offset := free[i].offset;
          LowestGap(i, required);
          TakenPartition(free, live, bytes, i, id, byteLength);
          free := Carved(free, i, required);
          live := live[id := Extent(offset, byteLength)];
          return Placed(offset);
        }
        i := i + 1;
      }
      NoGap(required);
      r := MemoryError;
    }

    lemma LowestGap(i: nat, required: nat)
      requires Valid() && mapped && i < |free| && 0 < required <= free[i].size
      requires forall k | 0 <= k < i :: free[k].size < required
      ensures Unused(live, bytes, free[i].offset, required)
      ensures forall o | o < free[i].offset :: !Unused(live, bytes, o, required)
    {
      BlockIsGap(free, i, free[i].offset, required);
      GapIsUnused(free, live, bytes, free[i].offset, required);
      forall o | Unused(live, bytes, o, required) ensures o >= free[i].offset {
        GapIsUnused(free, live, bytes, o, required);
        var k := GapInOneBlock(free, bytes, o, required);
        assert k >= i;
        assert k > i ==> free[i].End() + 1 <= free[k].offset;
      }
    }

    lemma NoGap(required: nat)
      requires Valid() && mapped && required > 0 && forall b | b in free :: b.size < required
      ensures forall o :: !Unused(live, bytes, o, required)
    {
      forall o ensures !Unused(live, bytes, o, required) {
        GapIsUnused(free, live, bytes, o, required);
        GapNeedsBlock(free, bytes, o, required);
      }
    }

    /** What collection does with one released id: an id that is not live changes nothing. */
    method Release(id: nat)
      requires Valid()
      modifies `mapped, `free, `live
      ensures Valid() && live == old(live) - {id}
      ensures mapped == (old(mapped) && !(closed && live == map[]))
    {
      if id in live {
        ReturnedPartition(free, live, bytes, id);
        var sorted := Sort(free + [live[id].Occupied()]);
        free := Merge(sorted, bytes);
        live := live - {id};
        if closed && live == map[] && mapped {
          mapped := false;
        }
      } else {
        assert live - {id} == live;
      }
    }

    /** One more block of a sorted list goes onto what was merged before it. */
    static lemma MergeStep(sorted: seq<Block>, i: nat, merged: seq<Block>, bytes: nat)
      requires Ordered(sorted, bytes, 0) && AllAligned(sorted) && i < |sorted|
      requires Coalesced(merged, bytes) && AllAligned(merged) && SameBytes(merged, sorted[..i])
      requires forall c | c in merged :: c.End() <= sorted[i].offset
      ensures var r := Joined(merged, sorted[i]);
        && Coalesced(r, bytes) && AllAligned(r) && SameBytes(r, sorted[..i + 1])
        && (i + 1 < |sorted| ==> forall c | c in r :: c.End() <= sorted[i + 1].offset)
    {
      hide Coalesced, InFree, Joined;
      var b := sorted[i];
      assert b in sorted && sorted[..i + 1] == sorted[..i] + [b];
      JoinedCoalesced(merged, b, bytes);
      JoinedAligned(merged, b);
      forall x
        ensures InFree(Joined(merged, b), x) <==> InFree(sorted[..i + 1], x)
      {
        JoinedBytes(merged, b, x);
        AppendBytes(sorted[..i], [b], x);
        OneBlockBytes(b, x);
      }
    }

    static method Merge(sorted: seq<Block>, ghost bytes: nat) returns (merged: seq<Block>)
      requires Ordered(sorted, bytes, 0) && AllAligned(sorted)
      ensures Coalesced(merged, bytes) && AllAligned(merged) && SameBytes(merged, sorted)
    {
      hide Ordered, Coalesced, AllAligned, SameBytes, InFree;
      merged := [];
      NothingMerged(sorted, bytes);
      for i := 0 to |sorted|
        invariant Coalesced(merged, bytes) && AllAligned(merged) && SameBytes(merged, sorted[..i])
        invariant i < |sorted| ==> forall c | c in merged :: c.End() <= sorted[i].offset
      {
        var b := sorted[i];
        MergeStep(sorted, i, merged, bytes);
        if |merged| > 0 && merged[|merged| - 1].offset + merged[|merged| - 1].size == b.offset {
          var previous := merged[|merged| - 1];
          merged := merged[..|merged| - 1] + [Block(previous.offset, previous.size + b.size)];
        } else {
          merged := merged + [b];
        }
      }
      assert sorted[..|sorted|] == sorted;
    }

    static lemma NothingMerged(sorted: seq<Block>, bytes: nat)
      ensures Coalesced([], bytes) && AllAligned([]) && SameBytes([], sorted[..0])
    {
    }

    method Close()
      requires Valid()
      modifies `closed, `mapped
      ensures Valid() && closed && mapped == (old(mapped) && live != map[])
    {
      closed := true;
      if mapped && live == map[] {
        mapped := false;
      }
    }
  }
}
