/**
 The first-fit arena: a free list of byte ranges, coalesced on release, and the
 allocations carved out of it. The list is canonical: it is determined by the set of
 free bytes, so what each operation does is said about bytes, not about list entries.
 */
module Arena {

  const ALIGNMENT := 64

  datatype Block = Block(offset: nat, size: nat) {
    function End(): nat { offset + size }
  }

  function Align(value: nat): (r: nat)
    ensures r % ALIGNMENT == 0 && value <= r < value + ALIGNMENT
  {
    (value + ALIGNMENT - 1) / ALIGNMENT * ALIGNMENT
  }

  predicate Within(b: Block, x: int) {
    b.offset <= x < b.End()
  }

  ghost predicate InFree(free: seq<Block>, x: int) {
    exists b | b in free :: Within(b, x)
  }

  predicate Usable(b: Block, bytes: nat) {
    b.size > 0 && b.End() <= bytes
  }

  predicate Aligned(b: Block) {
    b.offset % ALIGNMENT == 0 && b.size % ALIGNMENT == 0
  }

  ghost predicate AllAligned(free: seq<Block>) {
    forall b | b in free :: Aligned(b)
  }

  /** Sorted by offset, with at least `slack` bytes between neighbours. */
  ghost predicate Ordered(free: seq<Block>, bytes: nat, slack: nat) {
    && (forall b | b in free :: Usable(b, bytes))
    && (forall i, j | 0 <= i < j < |free| :: free[i].End() + slack <= free[j].offset)
  }

  /** Sorted, inside the arena, and no two blocks even touch. */
  ghost predicate Coalesced(free: seq<Block>, bytes: nat) {
    Ordered(free, bytes, 1)
  }

  /** The whole range `[offset, offset + size)` is free. */
  ghost predicate Gap(free: seq<Block>, offset: int, size: nat) {
    forall x | offset <= x < offset + size :: InFree(free, x)
  }

  // ----- Lists and the bytes they cover -----------------------------------------------

  lemma AppendBytes(a: seq<Block>, b: seq<Block>, x: int)
    ensures InFree(a + b, x) <==> InFree(a, x) || InFree(b, x)
  {
  }

  lemma OneBlockBytes(b: Block, x: int)
    ensures InFree([b], x) <==> Within(b, x)
  {
    assert b in [b];
  }

  ghost predicate Before(a: seq<Block>, b: seq<Block>, slack: nat) {
    forall c, d | c in a && d in b :: c.End() + slack <= d.offset
  }

  lemma OrderedAppend(a: seq<Block>, b: seq<Block>, bytes: nat, slack: nat)
    ensures Ordered(a + b, bytes, slack) <==>
      Ordered(a, bytes, slack) && Ordered(b, bytes, slack) && Before(a, b, slack)
  {
    var c := a + b;
    assert forall i | 0 <= i < |a| :: c[i] == a[i];
    assert forall j | 0 <= j < |b| :: c[|a| + j] == b[j];
    if Ordered(c, bytes, slack) {
      forall x, y | x in a && y in b ensures x.End() + slack <= y.offset {
        var i :| 0 <= i < |a| && a[i] == x;
        var j :| 0 <= j < |b| && b[j] == y;
        assert c[i].End() + slack <= c[|a| + j].offset;
      }
    }
  }

  lemma OrderedAround(lo: seq<Block>, mid: seq<Block>, hi: seq<Block>, bytes: nat, slack: nat)
    ensures Ordered(lo + mid + hi, bytes, slack) <==>
      && Ordered(lo, bytes, slack) && Ordered(mid, bytes, slack) && Ordered(hi, bytes, slack)
      && Before(lo, mid, slack) && Before(lo, hi, slack) && Before(mid, hi, slack)
  {
    OrderedAppend(lo, mid, bytes, slack);
    OrderedAppend(lo + mid, hi, bytes, slack);
    assert Before(lo + mid, hi, slack) <==> Before(lo, hi, slack) && Before(mid, hi, slack);
  }

  /** Blocks of an ordered list share no byte. */
  lemma Disjoint(free: seq<Block>, bytes: nat, slack: nat, i: nat, x: int)
    requires Ordered(free, bytes, slack) && i < |free| && Within(free[i], x)
    ensures !InFree(free[..i], x) && !InFree(free[i + 1..], x)
  {
    forall b | b in free[..i] ensures !Within(b, x) {
      var j :| 0 <= j < i && free[j] == b;
      assert free[j].End() + slack <= free[i].offset;
    }
    forall b | b in free[i + 1..] ensures !Within(b, x) {
      var j :| i < j < |free| && free[j] == b;
      assert free[i].End() + slack <= free[j].offset;
    }
  }

  /** A free range never straddles two blocks. */
  lemma GapInOneBlock(free: seq<Block>, bytes: nat, offset: int, size: nat) returns (i: nat)
    requires Coalesced(free, bytes) && size > 0 && Gap(free, offset, size)
    ensures i < |free| && free[i].offset <= offset && offset + size <= free[i].End()
  {
    assert InFree(free, offset);
    i :| i < |free| && Within(free[i], offset);
    assert !InFree(free, free[i].End()) by {
      NothingJustBehind(free, bytes, i);
    }
  }

  lemma NothingJustBehind(free: seq<Block>, bytes: nat, i: nat)
    requires Coalesced(free, bytes) && i < |free|
    ensures !InFree(free, free[i].End())
  {
    forall b | b in free ensures !Within(b, free[i].End()) {
      var j :| 0 <= j < |free| && free[j] == b;
      if i < j {
        assert free[i].End() + 1 <= free[j].offset;
      } else if j < i {
        assert free[j].End() + 1 <= free[i].offset;
      }
    }
  }

  lemma BlockIsGap(free: seq<Block>, i: nat, offset: nat, size: nat)
    requires i < |free| && free[i].offset <= offset && offset + size <= free[i].End()
    ensures Gap(free, offset, size)
  {
    forall x | offset <= x < offset + size ensures InFree(free, x) {
      assert Within(free[i], x) && free[i] in free;
    }
  }

  ghost predicate SameBytes(a: seq<Block>, b: seq<Block>) {
    forall x :: InFree(a, x) <==> InFree(b, x)
  }

  lemma HeadBelow(a: seq<Block>, b: seq<Block>, bytes: nat)
    requires Coalesced(a, bytes) && Coalesced(b, bytes) && a != [] && b != [] && SameBytes(a, b)
    ensures b[0].offset <= a[0].offset
  {
    assert Within(a[0], a[0].offset) && InFree(a, a[0].offset);
    var c :| c in b && Within(c, a[0].offset);
    var j :| 0 <= j < |b| && b[j] == c;
    assert j > 0 ==> b[0].End() + 1 <= b[j].offset;
  }

  lemma HeadCovers(a: seq<Block>, b: seq<Block>, bytes: nat)
    requires Coalesced(a, bytes) && Coalesced(b, bytes) && a != [] && b != [] && SameBytes(a, b)
    requires a[0].offset == b[0].offset
    ensures a[0].End() <= b[0].End()
  {
    BlockIsGap(a, 0, a[0].offset, a[0].size);
    assert Gap(b, a[0].offset, a[0].size);
    NothingJustBehind(b, bytes, 0);
  }

  lemma TailBytes(a: seq<Block>, bytes: nat, x: int)
    requires Coalesced(a, bytes) && a != []
    ensures InFree(a[1..], x) <==> InFree(a, x) && !Within(a[0], x)
  {
    assert a == [a[0]] + a[1..];
    AppendBytes([a[0]], a[1..], x);
    OneBlockBytes(a[0], x);
    if Within(a[0], x) {
      Disjoint(a, bytes, 1, 0, x);
    }
  }

  /** The list is canonical: two coalesced lists with the same free bytes are equal. */
  lemma {:induction false} Canonical(a: seq<Block>, b: seq<Block>, bytes: nat)
    requires Coalesced(a, bytes) && Coalesced(b, bytes) && SameBytes(a, b)
    ensures a == b
    decreases |a|
  {
    assert a != [] ==> a[0] in a && Within(a[0], a[0].offset) && InFree(a, a[0].offset);
    assert b != [] ==> b[0] in b && Within(b[0], b[0].offset) && InFree(b, b[0].offset);
    if a != [] && b != [] {
      SameHead(a, b, bytes);
      SameTail(a, b, bytes);
      Canonical(a[1..], b[1..], bytes);
      assert a == [a[0]] + a[1..] && b == [b[0]] + b[1..];
    }
  }

  lemma SameHead(a: seq<Block>, b: seq<Block>, bytes: nat)
    requires Coalesced(a, bytes) && Coalesced(b, bytes) && SameBytes(a, b) && a != [] && b != []
    ensures a[0] == b[0]
  {
    HeadBelow(a, b, bytes);
    HeadBelow(b, a, bytes);
    HeadCovers(a, b, bytes);
    HeadCovers(b, a, bytes);
  }

  lemma SameTail(a: seq<Block>, b: seq<Block>, bytes: nat)
    requires Coalesced(a, bytes) && Coalesced(b, bytes) && SameBytes(a, b) && a != [] && b != [] && a[0] == b[0]
    ensures SameBytes(a[1..], b[1..]) && Coalesced(a[1..], bytes) && Coalesced(b[1..], bytes)
  {
    forall x ensures InFree(a[1..], x) <==> InFree(b[1..], x) {
      TailBytes(a, bytes, x);
      TailBytes(b, bytes, x);
    }
  }

  /** With every byte free the list is the single whole block. */
  lemma WholeWhenAllFree(free: seq<Block>, bytes: nat)
    requires Coalesced(free, bytes) && bytes > 0
    requires forall x | 0 <= x < bytes :: InFree(free, x)
    ensures free == [Block(0, bytes)]
  {
    var whole := [Block(0, bytes)];
    forall x ensures InFree(free, x) <==> InFree(whole, x) {
      OneBlockBytes(whole[0], x);
    }
    Canonical(free, whole, bytes);
  }

  // ----- First fit --------------------------------------------------------------------

  /** The list with `required` bytes taken from the front of its entry `i`. */
  function Carved(free: seq<Block>, i: nat, required: nat): seq<Block>
    requires i < |free| && required <= free[i].size
  {
    free[..i] + Rest(free[i], required) + free[i + 1..]
  }

  function Rest(b: Block, required: nat): seq<Block>
    requires required <= b.size
  {
    if b.size > required then [Block(b.offset + required, b.size - required)] else []
  }

  lemma CarvedBytes(free: seq<Block>, bytes: nat, i: nat, required: nat, x: int)
    requires Coalesced(free, bytes) && i < |free| && required <= free[i].size
    ensures InFree(Carved(free, i, required), x) <==>
      InFree(free, x) && !(free[i].offset <= x < free[i].offset + required)
  {
    var rest := Rest(free[i], required);
    assert free == free[..i] + [free[i]] + free[i + 1..];
    AppendBytes(free[..i] + rest, free[i + 1..], x);
    AppendBytes(free[..i], rest, x);
    AppendBytes(free[..i] + [free[i]], free[i + 1..], x);
    AppendBytes(free[..i], [free[i]], x);
    OneBlockBytes(free[i], x);
    if rest != [] {
      OneBlockBytes(rest[0], x);
    }
    if Within(free[i], x) {
      Disjoint(free, bytes, 1, i, x);
    }
  }

  lemma CarvedCoalesced(free: seq<Block>, bytes: nat, i: nat, required: nat)
    requires Coalesced(free, bytes) && i < |free| && required <= free[i].size
    ensures Coalesced(Carved(free, i, required), bytes)
  {
    var lo, b, hi, rest := free[..i], free[i], free[i + 1..], Rest(free[i], required);
    assert free == lo + [b] + hi && b in [b];
    OrderedAround(lo, [b], hi, bytes, 1);
    OrderedAround(lo, rest, hi, bytes, 1);
  }

  // ----- Putting a block back: append, sort, merge ------------------------------------

  function InsertSorted(free: seq<Block>, b: Block): seq<Block> {
    if free == [] || b.offset < free[0].offset || (b.offset == free[0].offset && b.size <= free[0].size)
    then [b] + free
    else [free[0]] + InsertSorted(free[1..], b)
  }

  /** Ascending by offset, then by size, as a list of pairs is sorted. */
  function Sort(free: seq<Block>): seq<Block> {
    if free == [] then [] else InsertSorted(Sort(free[..|free| - 1]), free[|free| - 1])
  }

  lemma {:induction false} InsertLast(free: seq<Block>, b: Block)
    requires forall c | c in free :: c.offset < b.offset
    ensures InsertSorted(free, b) == free + [b]
    decreases |free|
  {
    if free != [] {
      InsertLast(free[1..], b);
      assert free == [free[0]] + free[1..];
    }
  }

  lemma {:induction false} SortOrdered(free: seq<Block>, bytes: nat, slack: nat)
    requires Ordered(free, bytes, slack)
    ensures Sort(free) == free
    decreases |free|
  {
    if free != [] {
      var n := |free| - 1;
      assert free == free[..n] + [free[n]];
      OrderedAppend(free[..n], [free[n]], bytes, slack);
      SortOrdered(free[..n], bytes, slack);
      forall c | c in free[..n] ensures c.offset < free[n].offset {
        var i :| 0 <= i < n && free[i] == c;
        assert Usable(c, bytes) && free[i].End() + slack <= free[n].offset;
      }
      InsertLast(free[..n], free[n]);
    }
  }

  lemma {:induction false} InsertSplits(free: seq<Block>, b: Block) returns (i: nat)
    ensures i <= |free| && InsertSorted(free, b) == free[..i] + [b] + free[i..]
    ensures forall c | c in free[..i] :: c.offset <= b.offset
    ensures i < |free| ==> b.offset <= free[i].offset
    decreases |free|
  {
    if free == [] || b.offset < free[0].offset || (b.offset == free[0].offset && b.size <= free[0].size) {
      i := 0;
    } else {
      var n := InsertSplits(free[1..], b);
      i := n + 1;
      assert free[..i] == [free[0]] + free[1..][..n] && free[i..] == free[1..][n..];
    }
  }

  lemma InsertBytes(free: seq<Block>, b: Block, x: int)
    ensures InFree(InsertSorted(free, b), x) <==> InFree(free, x) || Within(b, x)
  {
    var i := InsertSplits(free, b);
    assert free == free[..i] + free[i..];
    AppendBytes(free[..i], free[i..], x);
    AppendBytes(free[..i], [b], x);
    AppendBytes(free[..i] + [b], free[i..], x);
    OneBlockBytes(b, x);
  }

  ghost predicate Clear(free: seq<Block>, b: Block) {
    forall c | c in free :: c.End() <= b.offset || b.End() <= c.offset
  }

  lemma ClearOf(free: seq<Block>, b: Block, bytes: nat, slack: nat)
    requires Ordered(free, bytes, slack) && b.size > 0 && forall x | Within(b, x) :: !InFree(free, x)
    ensures Clear(free, b)
  {
    forall c | c in free ensures c.End() <= b.offset || b.End() <= c.offset {
      Apart(free, b, c);
    }
  }

  lemma Apart(free: seq<Block>, b: Block, c: Block)
    requires c in free && b.size > 0 && c.size > 0 && forall x | Within(b, x) :: !InFree(free, x)
    ensures c.End() <= b.offset || b.End() <= c.offset
  {
    var x := if b.offset <= c.offset then c.offset else b.offset;
    assert Within(b, x) ==> !InFree(free, x);
    assert Within(c, x) ==> InFree(free, x);
  }

  lemma NotBelowHead(free: seq<Block>, bytes: nat)
    requires Ordered(free, bytes, 0)
    ensures forall c | c in free :: free[0].offset <= c.offset && c.size > 0
  {
    forall c | c in free ensures free[0].offset <= c.offset {
      var j :| 0 <= j < |free| && free[j] == c;
      assert j > 0 ==> free[0].End() <= free[j].offset;
    }
  }

  lemma FitsBetween(lo: seq<Block>, b: Block, hi: seq<Block>, bytes: nat)
    requires Ordered(lo + hi, bytes, 0) && Usable(b, bytes) && Clear(lo + hi, b)
    requires (forall c | c in lo :: c.offset <= b.offset) && (hi != [] ==> b.offset <= hi[0].offset)
    ensures Ordered(lo + [b] + hi, bytes, 0)
  {
    OrderedAppend(lo, hi, bytes, 0);
    NotBelowHead(hi, bytes);
    forall c | c in lo ensures c.End() <= b.offset {
      assert c in lo + hi;
    }
    forall c | c in hi ensures b.End() <= c.offset {
      assert c in lo + hi;
    }
    OrderedAround(lo, [b], hi, bytes, 0);
  }

  /** A block clear of the list goes between its neighbours. */
  lemma InsertOrdered(free: seq<Block>, b: Block, bytes: nat)
    requires Ordered(free, bytes, 0) && Usable(b, bytes) && Clear(free, b)
    ensures Ordered(InsertSorted(free, b), bytes, 0)
  {
    var i := InsertSplits(free, b);
    assert free == free[..i] + free[i..];
    FitsBetween(free[..i], b, free[i..], bytes);
  }

  /** One step of the merge: a block that starts where the last one ends extends it. */
  function Joined(merged: seq<Block>, b: Block): seq<Block> {
    if merged != [] && merged[|merged| - 1].End() == b.offset
    then merged[..|merged| - 1] + [Block(merged[|merged| - 1].offset, merged[|merged| - 1].size + b.size)]
    else merged + [b]
  }

  lemma LastReplaced(lo: seq<Block>, last: Block, b: Block, bytes: nat)
    requires Coalesced(lo + [last], bytes) && Usable(b, bytes) && last.offset <= b.offset
    ensures Coalesced(lo + [b], bytes)
  {
    OrderedAppend(lo, [last], bytes, 1);
    assert last in [last];
    OrderedAppend(lo, [b], bytes, 1);
  }

  lemma LastAdded(merged: seq<Block>, b: Block, bytes: nat)
    requires Coalesced(merged, bytes) && Usable(b, bytes)
    requires merged != [] ==> merged[|merged| - 1].End() < b.offset
    ensures Coalesced(merged + [b], bytes)
  {
    forall c | c in merged ensures c.End() + 1 <= b.offset {
      var i :| 0 <= i < |merged| && merged[i] == c;
      assert Usable(c, bytes) && merged[|merged| - 1] in merged;
      assert i < |merged| - 1 ==> merged[i].End() + 1 <= merged[|merged| - 1].offset;
    }
    OrderedAppend(merged, [b], bytes, 1);
  }

  /** Merging one more block keeps the merged part coalesced. */
  lemma JoinedCoalesced(merged: seq<Block>, b: Block, bytes: nat)
    requires Coalesced(merged, bytes) && Usable(b, bytes)
    requires forall c | c in merged :: c.End() <= b.offset
    ensures Coalesced(Joined(merged, b), bytes)
    ensures forall c | c in Joined(merged, b) :: c.End() <= b.End()
  {
    if merged != [] && merged[|merged| - 1].End() == b.offset {
      var n := |merged| - 1;
      assert merged == merged[..n] + [merged[n]];
      LastReplaced(merged[..n], merged[n], Block(merged[n].offset, merged[n].size + b.size), bytes);
    } else {
      LastAdded(merged, b, bytes);
    }
  }

  lemma JoinedBytes(merged: seq<Block>, b: Block, x: int)
    ensures InFree(Joined(merged, b), x) <==> InFree(merged, x) || Within(b, x)
  {
    OneBlockBytes(b, x);
    AppendBytes(merged, [b], x);
    if merged != [] {
      var n := |merged| - 1;
      var lo, last := merged[..n], merged[n];
      var joined := Block(last.offset, last.size + b.size);
      assert merged == lo + [last];
      AppendBytes(lo, [last], x);
      AppendBytes(lo, [joined], x);
      OneBlockBytes(last, x);
      OneBlockBytes(joined, x);
    }
  }

  // ----- Alignment --------------------------------------------------------------------

  lemma CarvedAligned(free: seq<Block>, i: nat, required: nat)
    requires AllAligned(free) && i < |free| && required <= free[i].size && required % ALIGNMENT == 0
    ensures AllAligned(Carved(free, i, required))
  {
    assert Aligned(free[i]);
  }

  lemma InsertAligned(free: seq<Block>, b: Block)
    requires AllAligned(free) && Aligned(b)
    ensures AllAligned(InsertSorted(free, b))
  {
    var i := InsertSplits(free, b);
  }

  lemma JoinedAligned(merged: seq<Block>, b: Block)
    requires AllAligned(merged) && Aligned(b)
    ensures AllAligned(Joined(merged, b))
  {
    if merged != [] {
      assert Aligned(merged[|merged| - 1]);
    }
  }
}
