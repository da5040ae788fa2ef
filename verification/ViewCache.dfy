/**
 The per-mapping cache of accepted views: a hit skips the range checks and is moved to the back, a
 miss is checked, appended, and pushes out the front beyond 64.
 */
module ViewCache {
  import opened RecentKeys
  import opened Views

  const MAX_CACHED_VIEWS := 64

  /** What a cached view is found by; the buffer and its generation are the mapping's own. */
  datatype ViewKey = ViewKey(allocationId: nat, view: View)

  /** The tensor handed out: where it starts, and its dimensions and strides in elements. */
  datatype Tensor = Tensor(offset: int, dtype: Dtype, shape: seq<int>, elementStrides: seq<int>)

  datatype Outcome = Viewed(tensor: Tensor) | Refused

  datatype Entry = Entry(key: ViewKey, tensor: Tensor)

  function TensorOf(v: View): Tensor {
    Tensor(v.offset, v.dtype, v.shape,
      seq(|v.strides|, k requires 0 <= k < |v.strides| => v.strides[k] / ItemSize(v.dtype)))
  }

  /** What a request yields when nothing is cached. */
  function Uncached(key: ViewKey, byteLength: nat, signed: bool): Outcome {
    if Accepts(key.view, byteLength) && (signed ==> Signed(key.view.shape)) then Viewed(TensorOf(key.view)) else Refused
  }

  /** Where in the mapping the tensor's element at an index starts. */
  function ElementAddress(t: Tensor, index: seq<int>): int
    requires |index| == |t.elementStrides|
  {
    t.offset + ItemSize(t.dtype) * Distance(t.elementStrides, index, |index|)
  }

  /** The tensor is the view: the same elements, each where the view has it, all within the mapping. */
  ghost predicate Shows(t: Tensor, v: View, byteLength: nat) {
    && t.shape == v.shape && t.dtype == v.dtype && |t.elementStrides| == |v.strides| == |v.shape|
    && forall index | IsIndex(v.shape, index) ::
      var a := ElementAddress(t, index);
      a == Address(v, index) && Aligned(a, v.dtype) && 0 <= a && a + ItemSize(v.dtype) <= byteLength
  }

  lemma {:induction false} DistanceScales(v: View, t: Tensor, index: seq<int>, n: nat)
    requires Shaped(v) && t == TensorOf(v) && |index| == |v.strides| && n <= |index|
    ensures ItemSize(v.dtype) * Distance(t.elementStrides, index, n) == Distance(v.strides, index, n)
  {
    if n > 0 {
      DistanceScales(v, t, index, n - 1);
      Rescaled(index[n - 1], v.strides[n - 1], v.dtype);
      Distributes(ItemSize(v.dtype), Distance(t.elementStrides, index, n - 1), index[n - 1] * t.elementStrides[n - 1]);
    }
  }

  lemma Rescaled(i: int, stride: int, d: Dtype)
    requires Aligned(stride, d)
    ensures ItemSize(d) * (i * (stride / ItemSize(d))) == i * stride
  {
    var q := stride / ItemSize(d);
    assert stride == ItemSize(d) * q;
    assert ItemSize(d) * (i * q) == i * (ItemSize(d) * q);
  }

  lemma Distributes(a: int, b: int, c: int)
    ensures a * (b + c) == a * b + a * c
  {
  }

  /** What is handed out lets the kernel reach exactly the elements that were checked. */
  lemma HandedOut(key: ViewKey, byteLength: nat, signed: bool)
    ensures Uncached(key, byteLength, signed).Viewed? ==>
              Shows(Uncached(key, byteLength, signed).tensor, key.view, byteLength)
  {
    hide Accepts, Shaped, Span, Distance, Aligned;
    var v := key.view;
    if Accepts(v, byteLength) {
      AcceptedShaped(v, byteLength);
      forall index | IsIndex(v.shape, index)
        ensures var a := ElementAddress(TensorOf(v), index);
          a == Address(v, index) && Aligned(a, v.dtype) && 0 <= a && a + ItemSize(v.dtype) <= byteLength
      {
        DistanceScales(v, TensorOf(v), index, |index|);
        AcceptedIsSafe(v, byteLength, index);
      }
    }
  }

  lemma AcceptedShaped(v: View, byteLength: nat)
    requires Accepts(v, byteLength)
    ensures Shaped(v) && |v.shape| == |v.strides|
  {
  }

  function Keys(entries: seq<Entry>): seq<ViewKey> {
    seq(|entries|, i requires 0 <= i < |entries| => entries[i].key)
  }

  /** What is cached is what computing it again would give. */
  ghost predicate AllComputed(entries: seq<Entry>, byteLength: nat, signed: bool) {
    forall e | e in entries :: Uncached(e.key, byteLength, signed) == Viewed(e.tensor)
  }

  lemma ComputedMoved(entries: seq<Entry>, at: nat, byteLength: nat, signed: bool)
    requires at < |entries| && AllComputed(entries, byteLength, signed)
    ensures AllComputed(entries[..at] + entries[at + 1..] + [entries[at]], byteLength, signed)
  {
    forall e | e in entries[..at] + entries[at + 1..] + [entries[at]]
      ensures e in entries
    {
    }
  }

  lemma ComputedAppended(entries: seq<Entry>, entry: Entry, byteLength: nat, signed: bool)
    requires AllComputed(entries, byteLength, signed) && Uncached(entry.key, byteLength, signed) == Viewed(entry.tensor)
    ensures AllComputed(entries + [entry], byteLength, signed)
    ensures AllComputed((entries + [entry])[1..], byteLength, signed)
  {
    forall e | e in (entries + [entry])[1..]
      ensures e in entries + [entry]
    {
    }
  }

  lemma KeysAppended(entries: seq<Entry>, entry: Entry)
    ensures Keys(entries + [entry]) == Keys(entries) + [entry.key]
    ensures Keys((entries + [entry])[1..]) == (Keys(entries) + [entry.key])[1..]
  {
  }

  lemma DistinctLatest(history: seq<ViewKey>, n: nat)
    ensures Distinct(Latest(Recency(history), n))
  {
    RecencyDistinct(history);
  }

  lemma KeysMoved(entries: seq<Entry>, at: nat)
    requires at < |entries| && Distinct(Keys(entries))
    ensures entries[at].key in Keys(entries)
    ensures Keys(entries[..at] + entries[at + 1..] + [entries[at]]) ==
            Without(Keys(entries), entries[at].key) + [entries[at].key]
  {
    assert Keys(entries)[at] == entries[at].key;
    WithoutAt(Keys(entries), at);
  }

  /** A live mapping of `byteLength` bytes; `signed` tells the native cache from the Python one. */
  class CachedMapping {
    const byteLength: nat
    const signed: bool
    var views: seq<Entry>
    ghost var history: seq<ViewKey>

    /** The views are those of the latest 64 distinct accepted keys, oldest first, each accepted and as computed. */
    ghost predicate Valid()
      reads this
    {
      && Keys(views) == Latest(Recency(history), MAX_CACHED_VIEWS)
      && AllComputed(views, byteLength, signed)
    }

    constructor (byteLength: nat, signed: bool)
      ensures Valid() && history == [] && this.byteLength == byteLength && this.signed == signed
    {
      this.byteLength, this.signed, views, history := byteLength, signed, [], [];
    }

    method Find(key: ViewKey) returns (at: nat)
      ensures at <= |views|
      ensures forall i | 0 <= i < at :: views[i].key != key
      ensures at < |views| ==> views[at].key == key
    {
      at := 0;
      while at < |views| && views[at].key != key
        invariant at <= |views| && forall i | 0 <= i < at :: views[i].key != key
      {
        at := at + 1;
      }
    }

    /** Moves a found view to the back. */
    method Refresh(at: nat)
      requires Valid() && at < |views|
      modifies `views, `history
      ensures Valid() && history == old(history) + [old(views)[at].key]
    {
      var entry := views[at];
      DistinctLatest(history, MAX_CACHED_VIEWS);
      KeysMoved(views, at);
      HitRefreshes(history, entry.key, MAX_CACHED_VIEWS);
      ComputedMoved(views, at, byteLength, signed);
      views := views[..at] + views[at + 1..] + [entry];
      history := history + [entry.key];
    }

    /** Appends a newly accepted view and drops the oldest beyond the limit. */
    method Append(entry: Entry)
      requires Valid() && entry.key !in Keys(views)
      requires Uncached(entry.key, byteLength, signed) == Viewed(entry.tensor)
      modifies `views, `history
      ensures Valid() && history == old(history) + [entry.key]
    {
      MissAppends(history, entry.key, MAX_CACHED_VIEWS);
      KeysAppended(views, entry);
      ComputedAppended(views, entry, byteLength, signed);
      views := views + [entry];
      history := history + [entry.key];
      if |views| > MAX_CACHED_VIEWS {
        views := views[1..];
      }
    }

    /**
     The native lookup: form first, then the cache, then the range. The outcome is the one a
     mapping without a cache gives, although a hit checks no range; for what a ring record carries
     it is the Python lookup's outcome too.
     */
    method TensorNatively(key: ViewKey) returns (r: Outcome)
      requires Valid() && signed && Described(key.view) && byteLength <= UINT64_MAX
      modifies `views, `history
      ensures Valid() && r == Uncached(key, byteLength, true)
      ensures r.Viewed? ==> Shows(r.tensor, key.view, byteLength)
      ensures Carried(key.view) ==> r == Uncached(key, byteLength, false)
      ensures history == if r.Viewed? then old(history) + [key] else old(history)
    {
      HandedOut(key, byteLength, true);
      var shaped := CheckShape(key.view);
      if !shaped {
        return Refused;
      }
      var at := Find(key);
      if at < |views| {
        r := Viewed(views[at].tensor);
        assert views[at] in views;
        Refresh(at);
        return;
      }
      var ranged := CheckRange(key.view, byteLength);
      if !ranged {
        return Refused;
      }
      Append(Entry(key, TensorOf(key.view)));
      r := Viewed(TensorOf(key.view));
    }

    /** The Python lookup: the cache first, then everything else. */
    method TensorInPython(key: ViewKey) returns (r: Outcome)
      requires Valid() && !signed
      modifies `views, `history
      ensures Valid() && r == Uncached(key, byteLength, false)
      ensures r.Viewed? ==> Shows(r.tensor, key.view, byteLength)
      ensures history == if r.Viewed? then old(history) + [key] else old(history)
    {
      HandedOut(key, byteLength, false);
      var at := Find(key);
      if at < |views| {
        r := Viewed(views[at].tensor);
        assert views[at] in views;
        Refresh(at);
        return;
      }
      if !Accepts(key.view, byteLength) {
        return Refused;
      }
      var size := ItemSize(key.view.dtype);
      var storageOffset := key.view.offset / size; // in elements of the whole mapping
      var t := TensorOf(key.view.(offset := storageOffset * size));
      assert t == TensorOf(key.view);
      Append(Entry(key, t));
      r := Viewed(t);
    }
  }

  lemma {:induction false} WithoutAt(keys: seq<ViewKey>, at: nat)
    requires at < |keys| && Distinct(keys)
    ensures Without(keys, keys[at]) == keys[..at] + keys[at + 1..]
  {
    var key := keys[at];
    assert keys == keys[..at] + ([key] + keys[at + 1..]);
    WithoutSplits(keys[..at], [key] + keys[at + 1..], key);
    WithoutKeeps(keys[..at], key);
    WithoutKeeps(keys[at + 1..], key);
    assert ([key] + keys[at + 1..])[1..] == keys[at + 1..];
  }
}
