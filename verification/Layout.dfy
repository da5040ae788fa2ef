/**
 The host's layout arithmetic: row-major strides and element counts, the descriptors of new tensors
 and of views, and which of them the worker's validator accepts.
 */
module Layout {
  import opened Views
  import Arena

  predicate Positive(shape: seq<int>) {
    forall k | 0 <= k < |shape| :: shape[k] > 0
  }

  /** The product of the dimensions from the k-th on. */
  function Product(shape: seq<int>, k: nat): int
    requires k <= |shape|
    decreases |shape| - k
  {
    if k == |shape| then 1 else shape[k] * Product(shape, k + 1)
  }

  lemma {:induction false} ProductPositive(shape: seq<int>, k: nat)
    requires k <= |shape| && Positive(shape)
    ensures Product(shape, k) > 0
    decreases |shape| - k
  {
    if k < |shape| {
      ProductPositive(shape, k + 1);
      assert shape[k] * Product(shape, k + 1) >= 1 * Product(shape, k + 1);
    }
  }

  // ----- The loops --------------------------------------------------------------------

  function ProductUpTo(shape: seq<int>, n: nat): int
    requires n <= |shape|
  {
    if n == 0 then 1 else ProductUpTo(shape, n - 1) * shape[n - 1]
  }

  lemma {:induction false} ProductsMeet(shape: seq<int>, n: nat)
    requires n <= |shape|
    ensures ProductUpTo(shape, n) * Product(shape, n) == Product(shape, 0)
  {
    if n > 0 {
      ProductsMeet(shape, n - 1);
      var a, d, p := ProductUpTo(shape, n - 1), shape[n - 1], Product(shape, n);
      assert (a * d) * p == a * (d * p);
    }
  }

  method ElementCount(shape: seq<int>) returns (count: int)
    ensures count == Product(shape, 0)
  {
    count := 1;
    for n := 0 to |shape|
      invariant count == ProductUpTo(shape, n)
    {
      count := count * shape[n];
    }
    ProductsMeet(shape, |shape|);
  }

  /** Row-major strides in elements: built back to front, then reversed. */
  method ContiguousStrides(shape: seq<int>) returns (strides: seq<int>)
    requires |shape| > 0
    ensures |strides| == |shape|
    ensures forall k | 0 <= k < |shape| :: strides[k] == Product(shape, k + 1)
  {
    var n := |shape|;
    var backward := [1];
    var i := n - 1;
    while i > 0
      invariant 0 <= i < n && |backward| == n - i
      invariant forall j | 0 <= j < |backward| :: backward[j] == Product(shape, n - j)
    {
      backward := backward + [backward[|backward| - 1] * shape[i]];
      i := i - 1;
    }
    strides := seq(n, k requires 0 <= k < n => backward[n - 1 - k]);
  }

  // ----- Index tuples and element numbers ---------------------------------------------

  /** The element number of an index under row-major strides, from the k-th dimension on. */
  function Flat(shape: seq<int>, index: seq<int>, k: nat): int
    requires k <= |shape| == |index|
    decreases |shape| - k
  {
    if k == |shape| then 0 else index[k] * Product(shape, k + 1) + Flat(shape, index, k + 1)
  }

  /** The index an element number stands for, from the k-th dimension on. */
  function Unflat(shape: seq<int>, n: int, k: nat): (index: seq<int>)
    requires k <= |shape| && Positive(shape)
    ensures |index| == |shape| - k
    decreases |shape| - k
  {
    if k == |shape| then []
    else
      (ProductPositive(shape, k + 1);
       [n / Product(shape, k + 1)] + Unflat(shape, n % Product(shape, k + 1), k + 1))
  }

  predicate IsIndexFrom(shape: seq<int>, index: seq<int>, k: nat)
    requires k <= |shape|
  {
    |index| == |shape| && forall i | k <= i < |shape| :: 0 <= index[i] < shape[i]
  }

  lemma {:induction false} FlatBounded(shape: seq<int>, index: seq<int>, k: nat)
    requires k <= |shape| && Positive(shape) && IsIndexFrom(shape, index, k)
    ensures 0 <= Flat(shape, index, k) < Product(shape, k)
    decreases |shape| - k
  {
    if k < |shape| {
      FlatBounded(shape, index, k + 1);
      Times(index[k], shape[k] - 1, Product(shape, k + 1));
      assert (shape[k] - 1) * Product(shape, k + 1) == shape[k] * Product(shape, k + 1) - Product(shape, k + 1);
    }
  }

  lemma TimesNegative(a: int, c: int)
    requires a <= -1 && c > 0
    ensures a * c <= -c
  {
    Times(1, -a, c);
  }

  lemma OneMultiple(d: int, p: int)
    requires p > 0 && -p < d * p < p
    ensures d == 0
  {
    if d >= 1 {
      Times(1, d, p);
    } else if d <= -1 {
      TimesNegative(d, p);
    }
  }

  lemma Digit(q: int, p: int, r: int)
    requires 0 <= r < p
    ensures (q * p + r) / p == q && (q * p + r) % p == r
  {
    var n := q * p + r;
    var d := q - n / p;
    assert d * p == q * p - (n / p) * p;
    OneMultiple(d, p);
  }

  lemma QuotientBounded(n: int, d: int, p: int)
    requires p > 0 && 0 <= n < d * p
    ensures 0 <= n / p < d && 0 <= n % p < p && n == (n / p) * p + n % p
  {
    var q := n / p;
    if q >= d {
      LeastProduct(d, q, p);
    } else if q < 0 {
      TimesNegative(q, p);
    }
  }

  lemma LeastProduct(d: int, q: int, p: int)
    requires q >= d && p > 0
    ensures q * p >= d * p
  {
    Times(0, q - d, p);
    assert (q - d) * p == q * p - d * p;
  }

  /** Distinct indices have distinct element numbers: the number gives the index back. */
  lemma {:induction false} UnflatFlat(shape: seq<int>, index: seq<int>, k: nat)
    requires k <= |shape| && Positive(shape) && IsIndexFrom(shape, index, k)
    ensures Unflat(shape, Flat(shape, index, k), k) == index[k..]
    decreases |shape| - k
  {
    if k < |shape| {
      UnflatFlat(shape, index, k + 1);
      FlatBounded(shape, index, k + 1);
      Digit(index[k], Product(shape, k + 1), Flat(shape, index, k + 1));
      assert index[k..] == [index[k]] + index[k + 1..];
    }
  }

  /** Every number below the count is some index's. */
  lemma {:induction false} FlatUnflat(shape: seq<int>, n: int, k: nat, before: seq<int>)
    requires k <= |shape| && Positive(shape) && 0 <= n < Product(shape, k) && |before| == k
    ensures IsIndexFrom(shape, before + Unflat(shape, n, k), k)
    ensures Flat(shape, before + Unflat(shape, n, k), k) == n
    decreases |shape| - k
  {
    if k < |shape| {
      ProductPositive(shape, k + 1);
      var p := Product(shape, k + 1);
      QuotientBounded(n, shape[k], p);
      FlatUnflat(shape, n % p, k + 1, before + [n / p]);
      assert before + Unflat(shape, n, k) == before + [n / p] + Unflat(shape, n % p, k + 1);
    }
  }

  /** Row-major strides map index tuples one-to-one onto 0 .. count-1. */
  lemma RowMajorIsOneToOne(shape: seq<int>)
    requires Positive(shape)
    ensures forall index | IsIndex(shape, index) ::
              0 <= Flat(shape, index, 0) < Product(shape, 0) && Unflat(shape, Flat(shape, index, 0), 0) == index
    ensures forall n | 0 <= n < Product(shape, 0) ::
              IsIndex(shape, Unflat(shape, n, 0)) && Flat(shape, Unflat(shape, n, 0), 0) == n
  {
    forall index | IsIndex(shape, index)
      ensures 0 <= Flat(shape, index, 0) < Product(shape, 0) && Unflat(shape, Flat(shape, index, 0), 0) == index
    {
      FlatBounded(shape, index, 0);
      UnflatFlat(shape, index, 0);
    }
    forall n | 0 <= n < Product(shape, 0)
      ensures IsIndex(shape, Unflat(shape, n, 0)) && Flat(shape, Unflat(shape, n, 0), 0) == n
    {
      FlatUnflat(shape, n, 0, []);
      assert [] + Unflat(shape, n, 0) == Unflat(shape, n, 0);
    }
  }

  // ----- Descriptors ------------------------------------------------------------------

  predicate RowMajor(v: View) {
    |v.strides| == |v.shape| && forall k | 0 <= k < |v.shape| ::
      v.strides[k] == Product(v.shape, k + 1) * ItemSize(v.dtype)
  }

  lemma Distribute(i: int, p: int, f: int, m: int)
    ensures (i * p + f) * m == i * (p * m) + f * m
  {
  }

  lemma Telescope(d: int, p: int, m: int)
    ensures (d - 1) * (p * m) + (p - 1) * m == (d * p - 1) * m
  {
    assert (d - 1) * (p * m) == d * (p * m) - p * m;
    assert (p - 1) * m == p * m - m;
    assert (d * p - 1) * m == (d * p) * m - m;
    assert (d * p) * m == d * (p * m);
  }

  lemma MultipleOf8(q: int)
    ensures (8 * q) % 8 == 0 && (8 * q) % 4 == 0
  {
    assert 8 * q == 4 * (2 * q);
  }

  lemma ArenaAligned(a: int, d: Dtype)
    requires a % Arena.ALIGNMENT == 0
    ensures Aligned(a, d)
  {
    var q := 8 * (a / Arena.ALIGNMENT);
    assert a == 8 * q;
    MultipleOf8(q);
    match d
    case Float32 => assert a % 4 == 0;
    case Float64 => assert a % 8 == 0;
    case Int64 => assert a % 8 == 0;
    case Uint8 => assert a % 1 == 0;
  }

  lemma SizeAligned(d: Dtype)
    ensures Aligned(ItemSize(d), d)
  {
  }

  /** An index's distance from the first element is its number times the element size. */
  lemma {:induction false} DistanceIsFlat(v: View, index: seq<int>, k: nat)
    requires RowMajor(v) && |index| == |v.shape| && k <= |index|
    ensures Distance(v.strides, index, |index|) ==
            Distance(v.strides, index, k) + Flat(v.shape, index, k) * ItemSize(v.dtype)
    decreases |index| - k
  {
    if k < |index| {
      DistanceIsFlat(v, index, k + 1);
      var i, p, f, m := index[k], Product(v.shape, k + 1), Flat(v.shape, index, k + 1), ItemSize(v.dtype);
      assert Distance(v.strides, index, k + 1) == Distance(v.strides, index, k) + i * (p * m);
      Distribute(i, p, f, m);
    }
  }

  lemma {:induction false} SpanIsProduct(v: View, k: nat)
    requires RowMajor(v) && k <= |v.shape|
    ensures Span(v.shape, v.strides, |v.shape|) ==
            Span(v.shape, v.strides, k) + (Product(v.shape, k) - 1) * ItemSize(v.dtype)
    decreases |v.shape| - k
  {
    if k < |v.shape| {
      SpanIsProduct(v, k + 1);
      var d, p, m := v.shape[k], Product(v.shape, k + 1), ItemSize(v.dtype);
      Telescope(d, p, m);
    }
  }

  datatype Result = Made(view: View) | Refused

  /**
   The descriptor of a new tensor at `offset` of its region. The allocator gives an aligned offset
   and room for the whole tensor.
   */
  method Empty(shape: seq<int>, dtype: Dtype, offset: int, bufferLength: int) returns (r: Result)
    requires offset >= 0 && offset % Arena.ALIGNMENT == 0
    requires Positive(shape) && |shape| > 0 ==> offset + Product(shape, 0) * ItemSize(dtype) <= bufferLength
    ensures r.Refused? <==> shape == [] || !Positive(shape)
    ensures r.Made? ==>
      && r.view.shape == shape && r.view.offset == offset && RowMajor(r.view)
      && r.view.byteLength == Product(shape, 0) * ItemSize(dtype)
      && r.view.byteLength == ItemSize(dtype) + Span(shape, r.view.strides, |shape|)
      && (Accepts(r.view, bufferLength) <==> |shape| <= MAX_RANK)
      && forall index | IsIndex(shape, index) ::
        Address(r.view, index) == offset + Flat(shape, index, 0) * ItemSize(dtype)
  {
    if shape == [] || exists k | 0 <= k < |shape| :: shape[k] <= 0 {
      return Refused;
    }
    var count := ElementCount(shape);
    var elementStrides := ContiguousStrides(shape);
    var strides := seq(|shape|, k requires 0 <= k < |shape| => elementStrides[k] * ItemSize(dtype));
    r := Made(View(offset, count * ItemSize(dtype), dtype, shape, strides));
    SpanIsProduct(r.view, 0);
    EmptyIsSound(r.view);
    forall index | IsIndex(shape, index)
      ensures Address(r.view, index) == offset + Flat(shape, index, 0) * ItemSize(dtype)
    {
      DistanceIsFlat(r.view, index, 0);
    }
  }

  lemma EmptyIsSound(v: View)
    requires RowMajor(v) && Positive(v.shape) && |v.shape| > 0 && v.offset % Arena.ALIGNMENT == 0
    requires v.byteLength == Product(v.shape, 0) * ItemSize(v.dtype)
    ensures v.byteLength > 0 && Aligned(v.offset, v.dtype)
    ensures |v.shape| <= MAX_RANK ==> Shaped(v)
  {
    ProductPositive(v.shape, 0);
    ArenaAligned(v.offset, v.dtype);
    forall k | 0 <= k < |v.shape|
      ensures v.strides[k] >= 0 && Aligned(v.strides[k], v.dtype)
    {
      StrideIsSound(Product(v.shape, k + 1), v.dtype, v.shape, k);
    }
  }

  lemma StrideIsSound(p: int, d: Dtype, shape: seq<int>, k: nat)
    requires k < |shape| && Positive(shape) && p == Product(shape, k + 1)
    ensures p * ItemSize(d) >= 0 && Aligned(p * ItemSize(d), d)
  {
    ProductPositive(shape, k + 1);
    SizeAligned(d);
    MultipleAligned(p, ItemSize(d), d);
  }

  /** A tensor's strides and place in its storage, in elements. */
  datatype Tensor = Tensor(shape: seq<int>, strides: seq<int>, storageOffset: int, dtype: Dtype)

  predicate HasElements(t: Tensor) {
    forall k | 0 <= k < |t.shape| :: t.shape[k] != 0
  }

  function ByteStrides(t: Tensor): seq<int> {
    seq(|t.strides|, k requires 0 <= k < |t.strides| => t.strides[k] * ItemSize(t.dtype))
  }

  /** The bytes a view spans: none when it has no elements. */
  function ViewLength(t: Tensor): int
    requires |t.shape| == |t.strides|
  {
    if HasElements(t) then ItemSize(t.dtype) + Span(t.shape, ByteStrides(t), |t.shape|) else 0
  }

  /** The view keeps to an allocation of `length` bytes, and no stride runs backwards. */
  predicate Manageable(t: Tensor, length: int)
    requires |t.shape| == |t.strides|
  {
    && (forall k | 0 <= k < |t.strides| :: t.strides[k] >= 0)
    && t.storageOffset >= 0 && t.storageOffset * ItemSize(t.dtype) + ViewLength(t) <= length
  }

  /** The descriptor of a view of an allocation that begins at `start`. */
  function ManagedView(t: Tensor, start: int): View
    requires |t.shape| == |t.strides|
  {
    View(start + t.storageOffset * ItemSize(t.dtype), ViewLength(t), t.dtype, t.shape, ByteStrides(t))
  }

  /** Where the host's tensor has the element at an index, of a storage that begins at `start`. */
  function HostAddress(t: Tensor, start: int, index: seq<int>): int
    requires |index| == |t.strides|
  {
    start + ItemSize(t.dtype) * (t.storageOffset + Distance(t.strides, index, |index|))
  }

  lemma {:induction false} BytesScale(t: Tensor, index: seq<int>, n: nat)
    requires |index| == |t.strides| && n <= |index|
    ensures Distance(ByteStrides(t), index, n) == ItemSize(t.dtype) * Distance(t.strides, index, n)
  {
    if n > 0 {
      BytesScale(t, index, n - 1);
      Distribute(1, Distance(t.strides, index, n - 1), index[n - 1] * t.strides[n - 1], ItemSize(t.dtype));
      Regroup(index[n - 1], t.strides[n - 1], ItemSize(t.dtype));
    }
  }

  lemma Regroup(i: int, stride: int, m: int)
    ensures i * (stride * m) == (i * stride) * m
  {
  }

  /** The descriptor has every element where the host has it, and reaches no further than the last. */
  ghost predicate Describes(v: View, t: Tensor, start: int)
    requires |t.shape| == |t.strides|
  {
    && v.dtype == t.dtype && v.shape == t.shape && |v.strides| == |v.shape|
    && (forall index | IsIndex(t.shape, index) :: Address(v, index) == HostAddress(t, start, index))
    && v.offset == start + t.storageOffset * ItemSize(t.dtype)
    && if HasElements(t)
       then v.offset + v.byteLength == HostAddress(t, start, LastIndex(t.shape)) + ItemSize(t.dtype)
       else v.byteLength == 0
  }

  function LastIndex(shape: seq<int>): (index: seq<int>)
    ensures |index| == |shape|
  {
    seq(|shape|, k requires 0 <= k < |shape| => shape[k] - 1)
  }

  lemma SameAddress(t: Tensor, start: int, index: seq<int>)
    requires |t.shape| == |t.strides| == |index|
    ensures Address(ManagedView(t, start), index) == HostAddress(t, start, index)
  {
    BytesScale(t, index, |index|);
    Distribute(1, t.storageOffset, Distance(t.strides, index, |index|), ItemSize(t.dtype));
  }

  lemma ManagedDescribes(t: Tensor, start: int)
    requires |t.shape| == |t.strides|
    ensures Describes(ManagedView(t, start), t, start)
  {
    forall index | IsIndex(t.shape, index)
      ensures Address(ManagedView(t, start), index) == HostAddress(t, start, index)
    {
      SameAddress(t, start, index);
    }
    SameAddress(t, start, LastIndex(t.shape));
    LastDistance(t.shape, ByteStrides(t), LastIndex(t.shape), |t.shape|);
  }

  /**
   The descriptor of a view of a live allocation that begins at `start` and spans `length` bytes. The
   worker accepts it exactly when it has a dimension, not too many, and an element.
   */
  method Managed(t: Tensor, start: int, length: int) returns (r: Result)
    requires |t.shape| == |t.strides| && (forall k | 0 <= k < |t.shape| :: t.shape[k] >= 0)
    ensures r.Made? <==> Manageable(t, length)
    ensures r.Made? ==> r.view == ManagedView(t, start) && Describes(r.view, t, start)
    ensures r.Made? ==>
      forall bufferLength | start + length <= bufferLength && start >= 0 && start % Arena.ALIGNMENT == 0 ::
        Accepts(r.view, bufferLength) <==> 0 < |t.shape| <= MAX_RANK && Positive(t.shape)
  {
    if exists k | 0 <= k < |t.strides| :: t.strides[k] < 0 {
      return Refused;
    }
    var offset := start + t.storageOffset * ItemSize(t.dtype);
    var byteLength := ViewLength(t);
    if offset < start || offset + byteLength > start + length {
      return Refused;
    }
    r := Made(View(offset, byteLength, t.dtype, t.shape, ByteStrides(t)));
    ManagedDescribes(t, start);
    forall bufferLength | start + length <= bufferLength && start >= 0 && start % Arena.ALIGNMENT == 0
      ensures Accepts(r.view, bufferLength) <==> 0 < |t.shape| <= MAX_RANK && Positive(t.shape)
    {
      if 0 < |t.shape| <= MAX_RANK && Positive(t.shape) {
        ManagedIsSound(t, start);
      }
    }
  }

  lemma ManagedIsSound(t: Tensor, start: int)
    requires |t.shape| == |t.strides| && 0 < |t.shape| <= MAX_RANK && Positive(t.shape)
    requires forall k | 0 <= k < |t.strides| :: t.strides[k] >= 0
    requires start % Arena.ALIGNMENT == 0
    ensures var v := ManagedView(t, start);
      Shaped(v) && Aligned(v.offset, v.dtype) && v.byteLength > 0
  {
    var v := ManagedView(t, start);
    SizeAligned(t.dtype);
    forall k | 0 <= k < |v.strides|
      ensures v.strides[k] >= 0 && Aligned(v.strides[k], v.dtype)
    {
      Times(0, t.strides[k], ItemSize(t.dtype));
      MultipleAligned(t.strides[k], ItemSize(t.dtype), t.dtype);
    }
    SpanGrows(v.shape, v.strides, |v.shape|, |v.shape|);
    OffsetAligned(start, t.storageOffset, t.dtype);
  }

  lemma OffsetAligned(start: int, elements: int, d: Dtype)
    requires start % Arena.ALIGNMENT == 0
    ensures Aligned(start + elements * ItemSize(d), d)
  {
    ArenaAligned(start, d);
    SizeAligned(d);
    MultipleAligned(elements, ItemSize(d), d);
    SumAligned(start, elements * ItemSize(d), d);
  }

  lemma {:induction false} ProductOfOnes(shape: seq<int>, k: nat)
    requires k <= |shape| && forall i | 0 <= i < |shape| :: shape[i] == 1
    ensures Product(shape, k) == 1
    decreases |shape| - k
  {
    if k < |shape| {
      ProductOfOnes(shape, k + 1);
    }
  }

  /** A new tensor of seventeen dimensions of 1 has a descriptor that no worker accepts. */
  lemma SeventeenDimensions(bufferLength: int)
    ensures var v := View(0, 4, Float32, seq(17, _ => 1), seq(17, _ => 4));
      && Positive(v.shape) && RowMajor(v) && v.byteLength == Product(v.shape, 0) * ItemSize(v.dtype)
      && !Accepts(v, bufferLength)
  {
    var shape := seq(17, _ => 1);
    forall k | 0 <= k <= 17
      ensures Product(shape, k) == 1
    {
      ProductOfOnes(shape, k);
    }
  }

  /** So has a single element without dimensions, and a part of a tensor that has no elements. */
  lemma ScalarAndEmptyView(bufferLength: int)
    ensures var scalar, empty := Tensor([], [], 0, Float32), Tensor([0], [1], 0, Float32);
      && Manageable(scalar, 4) && !Accepts(ManagedView(scalar, 0), bufferLength)
      && Manageable(empty, 4) && !Accepts(ManagedView(empty, 0), bufferLength)
  {
    var empty := Tensor([0], [1], 0, Float32);
    assert empty.shape[0] == 0;
  }
}
