/**
 Strided tensor views over a mapped buffer. Two validators: the native one adds and multiplies in
 64 bits and refuses on overflow, the Python one computes with unbounded integers.
 */
module Views {

  const MAX_RANK := 16
  const UINT64_MAX := 0xFFFF_FFFF_FFFF_FFFF
  const INT64_MAX := 0x7FFF_FFFF_FFFF_FFFF

  datatype Dtype = Float32 | Float64 | Int64 | Uint8

  function ItemSize(d: Dtype): nat {
    match d
    case Float32 => 4
    case Float64 => 8
    case Int64 => 8
    case Uint8 => 1
  }

  /** How many bits an element has. */
  function Bits(d: Dtype): nat {
    match d
    case Float32 => 32
    case Float64 => 64
    case Int64 => 64
    case Uint8 => 8
  }

  /** The sizes are those widths in bytes, and every one divides the alignment of an allocation. */
  lemma SizesAreWidths(d: Dtype)
    ensures 8 * ItemSize(d) == Bits(d) && 64 % ItemSize(d) == 0
  {
  }

  /** Offset, length and strides are in bytes. */
  datatype View = View(offset: int, byteLength: int, dtype: Dtype, shape: seq<int>, strides: seq<int>)

  /** The ranges of the fields as a ring record carries them: dimensions and strides are signed. */
  predicate Carried(v: View) {
    && 0 <= v.offset <= UINT64_MAX && 0 <= v.byteLength <= UINT64_MAX
    && (forall k | 0 <= k < |v.shape| :: v.shape[k] <= INT64_MAX)
    && (forall k | 0 <= k < |v.strides| :: v.strides[k] <= INT64_MAX)
  }

  /** The wider ranges of the descriptor the native lookup takes, whose dimensions are unsigned. */
  predicate Described(v: View) {
    && 0 <= v.offset <= UINT64_MAX && 0 <= v.byteLength <= UINT64_MAX
    && (forall k | 0 <= k < |v.shape| :: 0 <= v.shape[k] <= UINT64_MAX)
    && (forall k | 0 <= k < |v.strides| :: v.strides[k] <= INT64_MAX)
  }

  // ----- The unbounded validator ------------------------------------------------------

  /** The bytes between the first and the last element, along the first `n` dimensions. */
  function Span(shape: seq<int>, strides: seq<int>, n: nat): int
    requires n <= |shape| && n <= |strides|
  {
    if n == 0 then 0 else Span(shape, strides, n - 1) + (shape[n - 1] - 1) * strides[n - 1]
  }

  predicate Shaped(v: View) {
    && 0 < |v.shape| <= MAX_RANK && |v.shape| == |v.strides|
    && (forall k | 0 <= k < |v.shape| :: v.shape[k] > 0)
    && (forall k | 0 <= k < |v.strides| :: v.strides[k] >= 0 && Aligned(v.strides[k], v.dtype))
  }

  predicate Ranged(v: View, bufferLength: int) {
    && v.offset >= 0 && Aligned(v.offset, v.dtype) && v.byteLength > 0
    && v.offset + v.byteLength <= bufferLength
  }

  predicate Accepts(v: View, bufferLength: int) {
    && Shaped(v) && Ranged(v, bufferLength)
    && ItemSize(v.dtype) + Span(v.shape, v.strides, |v.shape|) <= v.byteLength
  }

  // ----- What acceptance means --------------------------------------------------------

  predicate IsIndex(shape: seq<int>, index: seq<int>) {
    |index| == |shape| && forall k | 0 <= k < |shape| :: 0 <= index[k] < shape[k]
  }

  function Distance(strides: seq<int>, index: seq<int>, n: nat): int
    requires n <= |strides| && n <= |index|
  {
    if n == 0 then 0 else Distance(strides, index, n - 1) + index[n - 1] * strides[n - 1]
  }

  /** Where in the mapping the element at an index starts. */
  function Address(v: View, index: seq<int>): int
    requires |index| == |v.strides|
  {
    v.offset + Distance(v.strides, index, |index|)
  }

  lemma Times(a: int, b: int, c: int)
    requires 0 <= a <= b && c >= 0
    ensures 0 <= a * c <= b * c
  {
  }

  predicate Aligned(a: int, d: Dtype) {
    a % ItemSize(d) == 0
  }

  lemma MultipleAligned(a: int, b: int, d: Dtype)
    requires Aligned(b, d)
    ensures Aligned(a * b, d)
  {
    var q := b / ItemSize(d);
    assert a * b == (a * q) * ItemSize(d);
    match d
    case Float32 => assert a * b == (a * q) * 4;
    case Uint8 =>
    case _ => assert a * b == (a * q) * 8;
  }

  lemma SumAligned(a: int, b: int, d: Dtype)
    requires Aligned(a, d) && Aligned(b, d)
    ensures Aligned(a + b, d)
  {
    match d
    case _ =>
  }

  lemma {:induction false} DistanceBounded(shape: seq<int>, strides: seq<int>, index: seq<int>, n: nat)
    requires n <= |shape| == |strides| && IsIndex(shape, index)
    requires forall k | 0 <= k < |strides| :: strides[k] >= 0
    ensures 0 <= Distance(strides, index, n) <= Span(shape, strides, n)
  {
    if n > 0 {
      DistanceBounded(shape, strides, index, n - 1);
      Times(index[n - 1], shape[n - 1] - 1, strides[n - 1]);
    }
  }

  lemma {:induction false} DistanceAligned(v: View, index: seq<int>, n: nat)
    requires Shaped(v) && |index| == |v.strides| && n <= |index|
    ensures Aligned(Distance(v.strides, index, n), v.dtype)
  {
    if n > 0 {
      DistanceAligned(v, index, n - 1);
      MultipleAligned(index[n - 1], v.strides[n - 1], v.dtype);
      SumAligned(Distance(v.strides, index, n - 1), index[n - 1] * v.strides[n - 1], v.dtype);
    }
  }

  lemma {:induction false} LastDistance(shape: seq<int>, strides: seq<int>, index: seq<int>, n: nat)
    requires n <= |shape| == |strides| == |index| && forall k | 0 <= k < |shape| :: index[k] == shape[k] - 1
    ensures Distance(strides, index, n) == Span(shape, strides, n)
  {
    if n > 0 {
      LastDistance(shape, strides, index, n - 1);
    }
  }

  predicate Inside(v: View, index: seq<int>)
    requires |index| == |v.strides|
  {
    v.offset <= Address(v, index) && Address(v, index) + ItemSize(v.dtype) <= v.offset + v.byteLength
  }

  /**
   A view of sound form and range is accepted exactly when every element of every index tuple lies
   inside the declared range, hence inside the mapping.
   */
  lemma AcceptedExactly(v: View, bufferLength: int)
    ensures Accepts(v, bufferLength) <==>
            Shaped(v) && Ranged(v, bufferLength) && forall index | IsIndex(v.shape, index) :: Inside(v, index)
  {
    if Shaped(v) && Ranged(v, bufferLength) {
      forall index | IsIndex(v.shape, index)
        ensures 0 <= Distance(v.strides, index, |index|) <= Span(v.shape, v.strides, |v.shape|)
      {
        DistanceBounded(v.shape, v.strides, index, |v.shape|);
      }
      var last := seq(|v.shape|, k requires 0 <= k < |v.shape| => v.shape[k] - 1);
      LastDistance(v.shape, v.strides, last, |v.shape|);
      assert IsIndex(v.shape, last);
    }
  }

  /** Every element of an accepted view is aligned and lies inside the mapping. */
  lemma AcceptedIsSafe(v: View, bufferLength: int, index: seq<int>)
    requires Accepts(v, bufferLength) && IsIndex(v.shape, index)
    ensures Aligned(Address(v, index), v.dtype)
    ensures 0 <= Address(v, index) && Address(v, index) + ItemSize(v.dtype) <= bufferLength
  {
    DistanceBounded(v.shape, v.strides, index, |v.shape|);
    DistanceAligned(v, index, |index|);
    SumAligned(v.offset, Distance(v.strides, index, |index|), v.dtype);
  }

  // ----- The native validator ---------------------------------------------------------

  datatype Checked = Fits(value: nat) | Overflow

  method CheckedAdd(left: nat, right: nat) returns (r: Checked)
    requires left <= UINT64_MAX && right <= UINT64_MAX
    ensures r == if left + right <= UINT64_MAX then Fits(left + right) else Overflow
  {
    if right > UINT64_MAX - left {
      return Overflow;
    }
    r := Fits(left + right);
  }

  method CheckedMultiply(left: nat, right: nat) returns (r: Checked)
    requires left <= UINT64_MAX && right <= UINT64_MAX
    ensures r == if left * right <= UINT64_MAX then Fits(left * right) else Overflow
  {
    if left != 0 && right > UINT64_MAX / left {
      QuotientTooLarge(left, right);
      return Overflow;
    }
    if left != 0 {
      QuotientFits(left, right);
    }
    r := Fits(left * right);
  }

  lemma QuotientTooLarge(left: nat, right: nat)
    requires left > 0 && right > UINT64_MAX / left
    ensures left * right > UINT64_MAX
  {
    Times(UINT64_MAX / left + 1, right, left);
  }

  lemma QuotientFits(left: nat, right: nat)
    requires left > 0 && right <= UINT64_MAX / left
    ensures left * right <= UINT64_MAX
  {
    Times(right, UINT64_MAX / left, left);
  }

  /** Dimensions the native side can hand to Torch. */
  predicate Signed(shape: seq<int>) {
    forall k | 0 <= k < |shape| :: shape[k] <= INT64_MAX
  }

  method CheckShape(v: View) returns (ok: bool)
    requires Described(v)
    ensures ok <==> Shaped(v) && Signed(v.shape)
  {
    if |v.shape| == 0 || |v.shape| != |v.strides| || |v.shape| > MAX_RANK {
      return false;
    }
    for k := 0 to |v.shape|
      invariant forall i | 0 <= i < k :: 0 < v.shape[i] <= INT64_MAX
      invariant forall i | 0 <= i < k :: v.strides[i] >= 0 && Aligned(v.strides[i], v.dtype)
    {
      if v.shape[k] == 0 || v.shape[k] > INT64_MAX {
        return false;
      }
      if v.strides[k] < 0 || v.strides[k] % ItemSize(v.dtype) != 0 {
        return false;
      }
    }
    ok := true;
  }

  lemma {:induction false} SpanGrows(shape: seq<int>, strides: seq<int>, k: nat, n: nat)
    requires k <= n <= |shape| == |strides|
    requires forall i | 0 <= i < n :: shape[i] > 0 && strides[i] >= 0
    ensures 0 <= Span(shape, strides, k) <= Span(shape, strides, n)
  {
    if k < n {
      SpanGrows(shape, strides, k, n - 1);
      Times(0, shape[n - 1] - 1, strides[n - 1]);
    } else if k > 0 {
      SpanGrows(shape, strides, k - 1, k - 1);
      Times(0, shape[n - 1] - 1, strides[n - 1]);
    }
  }

  method CheckRange(v: View, bufferLength: nat) returns (ok: bool)
    requires Described(v) && Shaped(v) && Signed(v.shape) && bufferLength <= UINT64_MAX
    ensures ok <==> Accepts(v, bufferLength)
  {
    if v.offset % ItemSize(v.dtype) != 0 || v.byteLength == 0 {
      return false;
    }
    var end := CheckedAdd(v.offset, v.byteLength);
    if end.Overflow? || end.value > bufferLength {
      return false;
    }
    var required: nat := ItemSize(v.dtype);
    for k := 0 to |v.shape|
      invariant required == ItemSize(v.dtype) + Span(v.shape, v.strides, k) <= UINT64_MAX
    {
      SpanGrows(v.shape, v.strides, k + 1, |v.shape|);
      Times(0, v.shape[k] - 1, v.strides[k]);
      var sum := Accumulate(required, v.shape[k] - 1, v.strides[k]);
      if sum.Overflow? {
        return false;
      }
      required := sum.value;
    }
    ok := required <= v.byteLength;
  }

  /** One dimension's share of the span; overflow of the product is overflow of the sum. */
  method Accumulate(required: nat, steps: nat, stride: nat) returns (r: Checked)
    requires required <= UINT64_MAX && steps <= UINT64_MAX && stride <= UINT64_MAX
    ensures r == if required + steps * stride <= UINT64_MAX then Fits(required + steps * stride) else Overflow
  {
    Times(0, steps, stride);
    var step := CheckedMultiply(steps, stride);
    if step.Overflow? {
      return Overflow;
    }
    r := CheckedAdd(required, step.value);
  }

  /** The native lookup's checks of a descriptor: the unbounded ones, and dimensions Torch can index. */
  method AcceptsNatively(v: View, bufferLength: nat) returns (ok: bool)
    requires Described(v) && bufferLength <= UINT64_MAX
    ensures ok <==> Accepts(v, bufferLength) && Signed(v.shape)
  {
    ok := CheckShape(v);
    if ok {
      ok := CheckRange(v, bufferLength);
    }
  }

  /**
   On whatever a ring record carries, the overflow-checked validator and the unbounded one agree:
   no 64-bit overflow accepts or refuses what exact arithmetic would not.
   */
  method AcceptsFromRing(v: View, bufferLength: nat) returns (ok: bool)
    requires Carried(v) && bufferLength <= UINT64_MAX
    ensures ok <==> Accepts(v, bufferLength)
  {
    for k := 0 to |v.shape|
      invariant forall i | 0 <= i < k :: v.shape[i] > 0
    {
      if v.shape[k] <= 0 {
        return false;
      }
    }
    ok := AcceptsNatively(v, bufferLength);
  }

  /**
   A descriptor from elsewhere could differ: 2^63 elements at stride 0 fit any buffer, but not a
   signed index. No ring record carries it.
   */
  lemma HugeDimension()
    ensures var v := View(0, 1, Uint8, [INT64_MAX + 1], [0]);
      Described(v) && !Carried(v) && Accepts(v, 1) && !Signed(v.shape)
  {
    var v := View(0, 1, Uint8, [INT64_MAX + 1], [0]);
    assert Span(v.shape, v.strides, 1) == Span(v.shape, v.strides, 0) + INT64_MAX * 0;
    assert v.shape[0] > INT64_MAX;
  }
}
