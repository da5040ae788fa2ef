/**
 A ring record as the other side sees it: a C structure. Every field the encoder writes lies at the
 offset the protocol's header file fixes, whatever order the encoder writes it in.
 */
module RingLayout {
  import opened Wire
  import opened Struct
  import opened Utf8
  import opened RingRecord

  // ----- Fields of a packed format ----------------------------------------------------

  function OffsetOf(f: Format, k: nat): nat
    requires k <= |f|
  {
    if k == 0 then 0 else OffsetOf(f, k - 1) + f[k - 1]
  }

  lemma {:induction false} FieldsAre(f: Format, values: seq<nat>, k: nat)
    requires |values| == |f| && k < |f|
    ensures FieldsOf(f, values)[k] == Field(f[k], values[k])
  {
    if k > 0 {
      FieldsAre(f[1..], values[1..], k - 1);
    }
  }

  lemma {:induction false} OffsetsAre(f: Format, values: seq<nat>, k: nat)
    requires |values| == |f| && k <= |f|
    ensures Offset(FieldsOf(f, values), k) == OffsetOf(f, k)
  {
    if k > 0 {
      OffsetsAre(f, values, k - 1);
      FieldsAre(f, values, k - 1);
    }
  }

  /** The k-th value of packed bytes lies behind the widths before it. */
  lemma FieldAt(f: Format, values: seq<nat>, rest: seq<Byte>, k: nat)
    requires Packable(f, values) && k < |f|
    ensures var b, at := Packed(f, values) + rest, OffsetOf(f, k);
      at + f[k] <= |b| && Load(b, at, f[k]) == values[k]
  {
    hide Pack, Little, Value, Offset, FieldsOf, OffsetOf, Limit;
    var fs := FieldsOf(f, values);
    forall i | 0 <= i < |fs|
      ensures fs[i].value < Limit(fs[i].width)
    {
      FieldsAre(f, values, i);
    }
    FieldsAre(f, values, k);
    OffsetsAre(f, values, k);
    LoadPacked(fs, |f|, k);
    PackedAt(fs, |f|, k);
    var at := OffsetOf(f, k);
    assert (Packed(f, values) + rest)[at..at + f[k]] == Packed(f, values)[at..at + f[k]];
  }

  ghost predicate Reads(b: seq<Byte>, f: Format, values: seq<nat>)
    requires |values| == |f|
  {
    forall k | 0 <= k < |f| ::
      OffsetOf(f, k) + f[k] <= |b| && Load(b, OffsetOf(f, k), f[k]) == values[k]
  }

  lemma PackedReads(f: Format, values: seq<nat>, rest: seq<Byte>)
    requires Packable(f, values)
    ensures Reads(Packed(f, values) + rest, f, values)
  {
    forall k | 0 <= k < |f|
      ensures OffsetOf(f, k) + f[k] <= |Packed(f, values) + rest|
      ensures Load(Packed(f, values) + rest, OffsetOf(f, k), f[k]) == values[k]
    {
      FieldAt(f, values, rest, k);
    }
  }

  // ----- The record -------------------------------------------------------------------

  lemma HeaderOffsets()
    ensures var f := RECORD_HEADER;
      && OffsetOf(f, 0) == 0 && OffsetOf(f, 1) == 4 && OffsetOf(f, 2) == 8 && OffsetOf(f, 3) == 16
      && OffsetOf(f, 4) == 24 && OffsetOf(f, 5) == 32 && OffsetOf(f, 6) == 36 && OffsetOf(f, 7) == 40
      && OffsetOf(f, 8) == 42 && OffsetOf(f, 9) == 44 && OffsetOf(f, 10) == 46 && OffsetOf(f, 11) == 48
  {
  }

  /** The identity, status and counts of a record. */
  lemma HeaderFields(r: Record)
    requires Encodable(r)
    ensures var d := Bytes(r);
      && |d| == RECORD_SIZE && Load(d, 0, 4) == r.kind && Load(d, 4, 4) == r.flags && Load(d, 8, 8) == r.generation
      && Load(d, 16, 8) == r.submissionId && Load(d, 24, 8) == r.invocationId && Load(d, 32, 4) == r.operationId
      && Load(d, 36, 4) == r.status && Load(d, 40, 2) == |r.tensors| && Load(d, 42, 2) == |r.scalars|
      && Load(d, 44, 2) == |r.outputs| && Load(d, 46, 2) == 0 && Load(d, 48, 4) == 0
  {
    hide Bytes, OffsetOf, Load, Packed, Packable, ItemsFit;
    HeaderReadsBack(r);
    HeaderInFront(r);
    PackedReads(RECORD_HEADER, HeaderOf(r), Bytes(r)[52..]);
    HeaderOffsets();
    var d, f, v := Bytes(r), RECORD_HEADER, HeaderOf(r);
    assert forall k | 0 <= k < 12 :: Load(d, OffsetOf(f, k), f[k]) == v[k];
    assert f[0] == 4 && f[1] == 4 && f[2] == 8 && f[3] == 8 && f[4] == 8 && f[5] == 4;
    assert f[6] == 4 && f[7] == 2 && f[8] == 2 && f[9] == 2 && f[10] == 2 && f[11] == 4;
  }

  lemma HeaderInFront(r: Record)
    requires Encodable(r)
    ensures |Bytes(r)| == RECORD_SIZE && Bytes(r) == Packed(RECORD_HEADER, HeaderOf(r)) + Bytes(r)[52..]
  {
    Sections(r);
    HeaderSize();
    PaddedSection(Bytes(r), HeaderBytes(r), TENSORS);
  }

  lemma LoadBehind(a: seq<Byte>, b: seq<Byte>, at: nat, width: nat)
    requires at + width <= |b|
    ensures Load(a + b, |a| + at, width) == Load(b, at, width)
  {
    assert (a + b)[|a| + at..|a| + at + width] == b[at..at + width];
  }

  lemma LoadBefore(a: seq<Byte>, b: seq<Byte>, at: nat, width: nat)
    requires at + width <= |a|
    ensures Load(a + b, at, width) == Load(a, at, width)
  {
    assert (a + b)[at..at + width] == a[at..at + width];
  }

  lemma {:induction false} WordOffsets(n: nat, k: nat)
    requires k <= n
    ensures OffsetOf(Words(n), k) == 8 * k
  {
    if k > 0 {
      WordOffsets(n, k - 1);
    }
  }

  /** Sixteen signed words: the numbers given, then zeros. */
  ghost predicate RowAt(b: seq<Byte>, at: nat, ns: seq<int>) {
    && at + 128 <= |b|
    && forall k | 0 <= k < MAX_RANK :: Signed(Load(b, at + 8 * k, 8)) == if k < |ns| then ns[k] else 0
  }

  lemma RowFields(ns: seq<int>)
    requires AllInt64(ns)
    ensures RowAt(RowBytes(ns), 0, ns)
  {
    WordLimit();
    PackedReads(Words(MAX_RANK), Row(ns), []);
    assert Packed(Words(MAX_RANK), Row(ns)) + [] == RowBytes(ns);
    forall k | 0 <= k < MAX_RANK
      ensures Signed(Load(RowBytes(ns), 8 * k, 8)) == if k < |ns| then ns[k] else 0
    {
      WordOffsets(MAX_RANK, k);
      assert Load(RowBytes(ns), OffsetOf(Words(MAX_RANK), k), Words(MAX_RANK)[k]) == Row(ns)[k];
      if k < |ns| {
        SignedUnsigned(ns[k]);
      }
    }
  }

  lemma RowBehind(a: seq<Byte>, b: seq<Byte>, c: seq<Byte>, ns: seq<int>)
    requires RowAt(b, 0, ns)
    ensures RowAt(a + b + c, |a|, ns)
  {
    forall k | 0 <= k < MAX_RANK
      ensures Load(a + b + c, |a| + 8 * k, 8) == Load(b, 8 * k, 8)
    {
      LoadBehind(a, b, 8 * k, 8);
      LoadBefore(a + b, c, |a| + 8 * k, 8);
    }
  }

  lemma TensorOffsets()
    ensures var f := TENSOR_HEAD;
      && OffsetOf(f, 0) == 0 && OffsetOf(f, 1) == 8 && OffsetOf(f, 2) == 16 && OffsetOf(f, 3) == 24
      && OffsetOf(f, 4) == 32 && OffsetOf(f, 5) == 40 && OffsetOf(f, 6) == 44 && OffsetOf(f, 7) == 46
      && OffsetOf(f, 8) == 48 && OffsetOf(f, 9) == 52 && OffsetOf(f, 10) == 54
  {
  }

  /** A tensor descriptor: handle, range, type, role, and its dimensions and strides in bytes. */
  lemma TensorFields(t: Tensor)
    requires TensorFits(t)
    ensures var b := TensorSlot(t);
      && Load(b, 0, 8) == t.bufferId && Load(b, 8, 8) == t.generation && Load(b, 16, 8) == t.allocationId
      && Load(b, 24, 8) == t.offset && Load(b, 32, 8) == t.byteLength && Load(b, 40, 4) == DtypeId(t.dtype)
      && Load(b, 44, 2) == |t.shape| && Load(b, 46, 2) == t.kind && (Load(b, 48, 4) == 1 <==> t.writable)
      && Load(b, 52, 2) == t.parameter && Load(b, 54, 2) == 0
      && RowAt(b, 56, t.shape) && RowAt(b, 184, t.strides)
  {
    hide OffsetOf, Load, Packed, RowAt, RowBytes, AllInt64, Limit;
    var head, shape, strides := Packed(TENSOR_HEAD, TensorHead(t)), RowBytes(t.shape), RowBytes(t.strides);
    var b, f, v := TensorSlot(t), TENSOR_HEAD, TensorHead(t);
    TensorHeadSize();
    assert b == head + shape + strides && b == head + (shape + strides) && b == head + shape + strides + [];
    PackedReads(f, v, shape + strides);
    TensorOffsets();
    assert forall k | 0 <= k < 11 :: Load(b, OffsetOf(f, k), f[k]) == v[k];
    assert f[0] == 8 && f[1] == 8 && f[2] == 8 && f[3] == 8 && f[4] == 8 && f[5] == 4;
    assert f[6] == 2 && f[7] == 2 && f[8] == 4 && f[9] == 2 && f[10] == 2;
    RowFields(t.shape);
    RowFields(t.strides);
    RowBehind(head, shape, strides, t.shape);
    RowBehind(head + shape, strides, [], t.strides);
  }

  lemma ScalarOffsets()
    ensures var f := SCALAR_HEAD;
      && OffsetOf(f, 0) == 0 && OffsetOf(f, 1) == 2 && OffsetOf(f, 2) == 4 && OffsetOf(f, 3) == 8
      && OffsetOf(f, 4) == 16 && OffsetOf(f, 5) == 20
  {
  }

  /** A scalar argument: its parameter, its kind, and its bits or its text. */
  lemma ScalarFields(a: Argument)
    requires ScalarFits(a)
    ensures var b, c := ScalarSlot(a), a.content;
      && Load(b, 0, 2) == a.parameter && Load(b, 2, 2) == ContentId(c) && Load(b, 4, 4) == 0 && Load(b, 20, 4) == 0
      && (c.Boolean? ==> (Load(b, 8, 8) == 1 <==> c.flag)) && (c.Double? ==> Load(b, 8, 8) == c.bits)
      && (c.Integer? && InInt64(c.number) ==> Signed(Load(b, 8, 8)) == c.number)
      && Load(b, 16, 4) == Size(TextOf(c)) && b[24..24 + Size(TextOf(c))] == Encode(TextOf(c))
  {
    hide OffsetOf, Load, Packed, Packable, Encode;
    var text := Pad(Encode(TextOf(a.content)), MAX_TEXT);
    var b, f, v := ScalarSlot(a), SCALAR_HEAD, ScalarHead(a);
    HeadSizes();
    PaddedParts(Encode(TextOf(a.content)), MAX_TEXT);
    assert b == Packed(f, v) + text && |Packed(f, v)| == 24;
    assert b[24..24 + Size(TextOf(a.content))] == text[..Size(TextOf(a.content))];
    PackedReads(f, v, text);
    ScalarOffsets();
    assert forall k | 0 <= k < 6 :: Load(b, OffsetOf(f, k), f[k]) == v[k];
    assert f[0] == 2 && f[1] == 2 && f[2] == 4 && f[3] == 8 && f[4] == 4 && f[5] == 4;
    if a.content.Integer? {
      SignedUnsigned(a.content.number);
    }
  }

  lemma OutputOffsets()
    ensures var f := OUTPUT_HEAD;
      OffsetOf(f, 0) == 0 && OffsetOf(f, 1) == 4 && OffsetOf(f, 2) == 8 && OffsetOf(f, 3) == 10 && OffsetOf(f, 4) == 12
  {
  }

  /** A planned output: its type, which one it is, and its dimensions. */
  lemma OutputFields(o: PlannedOutput)
    requires OutputFits(o)
    ensures var b := OutputSlot(o);
      && Load(b, 0, 4) == DtypeId(o.dtype) && Load(b, 4, 4) == 0 && Load(b, 8, 2) == |o.shape|
      && Load(b, 10, 2) == o.output && Load(b, 12, 4) == 0 && RowAt(b, 16, o.shape)
  {
    hide OffsetOf, Load, Packed, Packable, RowAt, RowBytes, AllInt64;
    var head, shape := Packed(OUTPUT_HEAD, OutputHead(o)), RowBytes(o.shape);
    var b, f, v := OutputSlot(o), OUTPUT_HEAD, OutputHead(o);
    HeadSizes();
    assert b == head + shape && b == head + shape + [];
    PackedReads(f, v, shape);
    OutputOffsets();
    assert forall k | 0 <= k < 5 :: Load(b, OffsetOf(f, k), f[k]) == v[k];
    assert f[0] == 4 && f[1] == 4 && f[2] == 2 && f[3] == 2 && f[4] == 4;
    RowFields(o.shape);
    RowBehind(head, shape, [], o.shape);
  }

  lemma ErrorOffsets()
    ensures var f := ERROR_HEAD;
      OffsetOf(f, 0) == 0 && OffsetOf(f, 1) == 4 && OffsetOf(f, 2) == 8 && OffsetOf(f, 3) == 12
  {
  }

  /** The error: how much of its type and of its message is there, and a flag for each that was cut. */
  lemma ErrorFields(r: Record)
    ensures var b := ErrorBytes(r);
      var shownType, shownMessage := Load(b, 0, 4), Load(b, 4, 4);
      && shownType <= TYPE_SIZE && b[16..16 + shownType] <= Encode(r.errorType)
      && shownMessage <= MESSAGE_SIZE && b[80..80 + shownMessage] <= Encode(r.errorMessage)
      && (Load(b, 8, 4) % 2 == 1 <==> Size(r.errorType) > shownType)
      && (Load(b, 8, 4) / 2 % 2 == 1 <==> Size(r.errorMessage) > shownMessage)
      && (Size(r.errorType) > shownType ==> shownType == TYPE_SIZE)
      && (Size(r.errorMessage) > shownMessage ==> shownMessage == MESSAGE_SIZE)
      && Load(b, 8, 4) < 4 && Load(b, 12, 4) == 0
  {
    hide OffsetOf, Load, Packed, Encode;
    var texts := Pad(Cut(r.errorType, TYPE_SIZE), TYPE_SIZE) + Pad(Cut(r.errorMessage, MESSAGE_SIZE), MESSAGE_SIZE);
    var b, f, v := ErrorBytes(r), ERROR_HEAD, ErrorHead(r);
    ErrorSections(r);
    assert b == Packed(f, v) + texts;
    assert Limit(4) == 0x1_0000_0000;
    PackedReads(f, v, texts);
    ErrorOffsets();
    assert forall k | 0 <= k < 4 :: Load(b, OffsetOf(f, k), f[k]) == v[k];
    assert f[0] == 4 && f[1] == 4 && f[2] == 4 && f[3] == 4;
  }
}
