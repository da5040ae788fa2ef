/** Little-endian values packed one after another by the widths of a format. */
module Struct {
  import opened Wire

  type Format = seq<nat>

  function SizeOf(f: Format): nat {
    if f == [] then 0 else f[0] + SizeOf(f[1..])
  }

  /** Packing fails on any other values. */
  predicate Packable(f: Format, values: seq<nat>) {
    |values| == |f| && forall k | 0 <= k < |f| :: values[k] < Limit(f[k])
  }

  function FieldsOf(f: Format, values: seq<nat>): (fs: seq<Field>)
    requires |values| == |f|
    ensures |fs| == |f|
  {
    if f == [] then [] else [Field(f[0], values[0])] + FieldsOf(f[1..], values[1..])
  }

  lemma {:induction false} FieldsSize(f: Format, values: seq<nat>)
    requires |values| == |f|
    ensures Offset(FieldsOf(f, values), |f|) == SizeOf(f)
  {
    if f != [] {
      FieldsSize(f[1..], values[1..]);
      PackFirst(FieldsOf(f, values), |f|);
    }
  }

  function Packed(f: Format, values: seq<nat>): (b: seq<Byte>)
    requires |values| == |f|
    ensures |b| == SizeOf(f)
  {
    FieldsSize(f, values);
    Pack(FieldsOf(f, values), |f|)
  }

  lemma PackedFirst(f: Format, values: seq<nat>)
    requires |values| == |f| && f != []
    ensures Packed(f, values) == Little(values[0], f[0]) + Packed(f[1..], values[1..])
  {
    PackFirst(FieldsOf(f, values), |f|);
  }

  /** What bytes hold at the places of a format; bytes after them do not matter. */
  function Unpacked(f: Format, b: seq<Byte>): (values: seq<nat>)
    requires SizeOf(f) <= |b|
    ensures |values| == |f|
  {
    if f == [] then [] else [Value(b[..f[0]])] + Unpacked(f[1..], b[f[0]..])
  }

  lemma {:induction false} UnpackPacked(f: Format, values: seq<nat>, rest: seq<Byte>)
    requires Packable(f, values)
    ensures Unpacked(f, Packed(f, values) + rest) == values
  {
    if f != [] {
      var first, more := Little(values[0], f[0]), Packed(f[1..], values[1..]);
      LittleValue(values[0], f[0]);
      PackedFirst(f, values);
      assert first + more + rest == first + (more + rest);
      assert (first + (more + rest))[..f[0]] == first && (first + (more + rest))[f[0]..] == more + rest;
      UnpackPacked(f[1..], values[1..], rest);
      assert [values[0]] + values[1..] == values;
    }
  }

  // ----- Words of 64 bits -------------------------------------------------------------

  function Words(n: nat): Format {
    seq(n, _ => 8)
  }

  lemma {:induction false} WordsSize(n: nat)
    ensures SizeOf(Words(n)) == 8 * n
  {
    if n > 0 {
      WordsSize(n - 1);
      assert Words(n)[1..] == Words(n - 1);
    }
  }

  lemma WordLimit()
    ensures Limit(8) == TWO_64
  {
  }

  predicate InInt64(n: int) {
    -TWO_63 <= n < TWO_63
  }

  /** Two's complement: the 64 bits of an integer, and the signed integer of 64 bits. */
  function Unsigned(n: int): (w: nat)
    ensures w < TWO_64
  {
    n % TWO_64
  }

  function Signed(w: nat): int {
    if w >= TWO_63 then w - TWO_64 else w
  }

  /** An integer survives exactly when it is in range; it comes back congruent in any case. */
  lemma SignedUnsigned(n: int)
    ensures InInt64(Signed(Unsigned(n))) && Unsigned(Signed(Unsigned(n))) == Unsigned(n)
    ensures Signed(Unsigned(n)) == n <==> InInt64(n)
  {
  }
}
