/** Little-endian fields laid end to end: what both byte formats of the protocol are made of. */
module Wire {

  const TWO_63 := 0x8000_0000_0000_0000
  const TWO_64 := 0x1_0000_0000_0000_0000

  type Byte = x: int | 0 <= x < 256

  datatype Field = Field(width: nat, value: nat)

  /** The first value too large for `width` bytes. */
  function Limit(width: nat): nat {
    if width == 0 then 1 else 256 * Limit(width - 1)
  }

  function Value(b: seq<Byte>): nat {
    if b == [] then 0 else b[0] + 256 * Value(b[1..])
  }

  function Little(v: nat, width: nat): (r: seq<Byte>)
    ensures |r| == width
  {
    if width == 0 then [] else [v % 256] + Little(v / 256, width - 1)
  }

  lemma {:induction false} LittleValue(v: nat, width: nat)
    requires v < Limit(width)
    ensures Value(Little(v, width)) == v
  {
    if width > 0 {
      LittleValue(v / 256, width - 1);
      assert Little(v, width)[1..] == Little(v / 256, width - 1);
    }
  }

  lemma {:induction false} ValueLittle(b: seq<Byte>)
    ensures Value(b) < Limit(|b|)
    ensures Little(Value(b), |b|) == b
  {
    if b != [] {
      ValueLittle(b[1..]);
      assert Value(b) % 256 == b[0] && Value(b) / 256 == Value(b[1..]);
      assert b == [b[0]] + b[1..];
    }
  }

  function Load(b: seq<Byte>, at: nat, width: nat): nat
    requires at + width <= |b|
  {
    Value(b[at..at + width])
  }

  function Offset(fs: seq<Field>, n: nat): nat
    requires n <= |fs|
  {
    if n == 0 then 0 else Offset(fs, n - 1) + fs[n - 1].width
  }

  function Pack(fs: seq<Field>, n: nat): (r: seq<Byte>)
    requires n <= |fs|
    ensures |r| == Offset(fs, n)
  {
    if n == 0 then [] else Pack(fs, n - 1) + Little(fs[n - 1].value, fs[n - 1].width)
  }

  ghost predicate Fits(fs: seq<Field>) {
    forall k | 0 <= k < |fs| :: fs[k].value < Limit(fs[k].width)
  }

  predicate LoadsField(b: seq<Byte>, fs: seq<Field>, k: nat)
    requires k < |fs|
  {
    Offset(fs, k) + fs[k].width <= |b| && Load(b, Offset(fs, k), fs[k].width) == fs[k].value
  }

  /** Fields `first` to `end` read as they should. */
  ghost predicate Loads(b: seq<Byte>, fs: seq<Field>, first: nat, end: nat)
    requires end <= |fs|
  {
    forall k | first <= k < end :: LoadsField(b, fs, k)
  }

  lemma {:induction false} PackedAt(fs: seq<Field>, n: nat, k: nat)
    requires k < n <= |fs|
    ensures Offset(fs, k) + fs[k].width <= Offset(fs, n)
    ensures Pack(fs, n)[Offset(fs, k)..Offset(fs, k) + fs[k].width] == Little(fs[k].value, fs[k].width)
  {
    if k < n - 1 {
      PackedAt(fs, n - 1, k);
    }
  }

  /** Reading a packed field gives it back. */
  lemma LoadPacked(fs: seq<Field>, n: nat, k: nat)
    requires k < n <= |fs| && Fits(fs)
    ensures LoadsField(Pack(fs, n), fs, k)
  {
    PackedAt(fs, n, k);
    LittleValue(fs[k].value, fs[k].width);
  }

  /** Bytes in which every field reads as given are the packed fields, and no others are. */
  lemma {:induction false} PackedFromLoads(b: seq<Byte>, fs: seq<Field>, n: nat)
    requires n <= |fs| && Offset(fs, n) <= |b| && Loads(b, fs, 0, n)
    ensures b[..Offset(fs, n)] == Pack(fs, n)
  {
    hide Value, Little;
    if n > 0 {
      PackedFromLoads(b, fs, n - 1);
      var at, end := Offset(fs, n - 1), Offset(fs, n);
      assert LoadsField(b, fs, n - 1);
      ValueLittle(b[at..end]);
      assert b[..end] == b[..at] + b[at..end];
    }
  }

  lemma {:induction false} PackPrefix(a: seq<Field>, b: seq<Field>, n: nat)
    requires n <= |a| && n <= |b| && forall k | 0 <= k < n :: a[k] == b[k]
    ensures Offset(a, n) == Offset(b, n) && Pack(a, n) == Pack(b, n)
  {
    if n > 0 {
      PackPrefix(a, b, n - 1);
    }
  }

  lemma {:induction false} PackFirst(fs: seq<Field>, n: nat)
    requires 0 < n <= |fs|
    ensures Pack(fs, n) == Little(fs[0].value, fs[0].width) + Pack(fs[1..], n - 1)
  {
    if n > 1 {
      PackFirst(fs, n - 1);
    }
  }

  /** Stores one field; what lies before it stays. */
  method Store(out: array<Byte>, at: nat, width: nat, value: nat)
    requires at + width <= out.Length
    modifies out
    ensures out[..at + width] == old(out[..at]) + Little(value, width)
  {
    var v := value;
    ghost var start := out[..at];
    for i := 0 to width
      invariant out[..at] == start
      invariant out[at..at + i] + Little(v, width - i) == Little(value, width)
    {
      ghost var before := out[at..at + i];
      out[at + i] := v % 256;
      assert out[at..at + i + 1] == before + [v % 256];
      v := v / 256;
    }
    assert out[..at + width] == out[..at] + out[at..at + width];
  }
}
