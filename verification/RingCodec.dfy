/** The code that turns ring records into bytes, filling a zeroed buffer from front to back, and back. */
module RingCodec {
  import opened Wire
  import opened Struct
  import opened Utf8
  import opened Wrappers
  import opened RingRecord

  // ----- The encoder ------------------------------------------------------------------

  /** The buffer starts with `done`, and is zero after it. */
  ghost predicate Holds(data: array<Byte>, done: seq<Byte>)
    reads data
  {
    |done| <= data.Length && data[..] == Pad(done, data.Length)
  }

  lemma PadTwice(done: seq<Byte>, at: nat, end: nat)
    requires |done| <= at <= end
    ensures Pad(Pad(done, at), end) == Pad(done, end)
  {
  }

  lemma PadAfter(a: seq<Byte>, b: seq<Byte>, n: nat)
    requires |b| <= n
    ensures Pad(a + b, |a| + n) == a + Pad(b, n)
  {
  }

  /** Stores bytes past the part in use. */
  method Write(data: array<Byte>, ghost done: seq<Byte>, at: nat, bytes: seq<Byte>)
    requires Holds(data, done) && |done| <= at && at + |bytes| <= data.Length
    modifies data
    ensures Holds(data, Pad(done, at) + bytes)
  {
    ghost var was := data[..];
    for i := 0 to |bytes|
      invariant data[..at] == was[..at] && data[at..at + i] == bytes[..i]
      invariant data[at + i..] == was[at + i..]
    {
      data[at + i] := bytes[i];
      assert data[at..at + i + 1] == data[at..at + i] + [bytes[i]];
    }
    Spliced(data[..], was, done, at, bytes);
  }

  lemma Spliced(now: seq<Byte>, was: seq<Byte>, done: seq<Byte>, at: nat, bytes: seq<Byte>)
    requires |done| <= at && at + |bytes| <= |was| == |now| && was == Pad(done, |was|)
    requires now[..at] == was[..at] && now[at..at + |bytes|] == bytes && now[at + |bytes|..] == was[at + |bytes|..]
    ensures now == Pad(Pad(done, at) + bytes, |now|)
  {
    assert was[..at] == Pad(done, at);
    assert was[at + |bytes|..] == Zeros(|was| - at - |bytes|);
    assert now == now[..at] + now[at..at + |bytes|] + now[at + |bytes|..];
  }

  /** Packs values of a format into the buffer, or fails on one that does not fit its width. */
  method PackInto(data: array<Byte>, ghost done: seq<Byte>, at: nat, f: Format, values: seq<nat>) returns (ok: bool)
    requires Holds(data, done) && |done| <= at && |values| == |f| && at + SizeOf(f) <= data.Length
    modifies data
    ensures ok <==> Packable(f, values)
    ensures ok ==> Holds(data, Pad(done, at) + Packed(f, values))
  {
    ok := Packable(f, values);
    if ok {
      Write(data, done, at, Packed(f, values));
    }
  }

  lemma PadNothing(done: seq<Byte>)
    ensures Pad(done, |done|) == done
  {
  }

  /** Sixteen words, the rest of them zero. */
  method WriteRow(data: array<Byte>, ghost done: seq<Byte>, at: nat, ns: seq<int>) returns (ok: bool)
    requires Holds(data, done) && |done| == at && at + 128 <= data.Length
    modifies data
    ensures ok <==> AllInt64(ns)
    ensures ok ==> Holds(data, done + RowBytes(ns))
  {
    ok := AllInt64(ns);
    if ok {
      PadNothing(done);
      Write(data, done, at, RowBytes(ns));
    }
  }

  method WriteTensor(data: array<Byte>, ghost done: seq<Byte>, at: nat, t: Tensor) returns (ok: bool)
    requires Holds(data, done) && |done| == at && at + TENSOR_SIZE <= data.Length
    modifies data
    ensures ok <==> TensorFits(t)
    ensures ok ==> Holds(data, done + TensorSlot(t))
  {
    if !(0 < |t.shape| <= MAX_RANK) || |t.shape| != |t.strides| || t.dtype == Unsupported {
      return false;
    }
    TensorHeadSize();
    PadNothing(done);
    ok := PackInto(data, done, at, TENSOR_HEAD, TensorHead(t));
    if !ok {
      return;
    }
    ghost var head := done + Packed(TENSOR_HEAD, TensorHead(t));
    ok := WriteRow(data, head, at + 56, t.shape);
    if !ok {
      return;
    }
    ok := WriteRow(data, head + RowBytes(t.shape), at + 184, t.strides);
    Joined(done, Packed(TENSOR_HEAD, TensorHead(t)), RowBytes(t.shape), RowBytes(t.strides));
  }

  lemma Joined(a: seq<Byte>, b: seq<Byte>, c: seq<Byte>, d: seq<Byte>)
    ensures a + b + c + d == a + (b + c + d)
  {
  }

  lemma {:induction false} TableAppend<T>(slot: T -> seq<Byte>, items: seq<T>, n: nat)
    requires n < |items|
    ensures Table(slot, items[..n + 1]) == Table(slot, items[..n]) + slot(items[n])
  {
    var now := items[..n + 1];
    if n == 0 {
      assert now[1..] == [];
    } else {
      TableAppend(slot, items[1..], n - 1);
      assert items[1..][..n] == now[1..] && items[1..][..n - 1] == items[..n][1..];
      var first, more, last := slot(items[0]), Table(slot, items[..n][1..]), slot(items[n]);
      assert first + (more + last) == first + more + last;
    }
  }

  lemma TableStart<T>(slot: T -> seq<Byte>, items: seq<T>, done: seq<Byte>)
    ensures done + Table(slot, items[..0]) == done
  {
    assert items[..0] == [];
  }

  method WriteTensors(data: array<Byte>, ghost done: seq<Byte>, items: seq<Tensor>) returns (ok: bool)
    requires data.Length == RECORD_SIZE && |items| <= SLOTS && |done| == TENSORS && Holds(data, done)
    modifies data
    ensures ok <==> forall i | 0 <= i < |items| :: TensorFits(items[i])
    ensures ok ==> Holds(data, done + Table(TensorSlot, items))
  {
    hide TensorFits, TensorSlot, Table, Holds, Pad;
    ok := true;
    ghost var now := done;
    TableStart(TensorSlot, items, done);
    for i := 0 to |items|
      invariant forall k | 0 <= k < i :: TensorFits(items[k])
      invariant now == done + Table(TensorSlot, items[..i]) && |now| == TENSORS + TENSOR_SIZE * i && Holds(data, now)
    {
      ok := WriteTensor(data, now, TENSORS + TENSOR_SIZE * i, items[i]);
      if !ok {
        return;
      }
      TableAppend(TensorSlot, items, i);
      now := now + TensorSlot(items[i]);
    }
    assert items[..|items|] == items;
    ok := true;
  }

  method WriteScalar(data: array<Byte>, ghost done: seq<Byte>, at: nat, a: Argument) returns (ok: bool)
    requires Holds(data, done) && |done| == at && at + SCALAR_SIZE <= data.Length
    modifies data
    ensures ok <==> ScalarFits(a)
    ensures ok ==> Holds(data, done + ScalarSlot(a))
  {
    hide Holds, Pad, Packed, Encode;
    var text: seq<Byte> := Encode(TextOf(a.content));
    if a.content == Unknown || |text| > MAX_TEXT {
      return false;
    }
    HeadSizes();
    PadNothing(done);
    ok := PackInto(data, done, at, SCALAR_HEAD, ScalarHead(a));
    if ok {
      ghost var head := done + Packed(SCALAR_HEAD, ScalarHead(a));
      PadNothing(head);
      Write(data, head, at + 24, text);
      Widened(data, head + text, at + SCALAR_SIZE);
      PadAfter(head, text, MAX_TEXT);
      assert done + ScalarSlot(a) == head + Pad(text, MAX_TEXT);
    }
  }

  /** Zeros after the part in use may be counted to it. */
  lemma Widened(data: array<Byte>, done: seq<Byte>, end: nat)
    requires Holds(data, done) && |done| <= end <= data.Length
    ensures Holds(data, Pad(done, end))
  {
    PadTwice(done, end, data.Length);
  }

  method WriteScalars(data: array<Byte>, ghost done: seq<Byte>, items: seq<Argument>) returns (ok: bool)
    requires data.Length == RECORD_SIZE && |items| <= SLOTS && |done| == SCALARS && Holds(data, done)
    modifies data
    ensures ok <==> forall i | 0 <= i < |items| :: ScalarFits(items[i])
    ensures ok ==> Holds(data, done + Table(ScalarSlot, items))
  {
    hide ScalarSlot, Table, Holds, Pad;
    ok := true;
    ghost var now := done;
    TableStart(ScalarSlot, items, done);
    for i := 0 to |items|
      invariant forall k | 0 <= k < i :: ScalarFits(items[k])
      invariant now == done + Table(ScalarSlot, items[..i]) && |now| == SCALARS + SCALAR_SIZE * i && Holds(data, now)
    {
      ok := WriteScalar(data, now, SCALARS + SCALAR_SIZE * i, items[i]);
      if !ok {
        return;
      }
      TableAppend(ScalarSlot, items, i);
      now := now + ScalarSlot(items[i]);
    }
    assert items[..|items|] == items;
    ok := true;
  }

  method WriteOutput(data: array<Byte>, ghost done: seq<Byte>, at: nat, o: PlannedOutput) returns (ok: bool)
    requires Holds(data, done) && |done| == at && at + OUTPUT_SIZE <= data.Length
    modifies data
    ensures ok <==> OutputFits(o)
    ensures ok ==> Holds(data, done + OutputSlot(o))
  {
    hide Holds, Pad, Packed;
    if !(0 < |o.shape| <= MAX_RANK) || o.dtype == Unsupported {
      return false;
    }
    HeadSizes();
    PadNothing(done);
    ok := PackInto(data, done, at, OUTPUT_HEAD, OutputHead(o));
    if ok {
      ghost var head := done + Packed(OUTPUT_HEAD, OutputHead(o));
      ok := WriteRow(data, head, at + 16, o.shape);
      assert done + OutputSlot(o) == head + RowBytes(o.shape);
    }
  }

  method WriteOutputs(data: array<Byte>, ghost done: seq<Byte>, items: seq<PlannedOutput>) returns (ok: bool)
    requires data.Length == RECORD_SIZE && |items| <= SLOTS && |done| == OUTPUTS && Holds(data, done)
    modifies data
    ensures ok <==> forall i | 0 <= i < |items| :: OutputFits(items[i])
    ensures ok ==> Holds(data, done + Table(OutputSlot, items))
  {
    hide OutputFits, OutputSlot, Table, Holds, Pad;
    ok := true;
    ghost var now := done;
    TableStart(OutputSlot, items, done);
    for i := 0 to |items|
      invariant forall k | 0 <= k < i :: OutputFits(items[k])
      invariant now == done + Table(OutputSlot, items[..i]) && |now| == OUTPUTS + OUTPUT_SIZE * i && Holds(data, now)
    {
      ok := WriteOutput(data, now, OUTPUTS + OUTPUT_SIZE * i, items[i]);
      if !ok {
        return;
      }
      TableAppend(OutputSlot, items, i);
      now := now + OutputSlot(items[i]);
    }
    assert items[..|items|] == items;
    ok := true;
  }

  /** The error's head and its two texts, each in its own place. */
  method WriteError(data: array<Byte>, ghost done: seq<Byte>, ghost r: Record, errorType: seq<Byte>,
      errorMessage: seq<Byte>)
    requires data.Length == RECORD_SIZE && |done| == ERROR && Holds(data, done)
    requires errorType == Encode(r.errorType) && errorMessage == Encode(r.errorMessage)
    modifies data
    ensures Holds(data, done + ErrorBytes(r))
  {
    hide Holds, Pad, Packed, Encode;
    var typeCut: seq<Byte> := if |errorType| > TYPE_SIZE then errorType[..TYPE_SIZE] else errorType;
    var messageCut: seq<Byte> := if |errorMessage| > MESSAGE_SIZE then errorMessage[..MESSAGE_SIZE] else errorMessage;
    var flags := (if |errorType| > TYPE_SIZE then 1 else 0) + (if |errorMessage| > MESSAGE_SIZE then 2 else 0);
    HeadSizes();
    ghost var head := Packed(ERROR_HEAD, ErrorHead(r));
    PadNothing(done);
    assert Limit(4) == 0x1_0000_0000;
    var ok := PackInto(data, done, ERROR, ERROR_HEAD, [|typeCut|, |messageCut|, flags, 0]);
    PadNothing(done + head);
    Write(data, done + head, ERROR + 16, typeCut);
    PadAfter(done + head, typeCut, TYPE_SIZE);
    Write(data, done + head + typeCut, ERROR + 80, messageCut);
    ghost var types := done + head + Pad(typeCut, TYPE_SIZE);
    Widened(data, types + messageCut, TAIL);
    PadAfter(types, messageCut, MESSAGE_SIZE);
    Joined(done, head, Pad(typeCut, TYPE_SIZE), Pad(messageCut, MESSAGE_SIZE));
  }

  /** The header and the three tables, as far as the profile. */
  function Front(r: Record): seq<Byte> {
    Pad(HeaderBytes(r), TENSORS) + Pad(Table(TensorSlot, r.tensors), SCALARS - TENSORS) +
    Pad(Table(ScalarSlot, r.scalars), OUTPUTS - SCALARS) + Pad(Table(OutputSlot, r.outputs), PROFILE - OUTPUTS)
  }

  method WriteHeader(data: array<Byte>, ghost r: Record, values: seq<nat>) returns (ok: bool)
    requires data.Length == RECORD_SIZE && Holds(data, []) && values == HeaderOf(r)
    modifies data
    ensures ok <==> Packable(RECORD_HEADER, values)
    ensures ok ==> Holds(data, Pad(HeaderBytes(r), TENSORS))
  {
    HeaderSize();
    ok := PackInto(data, [], 0, RECORD_HEADER, values);
    if ok {
      assert Pad([], 0) + HeaderBytes(r) == HeaderBytes(r);
      Widened(data, HeaderBytes(r), TENSORS);
    }
  }

  /** A table and the zeros of its unused slots. */
  lemma TableWidened(data: array<Byte>, done: seq<Byte>, table: seq<Byte>, size: nat)
    requires Holds(data, done + table) && |table| <= size && |done| + size <= data.Length
    ensures Holds(data, done + Pad(table, size))
  {
    Widened(data, done + table, |done| + size);
    PadAfter(done, table, size);
  }

  method WriteTables(data: array<Byte>, ghost done: seq<Byte>, r: Record) returns (ok: bool)
    requires data.Length == RECORD_SIZE && done == Pad(HeaderBytes(r), TENSORS) && Holds(data, done)
    requires |r.tensors| <= SLOTS && |r.scalars| <= SLOTS && |r.outputs| <= SLOTS
    modifies data
    ensures ok <==> ItemsFit(r)
    ensures ok ==> Holds(data, Front(r)) && |Front(r)| == PROFILE
  {
    hide Holds, Pad, Table, HeaderBytes, TensorFits, ScalarFits, OutputFits;
    ok := WriteTensors(data, done, r.tensors);
    if !ok {
      return;
    }
    TensorTableFits(r.tensors);
    TableWidened(data, done, Table(TensorSlot, r.tensors), SCALARS - TENSORS);
    ghost var tensors := done + Pad(Table(TensorSlot, r.tensors), SCALARS - TENSORS);
    ok := WriteScalars(data, tensors, r.scalars);
    if !ok {
      return;
    }
    ScalarTableFits(r.scalars);
    TableWidened(data, tensors, Table(ScalarSlot, r.scalars), OUTPUTS - SCALARS);
    ghost var scalars := tensors + Pad(Table(ScalarSlot, r.scalars), OUTPUTS - SCALARS);
    ok := WriteOutputs(data, scalars, r.outputs);
    if !ok {
      return;
    }
    OutputTableFits(r.outputs);
    TableWidened(data, scalars, Table(OutputSlot, r.outputs), PROFILE - OUTPUTS);
  }

  lemma BytesFilled(data: array<Byte>, r: Record)
    requires |r.profile| == 8 && data.Length == RECORD_SIZE
    requires Holds(data, Front(r) + ProfileBytes(r) + ErrorBytes(r)) && |Front(r)| == PROFILE
    ensures data[..] == Bytes(r)
  {
  }

  method WriteProfile(data: array<Byte>, ghost r: Record, profile: seq<nat>) returns (ok: bool)
    requires data.Length == RECORD_SIZE && Holds(data, Front(r)) && |Front(r)| == PROFILE && profile == r.profile
    modifies data
    ensures ok <==> |profile| == 8 && Packable(Words(8), profile)
    ensures ok ==> Holds(data, Front(r) + ProfileBytes(r))
  {
    if |profile| != 8 {
      return false;
    }
    WordsSize(8);
    PadNothing(Front(r));
    ok := PackInto(data, Front(r), PROFILE, Words(8), profile);
  }

  /** The encoder. */
  method EncodeRecord(r: Record) returns (e: Encoding)
    ensures e.Encoded? <==> Encodable(r)
    ensures e.Encoded? ==> e.data == Bytes(r)
  {
    hide Holds, Front, HeaderBytes, ErrorBytes;
    if r.generation == 0 || r.submissionId == 0 || |r.tensors| > SLOTS || |r.scalars| > SLOTS || |r.outputs| > SLOTS {
      return Unencodable;
    }
    var data := new Byte[RECORD_SIZE](_ => 0);
    ZeroBuffer(data);
    var ok := WriteHeader(data, r, HeaderOf(r));
    if ok {
      ok := WriteTables(data, Pad(HeaderBytes(r), TENSORS), r);
    }
    if ok {
      ok := WriteProfile(data, r, r.profile);
    }
    if !ok {
      return Unencodable;
    }
    WriteError(data, Front(r) + ProfileBytes(r), r, Encode(r.errorType), Encode(r.errorMessage));
    BytesFilled(data, r);
    e := Encoded(data[..]);
  }

  lemma ZeroBuffer(data: array<Byte>)
    requires forall i | 0 <= i < data.Length :: data[i] == 0
    ensures Holds(data, [])
  {
  }

  // ----- The decoder ------------------------------------------------------------------

  function Onto<T>(items: seq<T>, more: Option<seq<T>>): Option<seq<T>> {
    match more case None => None case Some(rest) => Some(items + rest)
  }

  lemma TableStep<T>(read: seq<Byte> --> Option<T>, size: nat, b: seq<Byte>, at: nat, n: nat, items: seq<T>)
    requires (forall x | |x| == size :: read.requires(x)) && n > 0 && at + size <= |b|
    ensures Onto(items, ReadTable(read, size, b[at..], n)) ==
      match read(b[at..at + size])
      case None => None
      case Some(first) => Onto(items + [first], ReadTable(read, size, b[at + size..], n - 1))
  {
    assert b[at..][..size] == b[at..at + size] && b[at..][size..] == b[at + size..];
    match ReadTable(read, size, b[at + size..], n - 1)
    case None =>
    case Some(rest) =>
      if read(b[at..at + size]).Some? {
        var first := read(b[at..at + size]).value;
        assert items + ([first] + rest) == items + [first] + rest;
      }
  }

  lemma OntoNothing<T>(more: Option<seq<T>>)
    ensures Onto([], more) == more
  {
    match more
    case None =>
    case Some(rest) => assert [] + rest == rest;
  }

  lemma TableEnd<T>(read: seq<Byte> --> Option<T>, size: nat, b: seq<Byte>, items: seq<T>)
    requires forall x | |x| == size :: read.requires(x)
    ensures Onto(items, ReadTable(read, size, b, 0)) == Some(items)
  {
    assert items + [] == items;
  }

  /** The slots of a table one after another. */
  method ReadSlots<T>(read: seq<Byte> --> Option<T>, size: nat, b: seq<Byte>, n: nat) returns (r: Option<seq<T>>)
    requires (forall x | |x| == size :: read.requires(x)) && size * n <= |b|
    ensures r == ReadTable(read, size, b, n)
  {
    var items: seq<T> := [];
    var at: nat := 0;
    hide Onto;
    assert b[0..] == b;
    OntoNothing(ReadTable(read, size, b, n));
    for i := 0 to n
      invariant at == size * i <= |b|
      invariant ReadTable(read, size, b, n) == Onto(items, ReadTable(read, size, b[at..], n - i))
    {
      SlotsOrdered(size, i, n);
      TableStep(read, size, b, at, n - i, items);
      match read(b[at..at + size]) {
        case None => return None;
        case Some(first) => items := items + [first];
      }
      at := at + size;
    }
    TableEnd(read, size, b[at..], items);
    r := Some(items);
  }

  /** The decoder. */
  method DecodeRecord(data: seq<Byte>, generation: nat) returns (d: Decoding)
    ensures d == RecordAt(data, generation)
  {
    hide HeaderAt, ReadTable, ReadErrors, AllZero, ProfileAt;
    if |data| != RECORD_SIZE {
      return Malformed;
    }
    var h := HeaderAt(data);
    if h[2] != generation || h[3] == 0 || h[10] != 0 || h[11] != 0 ||
       !AllZero(data[52..TENSORS]) || !AllZero(data[TAIL..]) ||
       h[7] > SLOTS || h[8] > SLOTS || h[9] > SLOTS {
      return Malformed;
    }
    var tensors := ReadSlots(ReadTensor, TENSOR_SIZE, data[TENSORS..SCALARS], h[7]);
    var scalars := ReadSlots(ReadScalar, SCALAR_SIZE, data[SCALARS..OUTPUTS], h[8]);
    var outputs := ReadSlots(ReadOutput, OUTPUT_SIZE, data[OUTPUTS..PROFILE], h[9]);
    var errors := ReadErrors(data[ERROR..TAIL]);
    if tensors.None? || scalars.None? || outputs.None? || errors.None? {
      return Malformed;
    }
    d := Read(Record(h[0], generation, h[3], h[4], h[5], h[6], h[1], tensors.value, scalars.value, outputs.value,
      ProfileAt(data), errors.value.errorType, errors.value.errorMessage));
  }
}
