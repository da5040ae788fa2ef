/**
 A ring record as its 16384 bytes: a header, tables of sixteen slots each for tensors, scalars and
 planned outputs, a profile and an error; and the record that bytes are read as.
 */
module RingRecord {
  import opened Wire
  import opened Struct
  import Views
  import opened Utf8
  import opened Wrappers

  const RECORD_SIZE := 16384
  const SLOTS := 16
  const TENSORS := 128
  const SCALARS := 5120
  const OUTPUTS := 9600
  const PROFILE := 11904
  const ERROR := 11968
  const TAIL := 13072
  const TENSOR_SIZE := 312
  const SCALAR_SIZE := 280
  const OUTPUT_SIZE := 144
  const MAX_RANK := Views.MAX_RANK
  const MAX_TEXT := 256
  const TYPE_SIZE := 64
  const MESSAGE_SIZE := 1024

  const RECORD_HEADER: Format := [4, 4, 8, 8, 8, 4, 4, 2, 2, 2, 2, 4]
  const TENSOR_HEAD: Format := [8, 8, 8, 8, 8, 4, 2, 2, 4, 2, 2]
  const SCALAR_HEAD: Format := [2, 2, 4, 8, 4, 4]
  const OUTPUT_HEAD: Format := [4, 4, 2, 2, 4]
  const ERROR_HEAD: Format := [4, 4, 4, 4]

  type Text = seq<Scalar>

  datatype Dtype =
    | Bool | Int8 | Uint8 | Int16 | Int32 | Int64 | Float16 | Float32 | Float64 | Bfloat16 | Unsupported

  datatype Tensor = Tensor(
    bufferId: nat, generation: nat, allocationId: nat, offset: nat, byteLength: nat, dtype: Dtype,
    shape: seq<int>, strides: seq<int>, kind: nat, parameter: nat, writable: bool)

  /** Doubles are their 64 bits. */
  datatype Content = Boolean(flag: bool) | Double(bits: nat) | Integer(number: int) | String(text: Text) | Unknown

  datatype Argument = Argument(parameter: nat, content: Content)

  datatype PlannedOutput = PlannedOutput(output: nat, shape: seq<int>, dtype: Dtype)

  datatype Record = Record(
    kind: nat, generation: nat, submissionId: nat, invocationId: nat, operationId: nat, status: nat, flags: nat,
    tensors: seq<Tensor>, scalars: seq<Argument>, outputs: seq<PlannedOutput>, profile: seq<nat>,
    errorType: Text, errorMessage: Text)

  datatype Encoding = Encoded(data: seq<Byte>) | Unencodable

  datatype Decoding = Read(record: Record) | Malformed

  lemma HeaderSize()
    ensures SizeOf(RECORD_HEADER) == 52
  {
  }

  lemma TensorHeadSize()
    ensures SizeOf(TENSOR_HEAD) == 56
  {
  }

  lemma HeadSizes()
    ensures SizeOf(SCALAR_HEAD) == 24 && SizeOf(OUTPUT_HEAD) == 16 && SizeOf(ERROR_HEAD) == 16
  {
  }

  // ----- Layout -----------------------------------------------------------------------

  datatype Region =
    | HeaderRegion | ReservedRegion | TensorRegion(slot: nat) | ScalarRegion(slot: nat) | OutputRegion(slot: nat)
    | ProfileRegion | ErrorHeadRegion | ErrorTypeRegion | ErrorMessageRegion | TailRegion

  function Start(g: Region): nat {
    match g
    case HeaderRegion => 0
    case ReservedRegion => 52
    case TensorRegion(i) => TENSORS + TENSOR_SIZE * i
    case ScalarRegion(i) => SCALARS + SCALAR_SIZE * i
    case OutputRegion(i) => OUTPUTS + OUTPUT_SIZE * i
    case ProfileRegion => PROFILE
    case ErrorHeadRegion => ERROR
    case ErrorTypeRegion => ERROR + 16
    case ErrorMessageRegion => ERROR + 80
    case TailRegion => TAIL
  }

  function Length(g: Region): nat {
    match g
    case HeaderRegion => SizeOf(RECORD_HEADER)
    case ReservedRegion => 76
    case TensorRegion(_) => SizeOf(TENSOR_HEAD) + SizeOf(Words(MAX_RANK)) + SizeOf(Words(MAX_RANK))
    case ScalarRegion(_) => SizeOf(SCALAR_HEAD) + MAX_TEXT
    case OutputRegion(_) => SizeOf(OUTPUT_HEAD) + SizeOf(Words(MAX_RANK))
    case ProfileRegion => SizeOf(Words(8))
    case ErrorHeadRegion => SizeOf(ERROR_HEAD)
    case ErrorTypeRegion => TYPE_SIZE
    case ErrorMessageRegion => MESSAGE_SIZE
    case TailRegion => 3312
  }

  predicate IsRegion(g: Region) {
    (g.TensorRegion? || g.ScalarRegion? || g.OutputRegion?) ==> g.slot < SLOTS
  }

  predicate Covers(g: Region, at: nat) {
    IsRegion(g) && Start(g) <= at < Start(g) + Length(g)
  }

  lemma Lengths(g: Region)
    ensures Length(g) == match g
      case HeaderRegion => 52
      case ReservedRegion => 76
      case TensorRegion(_) => TENSOR_SIZE
      case ScalarRegion(_) => SCALAR_SIZE
      case OutputRegion(_) => OUTPUT_SIZE
      case ProfileRegion => 64
      case ErrorHeadRegion => 16
      case ErrorTypeRegion => TYPE_SIZE
      case ErrorMessageRegion => MESSAGE_SIZE
      case TailRegion => 3312
  {
    HeaderSize();
    TensorHeadSize();
    HeadSizes();
    WordsSize(8);
    WordsSize(MAX_RANK);
  }

  /** The table or field a region belongs to, and where that begins and ends. */
  function Section(g: Region): (nat, nat) {
    match g
    case HeaderRegion => (0, 52)
    case ReservedRegion => (52, TENSORS)
    case TensorRegion(_) => (TENSORS, SCALARS)
    case ScalarRegion(_) => (SCALARS, OUTPUTS)
    case OutputRegion(_) => (OUTPUTS, PROFILE)
    case ProfileRegion => (PROFILE, ERROR)
    case ErrorHeadRegion => (ERROR, ERROR + 16)
    case ErrorTypeRegion => (ERROR + 16, ERROR + 80)
    case ErrorMessageRegion => (ERROR + 80, TAIL)
    case TailRegion => (TAIL, RECORD_SIZE)
  }

  lemma InSection(g: Region, at: nat)
    requires Covers(g, at)
    ensures Section(g).0 <= at < Section(g).1
  {
    Lengths(g);
  }

  lemma OneSlotFurther(size: nat, i: nat)
    ensures size * (i + 1) == size * i + size
  {
  }

  lemma {:induction false} SlotsOrdered(size: nat, i: nat, j: nat)
    requires i < j
    ensures size * (i + 1) == size * i + size <= size * j
    decreases j
  {
    OneSlotFurther(size, i);
    if i + 1 < j {
      SlotsOrdered(size, i, j - 1);
      OneSlotFurther(size, j - 1);
    }
  }

  lemma SameSlot(size: nat, i: nat, j: nat, x: nat)
    requires size * i <= x < size * i + size && size * j <= x < size * j + size
    ensures i == j
  {
    if i < j {
      SlotsOrdered(size, i, j);
    } else if j < i {
      SlotsOrdered(size, j, i);
    }
  }

  lemma SameKind(g: Region, h: Region)
    requires Section(g) == Section(h)
    ensures g == h || (g.TensorRegion? && h.TensorRegion?) || (g.ScalarRegion? && h.ScalarRegion?) ||
            (g.OutputRegion? && h.OutputRegion?)
  {
    match g
    case _ => match h case _ =>
  }

  /** No byte belongs to two regions. */
  lemma RegionsApart(g: Region, h: Region, at: nat)
    requires Covers(g, at) && Covers(h, at)
    ensures g == h && at < RECORD_SIZE
  {
    InSection(g, at);
    InSection(h, at);
    SectionsApart(g, h, at);
    SameKind(g, h);
    if g != h {
      Lengths(g);
      Lengths(h);
      SameSlot(Length(g), g.slot, h.slot, at - Section(g).0);
    }
  }

  lemma SectionsApart(g: Region, h: Region, at: nat)
    requires Section(g).0 <= at < Section(g).1 && Section(h).0 <= at < Section(h).1
    ensures Section(g) == Section(h)
  {
  }

  lemma TensorRegionAt(at: nat) returns (g: Region)
    requires TENSORS <= at < SCALARS
    ensures Covers(g, at)
  {
    g := TensorRegion((at - TENSORS) / TENSOR_SIZE);
    Lengths(g);
  }

  lemma ScalarRegionAt(at: nat) returns (g: Region)
    requires SCALARS <= at < OUTPUTS
    ensures Covers(g, at)
  {
    g := ScalarRegion((at - SCALARS) / SCALAR_SIZE);
    Lengths(g);
  }

  lemma OutputRegionAt(at: nat) returns (g: Region)
    requires OUTPUTS <= at < PROFILE
    ensures Covers(g, at)
  {
    g := OutputRegion((at - OUTPUTS) / OUTPUT_SIZE);
    Lengths(g);
  }

  /** The regions tile the record: every byte of it belongs to one. */
  lemma RegionsCover(at: nat) returns (g: Region)
    requires at < RECORD_SIZE
    ensures Covers(g, at) && forall h | Covers(h, at) :: h == g
  {
    if TENSORS <= at < SCALARS {
      g := TensorRegionAt(at);
    } else if SCALARS <= at < OUTPUTS {
      g := ScalarRegionAt(at);
    } else if OUTPUTS <= at < PROFILE {
      g := OutputRegionAt(at);
    } else {
      g := if at < 52 then HeaderRegion
      else if at < TENSORS then ReservedRegion
      else if at < ERROR then ProfileRegion
      else if at < ERROR + 16 then ErrorHeadRegion
      else if at < ERROR + 80 then ErrorTypeRegion
      else if at < TAIL then ErrorMessageRegion
      else TailRegion;
      Lengths(g);
    }
    forall h | Covers(h, at)
      ensures h == g
    {
      RegionsApart(g, h, at);
    }
  }

  // ----- The bytes --------------------------------------------------------------------

  function Zeros(n: nat): (b: seq<Byte>)
    ensures |b| == n
  {
    seq(n, _ => 0)
  }

  /** Zeros after `b` up to `n` bytes in all. */
  function Pad(b: seq<Byte>, n: nat): (p: seq<Byte>)
    ensures |b| <= n ==> |p| == n
  {
    b + Zeros(if |b| <= n then n - |b| else 0)
  }

  function DtypeId(d: Dtype): nat {
    match d
    case Bool => 1
    case Int8 => 2
    case Uint8 => 3
    case Int16 => 4
    case Int32 => 5
    case Int64 => 6
    case Float16 => 7
    case Float32 => 8
    case Float64 => 9
    case Bfloat16 => 10
    case Unsupported => 0
  }

  /** The sixteen words of a shape or of strides. */
  function Row(ns: seq<int>): (ws: seq<nat>)
    ensures |ws| == MAX_RANK
  {
    seq(MAX_RANK, k requires 0 <= k => if k < |ns| then Unsigned(ns[k]) else 0)
  }

  function RowBytes(ns: seq<int>): (b: seq<Byte>)
    ensures |b| == 128
  {
    WordsSize(MAX_RANK);
    Packed(Words(MAX_RANK), Row(ns))
  }

  predicate AllInt64(ns: seq<int>) {
    forall k | 0 <= k < |ns| :: InInt64(ns[k])
  }

  function TensorHead(t: Tensor): seq<nat> {
    [t.bufferId, t.generation, t.allocationId, t.offset, t.byteLength, DtypeId(t.dtype), |t.shape|, t.kind,
     if t.writable then 1 else 0, t.parameter, 0]
  }

  predicate TensorFits(t: Tensor) {
    && 0 < |t.shape| <= MAX_RANK && |t.shape| == |t.strides| && t.dtype != Unsupported
    && Packable(TENSOR_HEAD, TensorHead(t)) && AllInt64(t.shape) && AllInt64(t.strides)
  }

  function TensorSlot(t: Tensor): (b: seq<Byte>)
    ensures |b| == TENSOR_SIZE
  {
    TensorHeadSize();
    Packed(TENSOR_HEAD, TensorHead(t)) + RowBytes(t.shape) + RowBytes(t.strides)
  }

  function ContentId(c: Content): nat {
    match c
    case Boolean(_) => 1
    case Double(_) => 2
    case Integer(_) => 3
    case String(_) => 4
    case Unknown => 0
  }

  function TextOf(c: Content): Text {
    if c.String? then c.text else []
  }

  /** An integer is masked to 64 bits, in range or not. */
  function BitsOf(c: Content): nat {
    match c
    case Boolean(flag) => if flag then 1 else 0
    case Double(bits) => bits
    case Integer(number) => Unsigned(number)
    case _ => 0
  }

  function ScalarHead(a: Argument): seq<nat> {
    [a.parameter, ContentId(a.content), 0, BitsOf(a.content), Size(TextOf(a.content)), 0]
  }

  predicate ScalarFits(a: Argument) {
    a.content != Unknown && Size(TextOf(a.content)) <= MAX_TEXT && Packable(SCALAR_HEAD, ScalarHead(a))
  }

  function ScalarSlot(a: Argument): (b: seq<Byte>)
    ensures Size(TextOf(a.content)) <= MAX_TEXT ==> |b| == SCALAR_SIZE
  {
    HeadSizes();
    Packed(SCALAR_HEAD, ScalarHead(a)) + Pad(Encode(TextOf(a.content)), MAX_TEXT)
  }

  function OutputHead(o: PlannedOutput): seq<nat> {
    [DtypeId(o.dtype), 0, |o.shape|, o.output, 0]
  }

  predicate OutputFits(o: PlannedOutput) {
    && 0 < |o.shape| <= MAX_RANK && o.dtype != Unsupported
    && Packable(OUTPUT_HEAD, OutputHead(o)) && AllInt64(o.shape)
  }

  function OutputSlot(o: PlannedOutput): (b: seq<Byte>)
    ensures |b| == OUTPUT_SIZE
  {
    HeadSizes();
    Packed(OUTPUT_HEAD, OutputHead(o)) + RowBytes(o.shape)
  }

  /** Slots one after another. */
  function Table<T>(slot: T -> seq<Byte>, items: seq<T>): seq<Byte> {
    if items == [] then [] else slot(items[0]) + Table(slot, items[1..])
  }

  /** The bytes of a text, cut at the limit wherever that falls. */
  function Cut(t: Text, limit: nat): (b: seq<Byte>)
    ensures |b| <= limit
  {
    if Size(t) <= limit then Encode(t) else Encode(t)[..limit]
  }

  function ErrorHead(r: Record): seq<nat> {
    [|Cut(r.errorType, TYPE_SIZE)|, |Cut(r.errorMessage, MESSAGE_SIZE)|,
     (if Size(r.errorType) > TYPE_SIZE then 1 else 0) + (if Size(r.errorMessage) > MESSAGE_SIZE then 2 else 0), 0]
  }

  function ErrorBytes(r: Record): (b: seq<Byte>)
    ensures |b| == TAIL - ERROR
  {
    HeadSizes();
    Packed(ERROR_HEAD, ErrorHead(r)) + Pad(Cut(r.errorType, TYPE_SIZE), TYPE_SIZE) +
    Pad(Cut(r.errorMessage, MESSAGE_SIZE), MESSAGE_SIZE)
  }

  function HeaderOf(r: Record): seq<nat> {
    [r.kind, r.flags, r.generation, r.submissionId, r.invocationId, r.operationId, r.status,
     |r.tensors|, |r.scalars|, |r.outputs|, 0, 0]
  }

  predicate ItemsFit(r: Record) {
    && |r.tensors| <= SLOTS && |r.scalars| <= SLOTS && |r.outputs| <= SLOTS
    && (forall i | 0 <= i < |r.tensors| :: TensorFits(r.tensors[i]))
    && (forall i | 0 <= i < |r.scalars| :: ScalarFits(r.scalars[i]))
    && (forall i | 0 <= i < |r.outputs| :: OutputFits(r.outputs[i]))
  }

  /** What the encoder takes; error texts may have any length. */
  predicate Encodable(r: Record) {
    && r.generation != 0 && r.submissionId != 0 && Packable(RECORD_HEADER, HeaderOf(r)) && ItemsFit(r)
    && |r.profile| == 8 && Packable(Words(8), r.profile)
  }

  function HeaderBytes(r: Record): (b: seq<Byte>)
    ensures |b| == 52
  {
    HeaderSize();
    Packed(RECORD_HEADER, HeaderOf(r))
  }

  function ProfileBytes(r: Record): (b: seq<Byte>)
    requires |r.profile| == 8
    ensures |b| == 64
  {
    WordsSize(8);
    Packed(Words(8), r.profile)
  }

  function Bytes(r: Record): seq<Byte>
    requires |r.profile| == 8
  {
    Pad(HeaderBytes(r), TENSORS) + Pad(Table(TensorSlot, r.tensors), SCALARS - TENSORS) +
    Pad(Table(ScalarSlot, r.scalars), OUTPUTS - SCALARS) + Pad(Table(OutputSlot, r.outputs), PROFILE - OUTPUTS) +
    ProfileBytes(r) + ErrorBytes(r) + Zeros(RECORD_SIZE - TAIL)
  }

  // ----- Reading ----------------------------------------------------------------------

  predicate AllZero(b: seq<Byte>) {
    forall i | 0 <= i < |b| :: b[i] == 0
  }

  function DtypeOf(id: nat): Dtype {
    if id == 1 then Bool
    else if id == 2 then Int8
    else if id == 3 then Uint8
    else if id == 4 then Int16
    else if id == 5 then Int32
    else if id == 6 then Int64
    else if id == 7 then Float16
    else if id == 8 then Float32
    else if id == 9 then Float64
    else if id == 10 then Bfloat16
    else Unsupported
  }

  /** The first `rank` words; the others must be zero. */
  function ReadRow(b: seq<Byte>, rank: nat): Option<seq<int>>
    requires |b| == 128 && rank <= MAX_RANK
  {
    WordsSize(MAX_RANK);
    var ws := Unpacked(Words(MAX_RANK), b);
    if exists k | rank <= k < MAX_RANK :: ws[k] != 0 then None
    else Some(seq(rank, k requires 0 <= k < rank => Signed(ws[k])))
  }

  function TensorHeadAt(b: seq<Byte>): (h: seq<nat>)
    requires |b| == TENSOR_SIZE
    ensures |h| == 11
  {
    TensorHeadSize();
    Unpacked(TENSOR_HEAD, b)
  }

  predicate TensorHeadReads(h: seq<nat>)
    requires |h| == 11
  {
    h[10] == 0 && 0 < h[6] <= MAX_RANK && h[8] <= 1 && DtypeOf(h[5]) != Unsupported
  }

  function TensorFrom(h: seq<nat>, shape: seq<int>, strides: seq<int>): Tensor
    requires |h| == 11
  {
    Tensor(h[0], h[1], h[2], h[3], h[4], DtypeOf(h[5]), shape, strides, h[7], h[9], h[8] == 1)
  }

  function ReadTensor(b: seq<Byte>): Option<Tensor>
    requires |b| == TENSOR_SIZE
  {
    var h := TensorHeadAt(b);
    if !TensorHeadReads(h) then None
    else match (ReadRow(b[56..184], h[6]), ReadRow(b[184..], h[6]))
      case (Some(shape), Some(strides)) => Some(TensorFrom(h, shape, strides))
      case _ => None
  }

  function ReadContent(id: nat, bits: nat, text: seq<Byte>): Option<Content> {
    if id == 1 then (if bits > 1 || text != [] then None else Some(Boolean(bits == 1)))
    else if id == 2 then Some(Double(bits))
    else if id == 3 then Some(Integer(Signed(bits)))
    else if id == 4 then (match Decode(text) case None => None case Some(t) => Some(String(t)))
    else None
  }

  function ReadScalar(b: seq<Byte>): Option<Argument>
    requires |b| == SCALAR_SIZE
  {
    HeadSizes();
    var h := Unpacked(SCALAR_HEAD, b);
    if h[2] != 0 || h[5] != 0 || h[4] > MAX_TEXT || !AllZero(b[24 + h[4]..]) then None
    else match ReadContent(h[1], h[3], b[24..24 + h[4]])
      case None => None
      case Some(c) => Some(Argument(h[0], c))
  }

  function ReadOutput(b: seq<Byte>): Option<PlannedOutput>
    requires |b| == OUTPUT_SIZE
  {
    HeadSizes();
    var h := Unpacked(OUTPUT_HEAD, b);
    if h[1] != 0 || h[4] != 0 || h[2] == 0 || h[2] > MAX_RANK || DtypeOf(h[0]) == Unsupported then None
    else match ReadRow(b[16..], h[2])
      case None => None
      case Some(shape) => Some(PlannedOutput(h[3], shape, DtypeOf(h[0])))
  }

  /** The first `n` slots of a table. */
  function ReadTable<T>(read: seq<Byte> --> Option<T>, size: nat, b: seq<Byte>, n: nat): Option<seq<T>>
    requires forall x | |x| == size :: read.requires(x)
    decreases n
  {
    if n == 0 then Some([])
    else if |b| < size then None
    else match (read(b[..size]), ReadTable(read, size, b[size..], n - 1))
      case (Some(first), Some(rest)) => Some([first] + rest)
      case _ => None
  }

  datatype Errors = Errors(errorType: Text, errorMessage: Text)

  function ReadErrors(b: seq<Byte>): Option<Errors>
    requires |b| == TAIL - ERROR
  {
    HeadSizes();
    var h := Unpacked(ERROR_HEAD, b);
    if h[3] != 0 || h[2] > 3 || h[0] > TYPE_SIZE || h[1] > MESSAGE_SIZE || !AllZero(b[16 + h[0]..80]) ||
       !AllZero(b[80 + h[1]..]) then None
    else match (Decode(b[16..16 + h[0]]), Decode(b[80..80 + h[1]]))
      case (Some(errorType), Some(errorMessage)) => Some(Errors(errorType, errorMessage))
      case _ => None
  }

  predicate HeaderReads(h: seq<nat>, generation: nat)
    requires |h| == 12
  {
    && h[2] == generation && h[3] != 0 && h[10] == 0 && h[11] == 0
    && h[7] <= SLOTS && h[8] <= SLOTS && h[9] <= SLOTS
  }

  function HeaderAt(data: seq<Byte>): (h: seq<nat>)
    requires |data| == RECORD_SIZE
    ensures |h| == 12
  {
    HeaderSize();
    Unpacked(RECORD_HEADER, data)
  }

  function ProfileAt(data: seq<Byte>): seq<nat>
    requires |data| == RECORD_SIZE
  {
    WordsSize(8);
    Unpacked(Words(8), data[PROFILE..])
  }

  function TensorsAt(data: seq<Byte>, n: nat): Option<seq<Tensor>>
    requires |data| == RECORD_SIZE
  {
    ReadTable(ReadTensor, TENSOR_SIZE, data[TENSORS..SCALARS], n)
  }

  function ScalarsAt(data: seq<Byte>, n: nat): Option<seq<Argument>>
    requires |data| == RECORD_SIZE
  {
    ReadTable(ReadScalar, SCALAR_SIZE, data[SCALARS..OUTPUTS], n)
  }

  function OutputsAt(data: seq<Byte>, n: nat): Option<seq<PlannedOutput>>
    requires |data| == RECORD_SIZE
  {
    ReadTable(ReadOutput, OUTPUT_SIZE, data[OUTPUTS..PROFILE], n)
  }

  /** The record in the bytes; unused slots are not looked at. */
  function RecordAt(data: seq<Byte>, generation: nat): Decoding {
    if |data| != RECORD_SIZE then Malformed
    else
      var h := HeaderAt(data);
      if !HeaderReads(h, generation) || !AllZero(data[52..TENSORS]) || !AllZero(data[TAIL..]) then Malformed
      else match (TensorsAt(data, h[7]), ScalarsAt(data, h[8]), OutputsAt(data, h[9]), ReadErrors(data[ERROR..TAIL]))
        case (Some(tensors), Some(scalars), Some(outputs), Some(errors)) =>
          Read(Record(h[0], generation, h[3], h[4], h[5], h[6], h[1], tensors, scalars, outputs, ProfileAt(data),
            errors.errorType, errors.errorMessage))
        case _ => Malformed
  }

  // ----- The round trip ---------------------------------------------------------------

  lemma RowReadsBack(ns: seq<int>)
    requires |ns| <= MAX_RANK && AllInt64(ns)
    ensures ReadRow(RowBytes(ns), |ns|) == Some(ns)
  {
    WordsSize(MAX_RANK);
    WordLimit();
    UnpackPacked(Words(MAX_RANK), Row(ns), []);
    assert RowBytes(ns) + [] == RowBytes(ns);
    var ws := Unpacked(Words(MAX_RANK), RowBytes(ns));
    assert ws == Row(ns);
    forall k | 0 <= k < |ns|
      ensures Signed(ws[k]) == ns[k]
    {
      SignedUnsigned(ns[k]);
    }
    assert seq(|ns|, k requires 0 <= k < |ns| => Signed(ws[k])) == ns;
  }

  lemma DtypeReadsBack(d: Dtype)
    ensures DtypeOf(DtypeId(d)) == d
  {
  }

  lemma TensorHeadReadsBack(t: Tensor)
    requires 0 < |t.shape| <= MAX_RANK && t.dtype != Unsupported
    ensures TensorHeadReads(TensorHead(t)) && TensorFrom(TensorHead(t), t.shape, t.strides) == t
  {
    DtypeReadsBack(t.dtype);
  }

  lemma TensorReadsBack(t: Tensor)
    requires TensorFits(t)
    ensures ReadTensor(TensorSlot(t)) == Some(t)
  {
    TensorHeadSize();
    var h, shape, strides := Packed(TENSOR_HEAD, TensorHead(t)), RowBytes(t.shape), RowBytes(t.strides);
    UnpackPacked(TENSOR_HEAD, TensorHead(t), shape + strides);
    ThreeParts(h, shape, strides);
    assert TensorHeadAt(TensorSlot(t)) == TensorHead(t);
    RowReadsBack(t.shape);
    RowReadsBack(t.strides);
    TensorHeadReadsBack(t);
  }

  lemma ThreeParts(a: seq<Byte>, b: seq<Byte>, c: seq<Byte>)
    ensures a + b + c == a + (b + c)
    ensures (a + b + c)[|a|..|a| + |b|] == b && (a + b + c)[|a| + |b|..] == c
  {
  }

  /** Integers come back reduced to 64 bits. */
  function Reduced(a: Argument): Argument {
    if a.content.Integer? then a.(content := Integer(Signed(Unsigned(a.content.number)))) else a
  }

  lemma ContentReadsBack(c: Content)
    requires c != Unknown
    ensures ReadContent(ContentId(c), BitsOf(c), Encode(TextOf(c))) == Some(Reduced(Argument(0, c)).content)
  {
    if c.String? {
      DecodeEncode(c.text);
    }
  }

  lemma PaddedParts(b: seq<Byte>, n: nat)
    requires |b| <= n
    ensures Pad(b, n)[..|b|] == b && AllZero(Pad(b, n)[|b|..])
  {
  }

  lemma ScalarReadsBack(a: Argument)
    requires ScalarFits(a)
    ensures ReadScalar(ScalarSlot(a)) == Some(Reduced(a))
  {
    HeadSizes();
    var h, text := Packed(SCALAR_HEAD, ScalarHead(a)), Encode(TextOf(a.content));
    var b := ScalarSlot(a);
    assert b == h + Pad(text, MAX_TEXT);
    UnpackPacked(SCALAR_HEAD, ScalarHead(a), Pad(text, MAX_TEXT));
    PaddedParts(text, MAX_TEXT);
    assert b[24..] == Pad(text, MAX_TEXT);
    assert b[24..24 + |text|] == b[24..][..|text|] && b[24 + |text|..] == b[24..][|text|..];
    ContentReadsBack(a.content);
  }

  lemma OutputReadsBack(o: PlannedOutput)
    requires OutputFits(o)
    ensures ReadOutput(OutputSlot(o)) == Some(o)
  {
    HeadSizes();
    UnpackPacked(OUTPUT_HEAD, OutputHead(o), RowBytes(o.shape));
    assert OutputSlot(o)[16..] == RowBytes(o.shape);
    RowReadsBack(o.shape);
    DtypeReadsBack(o.dtype);
  }

  lemma {:induction false} TableReadsBack<T>(
      slot: T -> seq<Byte>, read: seq<Byte> --> Option<T>, size: nat, items: seq<T>, results: seq<T>, rest: seq<Byte>)
    requires (forall x | |x| == size :: read.requires(x)) && |results| == |items|
    requires forall i | 0 <= i < |items| :: |slot(items[i])| == size && read(slot(items[i])) == Some(results[i])
    ensures ReadTable(read, size, Table(slot, items) + rest, |items|) == Some(results)
  {
    if items != [] {
      var first, more := slot(items[0]), Table(slot, items[1..]);
      assert first + more + rest == first + (more + rest);
      assert (first + (more + rest))[..size] == first && (first + (more + rest))[size..] == more + rest;
      TableReadsBack(slot, read, size, items[1..], results[1..], rest);
      assert [results[0]] + results[1..] == results;
    }
  }

  lemma {:induction false} TableSize<T>(slot: T -> seq<Byte>, size: nat, items: seq<T>)
    requires forall i | 0 <= i < |items| :: |slot(items[i])| == size
    ensures |Table(slot, items)| == size * |items|
  {
    if items != [] {
      TableSize(slot, size, items[1..]);
    }
  }

  // ----- Where the parts lie ----------------------------------------------------------

  lemma Slices(a: seq<Byte>, b: seq<Byte>, c: seq<Byte>, d: seq<Byte>)
    ensures (a + b + c + d)[..|a|] == a
    ensures (a + b + c + d)[|a|..|a| + |b|] == b
    ensures (a + b + c + d)[|a| + |b|..|a| + |b| + |c|] == c
    ensures (a + b + c + d)[|a| + |b| + |c|..] == d
  {
  }

  lemma Associate(a: seq<Byte>, b: seq<Byte>, c: seq<Byte>, d: seq<Byte>, e: seq<Byte>)
    ensures a + b + c + d + e == a + (b + (c + d + e))
  {
  }

  lemma TensorTableFits(ts: seq<Tensor>)
    requires |ts| <= SLOTS
    ensures |Table(TensorSlot, ts)| == TENSOR_SIZE * |ts| <= SCALARS - TENSORS
  {
    TableSize(TensorSlot, TENSOR_SIZE, ts);
  }

  lemma ScalarTableFits(ss: seq<Argument>)
    requires |ss| <= SLOTS && forall i | 0 <= i < |ss| :: ScalarFits(ss[i])
    ensures |Table(ScalarSlot, ss)| == SCALAR_SIZE * |ss| <= OUTPUTS - SCALARS
  {
    TableSize(ScalarSlot, SCALAR_SIZE, ss);
  }

  lemma OutputTableFits(os: seq<PlannedOutput>)
    requires |os| <= SLOTS
    ensures |Table(OutputSlot, os)| == OUTPUT_SIZE * |os| <= PROFILE - OUTPUTS
  {
    TableSize(OutputSlot, OUTPUT_SIZE, os);
  }

  lemma TablesFit(r: Record)
    requires ItemsFit(r)
    ensures |Table(TensorSlot, r.tensors)| <= SCALARS - TENSORS
    ensures |Table(ScalarSlot, r.scalars)| <= OUTPUTS - SCALARS
    ensures |Table(OutputSlot, r.outputs)| <= PROFILE - OUTPUTS
  {
    TensorTableFits(r.tensors);
    ScalarTableFits(r.scalars);
    OutputTableFits(r.outputs);
  }

  /** The parts after the tables. */
  function Ending(r: Record): (b: seq<Byte>)
    requires |r.profile| == 8
    ensures |b| == RECORD_SIZE - PROFILE
  {
    ProfileBytes(r) + ErrorBytes(r) + Zeros(RECORD_SIZE - TAIL)
  }

  lemma TwoHalves(r: Record)
    requires |r.profile| == 8
    ensures Bytes(r) ==
            Pad(HeaderBytes(r), TENSORS) + Pad(Table(TensorSlot, r.tensors), SCALARS - TENSORS) +
            Pad(Table(ScalarSlot, r.scalars), OUTPUTS - SCALARS) +
            (Pad(Table(OutputSlot, r.outputs), PROFILE - OUTPUTS) + Ending(r))
  {
    var tables := Pad(HeaderBytes(r), TENSORS) + Pad(Table(TensorSlot, r.tensors), SCALARS - TENSORS) +
      Pad(Table(ScalarSlot, r.scalars), OUTPUTS - SCALARS);
    Associate(tables, Pad(Table(OutputSlot, r.outputs), PROFILE - OUTPUTS), ProfileBytes(r), ErrorBytes(r),
      Zeros(RECORD_SIZE - TAIL));
  }

  /** The sections of an encoded record, one after another. */
  lemma Sections(r: Record)
    requires |r.profile| == 8 && ItemsFit(r)
    ensures var data := Bytes(r);
      && |data| == RECORD_SIZE
      && data[..TENSORS] == Pad(HeaderBytes(r), TENSORS)
      && data[TENSORS..SCALARS] == Pad(Table(TensorSlot, r.tensors), SCALARS - TENSORS)
      && data[SCALARS..OUTPUTS] == Pad(Table(ScalarSlot, r.scalars), OUTPUTS - SCALARS)
      && data[OUTPUTS..PROFILE] == Pad(Table(OutputSlot, r.outputs), PROFILE - OUTPUTS)
      && data[PROFILE..] == Ending(r)
  {
    TablesFit(r);
    TwoHalves(r);
    var tensors, scalars := Pad(Table(TensorSlot, r.tensors), SCALARS - TENSORS),
      Pad(Table(ScalarSlot, r.scalars), OUTPUTS - SCALARS);
    FiveParts(Pad(HeaderBytes(r), TENSORS), tensors, scalars, Pad(Table(OutputSlot, r.outputs), PROFILE - OUTPUTS),
      Ending(r));
  }

  lemma FiveParts(header: seq<Byte>, tensors: seq<Byte>, scalars: seq<Byte>, outputs: seq<Byte>, ending: seq<Byte>)
    requires |header| == TENSORS && |tensors| == SCALARS - TENSORS && |scalars| == OUTPUTS - SCALARS
    requires |outputs| == PROFILE - OUTPUTS && |ending| == RECORD_SIZE - PROFILE
    ensures var data := header + tensors + scalars + (outputs + ending);
      && |data| == RECORD_SIZE && data[..TENSORS] == header && data[TENSORS..SCALARS] == tensors
      && data[SCALARS..OUTPUTS] == scalars && data[OUTPUTS..PROFILE] == outputs && data[PROFILE..] == ending
  {
    Slices(header, tensors, scalars, outputs + ending);
    LaterSlices(header + tensors + scalars + (outputs + ending), outputs, ending, OUTPUTS);
  }

  lemma LaterSlices(data: seq<Byte>, a: seq<Byte>, b: seq<Byte>, at: nat)
    requires at <= |data| && data[at..] == a + b
    ensures at + |a| <= |data| && data[at..at + |a|] == a && data[at + |a|..] == b
  {
    assert data[at..][..|a|] == a && data[at..][|a|..] == b;
  }

  lemma {:induction false} SlotAt<T>(slot: T -> seq<Byte>, size: nat, items: seq<T>, i: nat)
    requires i < |items| && forall k | 0 <= k < |items| :: |slot(items[k])| == size
    ensures size * i + size <= |Table(slot, items)|
    ensures Table(slot, items)[size * i..size * i + size] == slot(items[i])
  {
    var first, rest := slot(items[0]), Table(slot, items[1..]);
    if i == 0 {
      assert (first + rest)[..size] == first;
    } else {
      OneSlotFurther(size, i - 1);
      SlotAt(slot, size, items[1..], i - 1);
      assert (first + rest)[size * i..size * i + size] == rest[size * (i - 1)..size * (i - 1) + size];
    }
  }

  lemma SlotInSection(data: seq<Byte>, start: nat, end: nat, table: seq<Byte>, at: nat, size: nat, slot: seq<Byte>)
    requires start <= end <= |data| && |table| <= end - start && data[start..end] == Pad(table, end - start)
    requires at + size <= |table| && table[at..at + size] == slot
    ensures data[start + at..start + at + size] == slot
  {
    var part := data[start..end];
    PaddedParts(table, end - start);
    PartOfPart(part, 0, |table|, at, at + size);
    PartOfPart(data, start, end, at, at + size);
  }

  lemma PartOfPart(b: seq<Byte>, start: nat, end: nat, first: nat, last: nat)
    requires start <= end <= |b| && first <= last <= end - start
    ensures b[start..end][first..last] == b[start + first..start + last]
  {
    forall k | 0 <= k < last - first
      ensures b[start..end][first..last][k] == b[start + first..start + last][k]
    {
    }
  }

  predicate InPlace(data: seq<Byte>, g: Region, bytes: seq<Byte>) {
    Start(g) + Length(g) <= |data| && data[Start(g)..Start(g) + Length(g)] == bytes
  }

  lemma TensorInTable(ts: seq<Tensor>, i: nat)
    requires |ts| <= SLOTS && i < |ts|
    ensures TENSOR_SIZE * i + TENSOR_SIZE <= |Table(TensorSlot, ts)| <= SCALARS - TENSORS
    ensures Table(TensorSlot, ts)[TENSOR_SIZE * i..TENSOR_SIZE * i + TENSOR_SIZE] == TensorSlot(ts[i])
  {
    hide TensorSlot, Table;
    TensorTableFits(ts);
    SlotAt(TensorSlot, TENSOR_SIZE, ts, i);
  }

  lemma TensorPlaced(data: seq<Byte>, table: seq<Byte>, i: nat, slot: seq<Byte>)
    requires |data| == RECORD_SIZE && |table| <= SCALARS - TENSORS
    requires data[TENSORS..SCALARS] == Pad(table, SCALARS - TENSORS)
    requires TENSOR_SIZE * i + TENSOR_SIZE <= |table|
    requires table[TENSOR_SIZE * i..TENSOR_SIZE * i + TENSOR_SIZE] == slot
    ensures InPlace(data, TensorRegion(i), slot)
  {
    Lengths(TensorRegion(i));
    SlotInSection(data, TENSORS, SCALARS, table, TENSOR_SIZE * i, TENSOR_SIZE, slot);
  }

  lemma TensorInPlace(r: Record, i: nat)
    requires |r.profile| == 8 && ItemsFit(r) && i < |r.tensors|
    ensures InPlace(Bytes(r), TensorRegion(i), TensorSlot(r.tensors[i]))
  {
    hide Bytes, Table, Pad, TensorSlot, HeaderBytes, Ending, TensorFits, ScalarFits, OutputFits, InPlace;
    Sections(r);
    TensorInTable(r.tensors, i);
    TensorPlaced(Bytes(r), Table(TensorSlot, r.tensors), i, TensorSlot(r.tensors[i]));
  }

  lemma ScalarInPlace(r: Record, i: nat)
    requires |r.profile| == 8 && ItemsFit(r) && i < |r.scalars|
    ensures InPlace(Bytes(r), ScalarRegion(i), ScalarSlot(r.scalars[i]))
  {
    hide Bytes, Table, Pad, ScalarSlot, HeaderBytes, Ending, TensorFits, OutputFits;
    Sections(r);
    ScalarTableFits(r.scalars);
    Lengths(ScalarRegion(i));
    SlotAt(ScalarSlot, SCALAR_SIZE, r.scalars, i);
    SlotInSection(Bytes(r), SCALARS, OUTPUTS, Table(ScalarSlot, r.scalars), SCALAR_SIZE * i, SCALAR_SIZE,
      ScalarSlot(r.scalars[i]));
  }

  lemma OutputInPlace(r: Record, i: nat)
    requires |r.profile| == 8 && ItemsFit(r) && i < |r.outputs|
    ensures InPlace(Bytes(r), OutputRegion(i), OutputSlot(r.outputs[i]))
  {
    hide Bytes, Table, Pad, OutputSlot, HeaderBytes, Ending, TensorFits, ScalarFits, OutputFits;
    Sections(r);
    OutputTableFits(r.outputs);
    Lengths(OutputRegion(i));
    SlotAt(OutputSlot, OUTPUT_SIZE, r.outputs, i);
    SlotInSection(Bytes(r), OUTPUTS, PROFILE, Table(OutputSlot, r.outputs), OUTPUT_SIZE * i, OUTPUT_SIZE,
      OutputSlot(r.outputs[i]));
  }

  /** Every tensor, scalar and output of the record lies in the region of its own number. */
  lemma SlotsInPlace(r: Record, i: nat)
    requires |r.profile| == 8 && ItemsFit(r)
    ensures i < |r.tensors| ==> InPlace(Bytes(r), TensorRegion(i), TensorSlot(r.tensors[i]))
    ensures i < |r.scalars| ==> InPlace(Bytes(r), ScalarRegion(i), ScalarSlot(r.scalars[i]))
    ensures i < |r.outputs| ==> InPlace(Bytes(r), OutputRegion(i), OutputSlot(r.outputs[i]))
  {
    hide InPlace, Bytes;
    if i < |r.tensors| {
      TensorInPlace(r, i);
    }
    if i < |r.scalars| {
      ScalarInPlace(r, i);
    }
    if i < |r.outputs| {
      OutputInPlace(r, i);
    }
  }

  lemma EndingSections(r: Record)
    requires |r.profile| == 8 && ItemsFit(r)
    ensures var data := Bytes(r);
      && |data| == RECORD_SIZE && data[PROFILE..] == ProfileBytes(r) + (ErrorBytes(r) + Zeros(RECORD_SIZE - TAIL))
      && data[ERROR..TAIL] == ErrorBytes(r) && data[TAIL..] == Zeros(RECORD_SIZE - TAIL)
  {
    Sections(r);
    EndingParts(Bytes(r), ProfileBytes(r), ErrorBytes(r), Zeros(RECORD_SIZE - TAIL));
  }

  lemma EndingParts(data: seq<Byte>, profile: seq<Byte>, error: seq<Byte>, tail: seq<Byte>)
    requires |data| == RECORD_SIZE && data[PROFILE..] == profile + error + tail
    requires |profile| == ERROR - PROFILE && |error| == TAIL - ERROR
    ensures data[PROFILE..] == profile + (error + tail) && data[ERROR..TAIL] == error && data[TAIL..] == tail
  {
    assert profile + error + tail == profile + (error + tail);
    LaterSlices(data, profile, error + tail, PROFILE);
    LaterSlices(data, error, tail, ERROR);
  }

  lemma PaddedSection(data: seq<Byte>, b: seq<Byte>, end: nat)
    requires |b| <= end <= |data| && data[..end] == Pad(b, end)
    ensures data == b + data[|b|..] && AllZero(data[|b|..end])
  {
    PaddedParts(b, end);
    assert data[..|b|] == data[..end][..|b|] && data[|b|..end] == data[..end][|b|..];
  }

  lemma HeaderReadsBack(r: Record)
    requires Encodable(r)
    ensures |Bytes(r)| == RECORD_SIZE && HeaderAt(Bytes(r)) == HeaderOf(r)
    ensures AllZero(Bytes(r)[52..TENSORS])
  {
    Sections(r);
    HeaderSize();
    PaddedSection(Bytes(r), HeaderBytes(r), TENSORS);
    UnpackPacked(RECORD_HEADER, HeaderOf(r), Bytes(r)[52..]);
  }

  lemma TablesReadBack(r: Record)
    requires Encodable(r)
    ensures |Bytes(r)| == RECORD_SIZE
    ensures TensorsAt(Bytes(r), |r.tensors|) == Some(r.tensors)
    ensures ScalarsAt(Bytes(r), |r.scalars|) == Some(AllReduced(r.scalars))
    ensures OutputsAt(Bytes(r), |r.outputs|) == Some(r.outputs)
  {
    hide Bytes, Table, ReadTable, Pad;
    Sections(r);
    TensorsReadBack(r.tensors);
    ScalarsReadBack(r.scalars);
    OutputsReadBack(r.outputs);
  }

  function AllReduced(scalars: seq<Argument>): seq<Argument> {
    seq(|scalars|, i requires 0 <= i < |scalars| => Reduced(scalars[i]))
  }

  lemma TensorsReadBack(ts: seq<Tensor>)
    requires forall i | 0 <= i < |ts| :: TensorFits(ts[i])
    ensures ReadTable(ReadTensor, TENSOR_SIZE, Pad(Table(TensorSlot, ts), SCALARS - TENSORS), |ts|) == Some(ts)
  {
    forall i | 0 <= i < |ts|
      ensures ReadTensor(TensorSlot(ts[i])) == Some(ts[i])
    {
      TensorReadsBack(ts[i]);
    }
    var b := Table(TensorSlot, ts);
    TableReadsBack(TensorSlot, ReadTensor, TENSOR_SIZE, ts, ts, Pad(b, SCALARS - TENSORS)[|b|..]);
  }

  lemma ScalarsReadBack(ss: seq<Argument>)
    requires forall i | 0 <= i < |ss| :: ScalarFits(ss[i])
    ensures ReadTable(ReadScalar, SCALAR_SIZE, Pad(Table(ScalarSlot, ss), OUTPUTS - SCALARS), |ss|) ==
        Some(AllReduced(ss))
  {
    forall i | 0 <= i < |ss|
      ensures ReadScalar(ScalarSlot(ss[i])) == Some(AllReduced(ss)[i])
    {
      ScalarReadsBack(ss[i]);
    }
    var b := Table(ScalarSlot, ss);
    TableReadsBack(ScalarSlot, ReadScalar, SCALAR_SIZE, ss, AllReduced(ss), Pad(b, OUTPUTS - SCALARS)[|b|..]);
  }

  lemma OutputsReadBack(os: seq<PlannedOutput>)
    requires forall i | 0 <= i < |os| :: OutputFits(os[i])
    ensures ReadTable(ReadOutput, OUTPUT_SIZE, Pad(Table(OutputSlot, os), PROFILE - OUTPUTS), |os|) == Some(os)
  {
    forall i | 0 <= i < |os|
      ensures ReadOutput(OutputSlot(os[i])) == Some(os[i])
    {
      OutputReadsBack(os[i]);
    }
    var b := Table(OutputSlot, os);
    TableReadsBack(OutputSlot, ReadOutput, OUTPUT_SIZE, os, os, Pad(b, PROFILE - OUTPUTS)[|b|..]);
  }

  lemma ProfileReadsBack(r: Record)
    requires Encodable(r)
    ensures |Bytes(r)| == RECORD_SIZE && ProfileAt(Bytes(r)) == r.profile
  {
    EndingSections(r);
    WordsSize(8);
    UnpackPacked(Words(8), r.profile, ErrorBytes(r) + Zeros(RECORD_SIZE - TAIL));
  }

  // ----- The error texts --------------------------------------------------------------

  /** A text that fits, or whose cut falls between two characters. */
  predicate Arrives(t: Text, limit: nat) {
    Size(t) <= limit || Size(Prefix(t, limit)) == limit
  }

  lemma CutReadsBack(t: Text, limit: nat)
    ensures Decode(Cut(t, limit)) == if Arrives(t, limit) then Some(Prefix(t, limit)) else None
  {
    PrefixWhole(t, limit);
    if Size(t) <= limit {
      DecodeEncode(t);
    } else {
      CutDecodesExactly(t, limit);
    }
  }

  lemma ErrorSections(r: Record)
    ensures var b, e, m := ErrorBytes(r), Cut(r.errorType, TYPE_SIZE), Cut(r.errorMessage, MESSAGE_SIZE);
      && b[16..16 + |e|] == e && AllZero(b[16 + |e|..80]) && b[80..80 + |m|] == m && AllZero(b[80 + |m|..])
  {
    HeadSizes();
    var b, e, m := ErrorBytes(r), Cut(r.errorType, TYPE_SIZE), Cut(r.errorMessage, MESSAGE_SIZE);
    var h := Packed(ERROR_HEAD, ErrorHead(r));
    PaddedParts(e, TYPE_SIZE);
    PaddedParts(m, MESSAGE_SIZE);
    assert b[16..80] == Pad(e, TYPE_SIZE) && b[80..] == Pad(m, MESSAGE_SIZE);
    assert b[16..16 + |e|] == b[16..80][..|e|] && b[16 + |e|..80] == b[16..80][|e|..];
    assert b[80..80 + |m|] == b[80..][..|m|] && b[80 + |m|..] == b[80..][|m|..];
  }

  lemma ErrorHeadReadsBack(r: Record)
    ensures SizeOf(ERROR_HEAD) == 16 && Unpacked(ERROR_HEAD, ErrorBytes(r)) == ErrorHead(r)
  {
    HeadSizes();
    var rest := Pad(Cut(r.errorType, TYPE_SIZE), TYPE_SIZE) + Pad(Cut(r.errorMessage, MESSAGE_SIZE), MESSAGE_SIZE);
    assert ErrorBytes(r) == Packed(ERROR_HEAD, ErrorHead(r)) + rest;
    assert Limit(4) == 0x1_0000_0000;
    UnpackPacked(ERROR_HEAD, ErrorHead(r), rest);
  }

  lemma ErrorsReadBack(r: Record)
    ensures ReadErrors(ErrorBytes(r)) ==
            if Arrives(r.errorType, TYPE_SIZE) && Arrives(r.errorMessage, MESSAGE_SIZE)
            then Some(Errors(Prefix(r.errorType, TYPE_SIZE), Prefix(r.errorMessage, MESSAGE_SIZE))) else None
  {
    ErrorHeadReadsBack(r);
    ErrorSections(r);
    CutReadsBack(r.errorType, TYPE_SIZE);
    CutReadsBack(r.errorMessage, MESSAGE_SIZE);
  }

  // ----- The whole record -------------------------------------------------------------

  /** What arrives: error texts cut to their limits, integers reduced to 64 bits. */
  function Received(r: Record): Record {
    r.(scalars := AllReduced(r.scalars), errorType := Prefix(r.errorType, TYPE_SIZE),
       errorMessage := Prefix(r.errorMessage, MESSAGE_SIZE))
  }

  /** Every part but the error is in the bytes. */
  predicate PartsAt(data: seq<Byte>, r: Record) {
    && |data| == RECORD_SIZE && HeaderAt(data) == HeaderOf(r) && r.submissionId != 0
    && |r.tensors| <= SLOTS && |r.scalars| <= SLOTS && |r.outputs| <= SLOTS
    && AllZero(data[52..TENSORS]) && AllZero(data[TAIL..])
    && TensorsAt(data, |r.tensors|) == Some(r.tensors) && ScalarsAt(data, |r.scalars|) == Some(r.scalars)
    && OutputsAt(data, |r.outputs|) == Some(r.outputs) && ProfileAt(data) == r.profile
  }

  lemma PartsRead(r: Record)
    requires Encodable(r)
    ensures PartsAt(Bytes(r), Received(r)) && Bytes(r)[ERROR..TAIL] == ErrorBytes(r)
  {
    hide Bytes;
    assert HeaderOf(Received(r)) == HeaderOf(r);
    HeaderReadsBack(r);
    TablesReadBack(r);
    ProfileReadsBack(r);
    EndingSections(r);
  }

  /** Parts read one by one make the record. */
  lemma PartsMakeRecord(data: seq<Byte>, generation: nat, r: Record, errors: Option<Errors>)
    requires PartsAt(data, r) && ReadErrors(data[ERROR..TAIL]) == errors
    ensures RecordAt(data, generation) ==
            if generation == r.generation && errors.Some?
            then Read(r.(errorType := errors.value.errorType, errorMessage := errors.value.errorMessage)) else Malformed
  {
    hide HeaderAt, TensorsAt, ScalarsAt, OutputsAt, ProfileAt, ReadErrors, AllZero;
  }

  /**
   An encoded record is read under its own generation only, and exactly when each error text fits
   its limit or is cut between two characters.
   */
  lemma DecodesExactly(r: Record, generation: nat)
    requires Encodable(r)
    ensures RecordAt(Bytes(r), generation) ==
            if generation == r.generation && Arrives(r.errorType, TYPE_SIZE) && Arrives(r.errorMessage, MESSAGE_SIZE)
            then Read(Received(r)) else Malformed
  {
    hide Bytes, RecordAt;
    ErrorsReadBack(r);
    PartsRead(r);
    PartsMakeRecord(Bytes(r), generation, Received(r), ReadErrors(ErrorBytes(r)));
  }

  lemma ReducedSame(scalars: seq<Argument>)
    ensures AllReduced(scalars) == scalars <==> AllIntegersFit(scalars)
  {
    forall i | 0 <= i < |scalars|
      ensures AllReduced(scalars)[i] == scalars[i] <==>
              (scalars[i].content.Integer? ==> InInt64(scalars[i].content.number))
    {
      if scalars[i].content.Integer? {
        SignedUnsigned(scalars[i].content.number);
      }
    }
  }

  predicate AllIntegersFit(scalars: seq<Argument>) {
    forall i | 0 <= i < |scalars| :: scalars[i].content.Integer? ==> InInt64(scalars[i].content.number)
  }

  lemma ReceivedSame(r: Record)
    ensures Received(r) == r <==>
            Size(r.errorType) <= TYPE_SIZE && Size(r.errorMessage) <= MESSAGE_SIZE && AllIntegersFit(r.scalars)
  {
    ReducedSame(r.scalars);
    PrefixWhole(r.errorType, TYPE_SIZE);
    PrefixWhole(r.errorMessage, MESSAGE_SIZE);
  }

  /** It comes back unchanged exactly when the error texts fit and every integer is one of 64 bits. */
  lemma RoundTrip(r: Record)
    requires Encodable(r)
    ensures RecordAt(Bytes(r), r.generation) == Read(r) <==>
            Size(r.errorType) <= TYPE_SIZE && Size(r.errorMessage) <= MESSAGE_SIZE && AllIntegersFit(r.scalars)
  {
    hide Bytes, RecordAt, Received;
    DecodesExactly(r, r.generation);
    ReceivedSame(r);
  }

  function Completion(message: Text): Record {
    Record(257, 1, 1, 1, 1, 4, 0, [], [], [], seq(8, _ => 0), [], message)
  }

  lemma CompletionEncodable(message: Text)
    ensures Encodable(Completion(message))
  {
    assert Limit(2) == 0x1_0000 && Limit(4) == 0x1_0000_0000;
    WordLimit();
  }

  /** A completion whose message is plain up to the limit and then has a character across it. */
  lemma MessageLost() returns (r: Record)
    ensures Encodable(r) && Size(r.errorMessage) == MESSAGE_SIZE + 1
    ensures RecordAt(Bytes(r), r.generation) == Malformed
  {
    var message := CutsHappen(MESSAGE_SIZE);
    r := Completion(message);
    CompletionEncodable(message);
    CutDecodesExactly(message, MESSAGE_SIZE);
    DecodesExactly(r, 1);
  }
}
