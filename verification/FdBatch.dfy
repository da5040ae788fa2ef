/** The packets that carry mapping entries: a frame header, a batch header and up to 240 entries. */
module FdBatch {
  import opened Wire
  import opened Wrappers

  const MAGIC := 0x314c_5443_5346_4d57
  const ABI_MAJOR := 1
  const ABI_MINOR := 0
  const FD_TRANSFER := 16
  const FRAME_HEADER_SIZE := 32
  const BATCH_HEADER_SIZE := 32
  const ENTRY_SIZE := 48
  const MAX_PACKET_BYTES := 69632
  const MAX_FD_ENTRIES := 240
  const ENTRY_MAP := 1
  const ENTRY_RETIRE := 2
  const FLAG_WRITABLE := 1
  const FLAG_ARENA := 2
  const BATCH_FLAG_TRANSACTIONAL := 1

  type U16 = x: int | 0 <= x < 0x1_0000
  type U32 = x: int | 0 <= x < 0x1_0000_0000
  type U64 = x: int | 0 <= x < 0x1_0000_0000_0000_0000

  datatype FdEntry = FdEntry(
    kind: U32, flags: U32, bufferId: U64, generation: U64, allocationId: U64, invocationId: U64, byteLength: U64)

  datatype BatchHeader = BatchHeader(
    transferId: U64, sessionGeneration: U64, entryCount: U16, fdCount: U16, flags: U32, reserved: U64)

  datatype Batch = Batch(requestId: U64, header: BatchHeader, entries: seq<FdEntry>)

  datatype Status = OK | INVALID | NO_SPACE

  datatype Decoded = Accepted(batch: Batch) | Rejected

  predicate ValidEntry(e: FdEntry) {
    && (e.kind == ENTRY_MAP || e.kind == ENTRY_RETIRE)
    && e.flags <= FLAG_WRITABLE + FLAG_ARENA
    && (e.kind == ENTRY_RETIRE ==> e.flags == 0)
  }

  function Maps(entries: seq<FdEntry>, n: nat): nat
    requires n <= |entries|
  {
    Count((e: FdEntry) => e.kind == ENTRY_MAP, entries, n)
  }

  predicate Valid(b: Batch) {
    && 1 <= b.header.entryCount <= MAX_FD_ENTRIES && |b.entries| == b.header.entryCount
    && b.header.reserved == 0 && b.header.flags == BATCH_FLAG_TRANSACTIONAL
    && (forall i | 0 <= i < |b.entries| :: ValidEntry(b.entries[i]))
    && Maps(b.entries, |b.entries|) == b.header.fdCount
  }

  // ----- The layout -------------------------------------------------------------------

  function PayloadSize(count: nat): nat {
    BATCH_HEADER_SIZE + ENTRY_SIZE * count
  }

  function HeaderFields(b: Batch): seq<Field> {
    [Field(8, MAGIC), Field(2, ABI_MAJOR), Field(2, ABI_MINOR), Field(2, FD_TRANSFER), Field(2, 0),
     Field(4, FRAME_HEADER_SIZE), Field(4, PayloadSize(|b.entries|)), Field(8, b.requestId),
     Field(8, b.header.transferId), Field(8, b.header.sessionGeneration), Field(2, b.header.entryCount),
     Field(2, b.header.fdCount), Field(4, b.header.flags), Field(8, b.header.reserved)]
  }

  function EntryFields(e: FdEntry): seq<Field> {
    [Field(4, e.kind), Field(4, e.flags), Field(8, e.bufferId), Field(8, e.generation), Field(8, e.allocationId),
     Field(8, e.invocationId), Field(8, e.byteLength)]
  }

  function Fields(b: Batch, n: nat): seq<Field>
    requires n <= |b.entries|
    ensures |Fields(b, n)| == 14 + 7 * n
  {
    if n == 0 then HeaderFields(b) else Fields(b, n - 1) + EntryFields(b.entries[n - 1])
  }

  /** The bytes of a batch. */
  function Encoded(b: Batch): seq<Byte> {
    Pack(Fields(b, |b.entries|), 14 + 7 * |b.entries|)
  }

  function EntryAt(p: seq<Byte>, i: nat): FdEntry
    requires 64 + ENTRY_SIZE * (i + 1) <= |p|
  {
    var at := 64 + ENTRY_SIZE * i;
    LoadsFit(p, at);
    FdEntry(Load(p, at, 4), Load(p, at + 4, 4), Load(p, at + 8, 8), Load(p, at + 16, 8), Load(p, at + 24, 8),
      Load(p, at + 32, 8), Load(p, at + 40, 8))
  }

  lemma LoadFits(p: seq<Byte>, at: nat, width: nat)
    requires at + width <= |p|
    ensures Load(p, at, width) < Limit(width)
  {
    ValueLittle(p[at..at + width]);
  }

  lemma Limits()
    ensures Limit(2) == 0x1_0000 && Limit(4) == 0x1_0000_0000 && Limit(8) == 0x1_0000_0000_0000_0000
  {
  }

  lemma LoadsFit(p: seq<Byte>, at: nat)
    requires at + ENTRY_SIZE <= |p|
    ensures Load(p, at, 4) < 0x1_0000_0000 && Load(p, at + 4, 4) < 0x1_0000_0000
    ensures Load(p, at + 8, 8) < 0x1_0000_0000_0000_0000 && Load(p, at + 16, 8) < 0x1_0000_0000_0000_0000
    ensures Load(p, at + 24, 8) < 0x1_0000_0000_0000_0000 && Load(p, at + 32, 8) < 0x1_0000_0000_0000_0000
    ensures Load(p, at + 40, 8) < 0x1_0000_0000_0000_0000
  {
    Limits();
    LoadFits(p, at, 4);
    LoadFits(p, at + 4, 4);
    LoadFits(p, at + 8, 8);
    LoadFits(p, at + 16, 8);
    LoadFits(p, at + 24, 8);
    LoadFits(p, at + 32, 8);
    LoadFits(p, at + 40, 8);
  }

  predicate FrameAt(p: seq<Byte>)
    requires |p| >= FRAME_HEADER_SIZE
  {
    && Load(p, 0, 8) == MAGIC && Load(p, 8, 2) == ABI_MAJOR && Load(p, 10, 2) <= ABI_MINOR
    && Load(p, 12, 2) == FD_TRANSFER && Load(p, 14, 2) == 0 && Load(p, 16, 4) == FRAME_HEADER_SIZE
    && Load(p, 20, 4) == |p| - FRAME_HEADER_SIZE
  }

  function RequestAt(p: seq<Byte>): U64
    requires |p| >= FRAME_HEADER_SIZE
  {
    Limits();
    LoadFits(p, 24, 8);
    Load(p, 24, 8)
  }

  function HeaderAt(p: seq<Byte>): BatchHeader
    requires |p| >= FRAME_HEADER_SIZE + BATCH_HEADER_SIZE
  {
    HeaderFits(p);
    BatchHeader(Load(p, 32, 8), Load(p, 40, 8), Load(p, 48, 2), Load(p, 50, 2), Load(p, 52, 4), Load(p, 56, 8))
  }

  lemma HeaderFits(p: seq<Byte>)
    requires |p| >= FRAME_HEADER_SIZE + BATCH_HEADER_SIZE
    ensures Load(p, 32, 8) < 0x1_0000_0000_0000_0000 && Load(p, 40, 8) < 0x1_0000_0000_0000_0000
    ensures Load(p, 48, 2) < 0x1_0000 && Load(p, 50, 2) < 0x1_0000
    ensures Load(p, 52, 4) < 0x1_0000_0000 && Load(p, 56, 8) < 0x1_0000_0000_0000_0000
  {
    Limits();
    LoadFits(p, 32, 8);
    LoadFits(p, 40, 8);
    LoadFits(p, 48, 2);
    LoadFits(p, 50, 2);
    LoadFits(p, 52, 4);
    LoadFits(p, 56, 8);
  }

  function EntriesAt(p: seq<Byte>, n: nat): seq<FdEntry>
    requires 64 + ENTRY_SIZE * n <= |p|
    ensures |EntriesAt(p, n)| == n
  {
    if n == 0 then [] else EntriesAt(p, n - 1) + [EntryAt(p, n - 1)]
  }

  /** Everything that can be read from a packet must agree; `capacity` is the room for entries. */
  function Decode(p: seq<Byte>, capacity: nat): Decoded {
    if |p| < FRAME_HEADER_SIZE || |p| > MAX_PACKET_BYTES || !FrameAt(p) || |p| - FRAME_HEADER_SIZE < BATCH_HEADER_SIZE
    then Rejected
    else
      var h := HeaderAt(p);
      if h.entryCount > capacity || |p| - FRAME_HEADER_SIZE != PayloadSize(h.entryCount) then Rejected
      else
        var b := Batch(RequestAt(p), h, EntriesAt(p, h.entryCount));
        if Valid(b) then Accepted(b) else Rejected
  }

  // ----- Where each field lies --------------------------------------------------------

  lemma {:induction false} HeaderPrefix(b: Batch, n: nat)
    requires n <= |b.entries|
    ensures forall k | 0 <= k < 14 :: Fields(b, n)[k] == HeaderFields(b)[k]
  {
    if n > 0 {
      HeaderPrefix(b, n - 1);
    }
  }

  lemma HeaderOffsets(b: Batch, n: nat)
    requires n <= |b.entries|
    ensures var fs := Fields(b, n);
      && Offset(fs, 0) == 0 && Offset(fs, 1) == 8 && Offset(fs, 2) == 10 && Offset(fs, 3) == 12 && Offset(fs, 4) == 14
      && Offset(fs, 5) == 16 && Offset(fs, 6) == 20 && Offset(fs, 7) == 24 && Offset(fs, 8) == 32 && Offset(fs, 9) == 40
      && Offset(fs, 10) == 48 && Offset(fs, 11) == 50 && Offset(fs, 12) == 52 && Offset(fs, 13) == 56 &&
          Offset(fs, 14) == 64
  {
    HeaderPrefix(b, n);
    var fs := Fields(b, n);
    assert fs[0].width == 8 && fs[1].width == 2 && fs[2].width == 2 && fs[3].width == 2 && fs[4].width == 2;
    assert fs[5].width == 4 && fs[6].width == 4 && fs[7].width == 8 && fs[8].width == 8 && fs[9].width == 8;
    assert fs[10].width == 2 && fs[11].width == 2 && fs[12].width == 4 && fs[13].width == 8;
  }

  lemma {:induction false} EntryPrefix(b: Batch, n: nat, i: nat)
    requires i < n <= |b.entries|
    ensures forall j | 0 <= j < 7 :: Fields(b, n)[14 + 7 * i + j] == EntryFields(b.entries[i])[j]
  {
    if i < n - 1 {
      EntryPrefix(b, n - 1, i);
    }
  }

  lemma {:induction false} EntryOffset(b: Batch, n: nat, i: nat)
    requires i <= n <= |b.entries|
    ensures Offset(Fields(b, n), 14 + 7 * i) == 64 + ENTRY_SIZE * i
  {
    if i == 0 {
      HeaderOffsets(b, n);
    } else {
      EntryOffset(b, n, i - 1);
      EntryOffsets(b, n, i - 1);
    }
  }

  lemma EntryOffsets(b: Batch, n: nat, i: nat)
    requires i < n <= |b.entries|
    requires Offset(Fields(b, n), 14 + 7 * i) == 64 + ENTRY_SIZE * i
    ensures var fs, k, at := Fields(b, n), 14 + 7 * i, 64 + ENTRY_SIZE * i;
      && Offset(fs, k + 1) == at + 4 && Offset(fs, k + 2) == at + 8 && Offset(fs, k + 3) == at + 16
      && Offset(fs, k + 4) == at + 24 && Offset(fs, k + 5) == at + 32 && Offset(fs, k + 6) == at + 40
      && Offset(fs, k + 7) == at + 48
  {
    EntryPrefix(b, n, i);
    var fs, k, es := Fields(b, n), 14 + 7 * i, EntryFields(b.entries[i]);
    assert fs[k + 0] == es[0] && fs[k + 1] == es[1] && fs[k + 2] == es[2] && fs[k + 3] == es[3];
    assert fs[k + 4] == es[4] && fs[k + 5] == es[5] && fs[k + 6] == es[6];
  }

  // ----- A packet is accepted exactly when it is the encoding of a valid batch ---------

  ghost predicate HeaderReads(p: seq<Byte>, b: Batch)
    requires |p| >= 64
  {
    && Load(p, 0, 8) == MAGIC && Load(p, 8, 2) == ABI_MAJOR && Load(p, 10, 2) == ABI_MINOR
    && Load(p, 12, 2) == FD_TRANSFER && Load(p, 14, 2) == 0 && Load(p, 16, 4) == FRAME_HEADER_SIZE
    && Load(p, 20, 4) == PayloadSize(|b.entries|) && RequestAt(p) == b.requestId && HeaderAt(p) == b.header
  }

  lemma HeaderFieldsLoad(p: seq<Byte>, b: Batch, n: nat)
    requires |p| >= 64 && n <= |b.entries|
    ensures var fs, h, r := Fields(b, n), b.header, HeaderAt(p);
      && (LoadsField(p, fs, 0) <==> Load(p, 0, 8) == MAGIC) && (LoadsField(p, fs, 1) <==> Load(p, 8, 2) == ABI_MAJOR)
      && (LoadsField(p, fs, 2) <==> Load(p, 10, 2) == ABI_MINOR)
      && (LoadsField(p, fs, 3) <==> Load(p, 12, 2) == FD_TRANSFER) && (LoadsField(p, fs, 4) <==> Load(p, 14, 2) == 0)
      && (LoadsField(p, fs, 5) <==> Load(p, 16, 4) == FRAME_HEADER_SIZE)
      && (LoadsField(p, fs, 6) <==> Load(p, 20, 4) == PayloadSize(|b.entries|))
      && (LoadsField(p, fs, 7) <==> RequestAt(p) == b.requestId)
      && (LoadsField(p, fs, 8) <==> r.transferId == h.transferId)
      && (LoadsField(p, fs, 9) <==> r.sessionGeneration == h.sessionGeneration)
      && (LoadsField(p, fs, 10) <==> r.entryCount == h.entryCount)
      && (LoadsField(p, fs, 11) <==> r.fdCount == h.fdCount)
      && (LoadsField(p, fs, 12) <==> r.flags == h.flags) && (LoadsField(p, fs, 13) <==> r.reserved == h.reserved)
  {
    HeaderPrefix(b, n);
    HeaderOffsets(b, n);
    var fs, hs := Fields(b, n), HeaderFields(b);
    assert fs[0] == hs[0] && fs[1] == hs[1] && fs[2] == hs[2] && fs[3] == hs[3] && fs[4] == hs[4] && fs[5] == hs[5];
    assert fs[6] == hs[6] && fs[7] == hs[7] && fs[8] == hs[8] && fs[9] == hs[9] && fs[10] == hs[10] && fs[11] == hs[11];
    assert fs[12] == hs[12] && fs[13] == hs[13];
  }

  lemma HeaderLoads(p: seq<Byte>, b: Batch, n: nat)
    requires |p| >= 64 && n <= |b.entries|
    ensures HeaderReads(p, b) <==> Loads(p, Fields(b, n), 0, 14)
  {
    HeaderFieldsLoad(p, b, n);
    FirstFourteen(p, Fields(b, n));
  }

  lemma FirstFourteen(p: seq<Byte>, fs: seq<Field>)
    requires |fs| >= 14
    ensures Loads(p, fs, 0, 14) <==>
      && LoadsField(p, fs, 0) && LoadsField(p, fs, 1) && LoadsField(p, fs, 2) && LoadsField(p, fs, 3)
      && LoadsField(p, fs, 4) && LoadsField(p, fs, 5) && LoadsField(p, fs, 6) && LoadsField(p, fs, 7)
      && LoadsField(p, fs, 8) && LoadsField(p, fs, 9) && LoadsField(p, fs, 10) && LoadsField(p, fs, 11)
      && LoadsField(p, fs, 12) && LoadsField(p, fs, 13)
  {
  }

  lemma EntryLoads(p: seq<Byte>, b: Batch, n: nat, i: nat)
    requires i < n <= |b.entries| && |p| >= 64 + ENTRY_SIZE * n
    ensures EntryAt(p, i) == b.entries[i] <==> Loads(p, Fields(b, n), 14 + 7 * i, 14 + 7 * (i + 1))
  {
    hide Fields, Load, Offset, EntryFields, EntryAt;
    EntryFieldsLoad(p, b, n, i);
    var fs, k := Fields(b, n), 14 + 7 * i;
    assert Loads(p, fs, k, k + 7) ==>
        LoadsField(p, fs, k + 0) && LoadsField(p, fs, k + 1) && LoadsField(p, fs, k + 2) && LoadsField(p, fs, k + 3) &&
        LoadsField(p, fs, k + 4) && LoadsField(p, fs, k + 5) && LoadsField(p, fs, k + 6);
  }

  lemma EntryFieldsLoad(p: seq<Byte>, b: Batch, n: nat, i: nat)
    requires i < n <= |b.entries| && |p| >= 64 + ENTRY_SIZE * n
    ensures var fs, k, e, r := Fields(b, n), 14 + 7 * i, b.entries[i], EntryAt(p, i);
      && (LoadsField(p, fs, k + 0) <==> r.kind == e.kind) && (LoadsField(p, fs, k + 1) <==> r.flags == e.flags)
      && (LoadsField(p, fs, k + 2) <==> r.bufferId == e.bufferId)
      && (LoadsField(p, fs, k + 3) <==> r.generation == e.generation)
      && (LoadsField(p, fs, k + 4) <==> r.allocationId == e.allocationId)
      && (LoadsField(p, fs, k + 5) <==> r.invocationId == e.invocationId)
      && (LoadsField(p, fs, k + 6) <==> r.byteLength == e.byteLength)
  {
    EntryPrefix(b, n, i);
    EntryOffset(b, n, i);
    EntryOffsets(b, n, i);
    var fs, k, es := Fields(b, n), 14 + 7 * i, EntryFields(b.entries[i]);
    assert fs[k + 0] == es[0] && fs[k + 1] == es[1] && fs[k + 2] == es[2] && fs[k + 3] == es[3];
    assert fs[k + 4] == es[4] && fs[k + 5] == es[5] && fs[k + 6] == es[6];
  }

  lemma EncodedSize(b: Batch)
    ensures |Encoded(b)| == 64 + ENTRY_SIZE * |b.entries|
  {
    EntryOffset(b, |b.entries|, |b.entries|);
  }

  lemma {:induction false} FieldsFit(b: Batch, n: nat)
    requires n <= |b.entries| <= MAX_FD_ENTRIES
    ensures Fits(Fields(b, n))
  {
    Limits();
    if n > 0 {
      FieldsFit(b, n - 1);
    }
  }

  lemma {:induction false} EntriesRead(p: seq<Byte>, n: nat, i: nat)
    requires i < n && 64 + ENTRY_SIZE * n <= |p|
    ensures EntriesAt(p, n)[i] == EntryAt(p, i)
  {
    if i < n - 1 {
      EntriesRead(p, n - 1, i);
    }
  }

  lemma EncodedReads(b: Batch)
    requires |b.entries| <= MAX_FD_ENTRIES
    ensures var p := Encoded(b);
      |p| == 64 + ENTRY_SIZE * |b.entries| && HeaderReads(p, b) && EntriesAt(p, |b.entries|) == b.entries
  {
    var p, n := Encoded(b), |b.entries|;
    var fs := Fields(b, n);
    EncodedSize(b);
    FieldsFit(b, n);
    forall k | 0 <= k < 14 + 7 * n
      ensures LoadsField(p, fs, k)
    {
      LoadPacked(fs, 14 + 7 * n, k);
    }
    HeaderLoads(p, b, n);
    forall i | 0 <= i < n
      ensures EntriesAt(p, n)[i] == b.entries[i]
    {
      EntryLoads(p, b, n, i);
      EntriesRead(p, n, i);
    }
  }

  lemma LoadsEncoded(p: seq<Byte>, b: Batch)
    requires |p| == 64 + ENTRY_SIZE * |b.entries| && Loads(p, Fields(b, |b.entries|), 0, 14 + 7 * |b.entries|)
    ensures p == Encoded(b)
  {
    EntryOffset(b, |b.entries|, |b.entries|);
    PackedFromLoads(p, Fields(b, |b.entries|), 14 + 7 * |b.entries|);
    assert p[..|p|] == p;
  }

  lemma ReadsEncoded(p: seq<Byte>, b: Batch)
    requires |p| == 64 + ENTRY_SIZE * |b.entries|
    requires HeaderReads(p, b) && EntriesAt(p, |b.entries|) == b.entries
    ensures p == Encoded(b)
  {
    AllLoads(p, b);
    LoadsEncoded(p, b);
  }

  lemma AllLoads(p: seq<Byte>, b: Batch)
    requires |p| == 64 + ENTRY_SIZE * |b.entries|
    requires HeaderReads(p, b) && EntriesAt(p, |b.entries|) == b.entries
    ensures Loads(p, Fields(b, |b.entries|), 0, 14 + 7 * |b.entries|)
  {
    var n := |b.entries|;
    var fs := Fields(b, n);
    HeaderLoads(p, b, n);
    forall k | 14 <= k < 14 + 7 * n
      ensures LoadsField(p, fs, k)
    {
      var i := (k - 14) / 7;
      EntriesRead(p, n, i);
      EntryLoads(p, b, n, i);
    }
  }

  /**
   The decoder accepts a packet exactly when it is the encoding of a valid batch with room for its
   entries, and yields that batch: nothing is lost, and no packet has a second reading.
   */
  lemma DecodesExactly(p: seq<Byte>, capacity: nat, b: Batch)
    ensures Decode(p, capacity) == Accepted(b) <==> Valid(b) && |b.entries| <= capacity && p == Encoded(b)
  {
    if Decode(p, capacity) == Accepted(b) {
      ReadsEncoded(p, b);
    }
    if Valid(b) && |b.entries| <= capacity && p == Encoded(b) {
      EncodedReads(b);
    }
  }

  // ----- The encoder and the decoder --------------------------------------------------

  /** Stores one more field of a layout whose first `k` fields are in place. */
  method StoreField(out: array<Byte>, ghost fs: seq<Field>, ghost k: nat, at: nat, width: nat, value: nat)
    requires k < |fs| && fs[k] == Field(width, value) && at == Offset(fs, k) && at + width <= out.Length
    requires out[..at] == Pack(fs, k)
    modifies out
    ensures out[..at + width] == Pack(fs, k + 1)
  {
    Store(out, at, width, value);
  }

  method StoreFrame(out: array<Byte>, ghost b: Batch, requestId: U64, payloadSize: nat)
    requires out.Length >= 64 && requestId == b.requestId && payloadSize == PayloadSize(|b.entries|)
    modifies out
    ensures out[..32] == Pack(Fields(b, |b.entries|), 8)
  {
    ghost var fs := Fields(b, |b.entries|);
    HeaderPrefix(b, |b.entries|);
    HeaderOffsets(b, |b.entries|);
    StoreField(out, fs, 0, 0, 8, MAGIC);
    StoreField(out, fs, 1, 8, 2, ABI_MAJOR);
    StoreField(out, fs, 2, 10, 2, ABI_MINOR);
    StoreField(out, fs, 3, 12, 2, FD_TRANSFER);
    StoreField(out, fs, 4, 14, 2, 0);
    StoreFrameEnd(out, b, requestId, payloadSize);
  }

  method StoreFrameEnd(out: array<Byte>, ghost b: Batch, requestId: U64, payloadSize: nat)
    requires out.Length >= 64 && requestId == b.requestId && payloadSize == PayloadSize(|b.entries|)
    requires out[..16] == Pack(Fields(b, |b.entries|), 5)
    modifies out
    ensures out[..32] == Pack(Fields(b, |b.entries|), 8)
  {
    ghost var fs := Fields(b, |b.entries|);
    HeaderPrefix(b, |b.entries|);
    HeaderOffsets(b, |b.entries|);
    StoreField(out, fs, 5, 16, 4, FRAME_HEADER_SIZE);
    StoreField(out, fs, 6, 20, 4, payloadSize);
    StoreField(out, fs, 7, 24, 8, requestId);
  }

  method StoreHeader(out: array<Byte>, ghost b: Batch, h: BatchHeader)
    requires out.Length >= 64 && h == b.header && h.reserved == 0 && out[..32] == Pack(Fields(b, |b.entries|), 8)
    modifies out
    ensures out[..64] == Pack(Fields(b, |b.entries|), 14)
  {
    ghost var fs := Fields(b, |b.entries|);
    HeaderPrefix(b, |b.entries|);
    HeaderOffsets(b, |b.entries|);
    StoreField(out, fs, 8, 32, 8, h.transferId);
    StoreField(out, fs, 9, 40, 8, h.sessionGeneration);
    StoreField(out, fs, 10, 48, 2, h.entryCount);
    StoreField(out, fs, 11, 50, 2, h.fdCount);
    StoreField(out, fs, 12, 52, 4, h.flags);
    StoreField(out, fs, 13, 56, 8, 0);
  }

  /** The moving pointer and the fields behind it, at entry `i`. */
  ghost predicate AtEntry(b: Batch, i: nat, at: nat, k: nat) {
    at == 64 + ENTRY_SIZE * i && k == 14 + 7 * i
  }

  lemma EntryLayout(b: Batch, i: nat, at: nat, k: nat)
    requires i < |b.entries| && AtEntry(b, i, at, k)
    ensures var fs, e := Fields(b, |b.entries|), b.entries[i];
      && k + 7 <= |fs| && fs[k] == Field(4, e.kind) && fs[k + 1] == Field(4, e.flags) &&
          fs[k + 2] == Field(8, e.bufferId)
      && fs[k + 3] == Field(8, e.generation) && fs[k + 4] == Field(8, e.allocationId)
      && fs[k + 5] == Field(8, e.invocationId) && fs[k + 6] == Field(8, e.byteLength)
      && Offset(fs, k) == at && Offset(fs, k + 1) == at + 4 && Offset(fs, k + 2) == at + 8
      && Offset(fs, k + 3) == at + 16 && Offset(fs, k + 4) == at + 24 && Offset(fs, k + 5) == at + 32
      && Offset(fs, k + 6) == at + 40
  {
    EntryPrefix(b, |b.entries|, i);
    EntryOffset(b, |b.entries|, i);
    EntryOffsets(b, |b.entries|, i);
    ghost var fs, es := Fields(b, |b.entries|), EntryFields(b.entries[i]);
    assert fs[k + 0] == es[0] && fs[14 + 7 * i + 1] == es[1] && fs[14 + 7 * i + 2] == es[2];
    assert fs[14 + 7 * i + 3] == es[3] && fs[14 + 7 * i + 4] == es[4];
    assert fs[14 + 7 * i + 5] == es[5] && fs[14 + 7 * i + 6] == es[6];
  }

  method StoreEntryEnd(out: array<Byte>, ghost b: Batch, ghost i: nat, ghost k: nat, at: nat, e: FdEntry)
    requires i < |b.entries| && e == b.entries[i] && at + ENTRY_SIZE <= out.Length && AtEntry(b, i, at, k)
    requires |Fields(b, |b.entries|)| >= k + 7 && out[..at + 24] == Pack(Fields(b, |b.entries|), k + 4)
    modifies out
    ensures out[..at + ENTRY_SIZE] == Pack(Fields(b, |b.entries|), k + 7)
  {
    hide Fields, Pack, Offset, EntryFields;
    ghost var fs := Fields(b, |b.entries|);
    EntryLayout(b, i, at, k);
    StoreField(out, fs, k + 4, at + 24, 8, e.allocationId);
    StoreField(out, fs, k + 5, at + 32, 8, e.invocationId);
    StoreField(out, fs, k + 6, at + 40, 8, e.byteLength);
  }

  method StoreEntry(out: array<Byte>, ghost b: Batch, ghost i: nat, ghost k: nat, at: nat, e: FdEntry)
    requires i < |b.entries| && e == b.entries[i] && at + ENTRY_SIZE <= out.Length && AtEntry(b, i, at, k)
    requires |Fields(b, |b.entries|)| >= k && out[..at] == Pack(Fields(b, |b.entries|), k)
    modifies out
    ensures |Fields(b, |b.entries|)| >= k + 7 && out[..at + ENTRY_SIZE] == Pack(Fields(b, |b.entries|), k + 7)
  {
    ghost var fs := Fields(b, |b.entries|);
    EntryLayout(b, i, at, k);
    StoreField(out, fs, k, at, 4, e.kind);
    StoreField(out, fs, k + 1, at + 4, 4, e.flags);
    StoreField(out, fs, k + 2, at + 8, 8, e.bufferId);
    StoreField(out, fs, k + 3, at + 16, 8, e.generation);
    StoreEntryEnd(out, b, i, k, at, e);
  }

  /** The check the encoder and the decoder share: valid kinds and flags, and as many maps as announced. */
  method CheckEntries(entries: seq<FdEntry>, fdCount: U16) returns (ok: bool)
    ensures ok <==> (forall i | 0 <= i < |entries| :: ValidEntry(entries[i])) && Maps(entries, |entries|) == fdCount
  {
    var maps := 0;
    for i := 0 to |entries|
      invariant forall k | 0 <= k < i :: ValidEntry(entries[k])
      invariant maps == Maps(entries, i)
    {
      var e := entries[i];
      if e.kind == ENTRY_MAP {
        maps := maps + 1;
      } else if e.kind != ENTRY_RETIRE {
        return false;
      }
      if e.flags > FLAG_WRITABLE + FLAG_ARENA || (e.kind == ENTRY_RETIRE && e.flags != 0) {
        return false;
      }
    }
    ok := maps == fdCount;
  }

  method StoreBatch(out: array<Byte>, requestId: U64, header: BatchHeader, entries: seq<FdEntry>)
    requires out.Length >= 64 + ENTRY_SIZE * |entries| && header.reserved == 0
    modifies out
    ensures out[..64 + ENTRY_SIZE * |entries|] == Encoded(Batch(requestId, header, entries))
  {
    hide Fields, Pack, HeaderFields, EntryFields, Offset;
    ghost var b := Batch(requestId, header, entries);
    StoreFrame(out, b, requestId, PayloadSize(|entries|));
    StoreHeader(out, b, header);
    var at: nat := 64;
    ghost var k: nat := 14;
    for i := 0 to |entries|
      invariant AtEntry(b, i, at, k)
      invariant k <= |Fields(b, |b.entries|)| && out[..at] == Pack(Fields(b, |b.entries|), k)
    {
      StoreEntry(out, b, i, k, at, entries[i]);
      at, k := at + ENTRY_SIZE, k + 7;
    }
  }

  method EncodeBatch(requestId: U64, header: BatchHeader, entries: seq<FdEntry>, out: array<Byte>)
    returns (status: Status, size: nat)
    requires |entries| == header.entryCount
    modifies out
    ensures status == INVALID <==> !Valid(Batch(requestId, header, entries))
    ensures status == NO_SPACE <==>
            Valid(Batch(requestId, header, entries)) && out.Length < 64 + ENTRY_SIZE * |entries|
    ensures status == OK ==> size <= out.Length && out[..size] == Encoded(Batch(requestId, header, entries))
  {
    ghost var b := Batch(requestId, header, entries);
    size := 0;
    if header.entryCount == 0 || header.entryCount > MAX_FD_ENTRIES || header.reserved != 0 ||
       header.flags != BATCH_FLAG_TRANSACTIONAL {
      return INVALID, 0;
    }
    var ok := CheckEntries(entries, header.fdCount);
    if !ok {
      return INVALID, 0;
    }
    var payload := PayloadSize(header.entryCount);
    if payload > MAX_PACKET_BYTES - FRAME_HEADER_SIZE || out.Length < FRAME_HEADER_SIZE + payload {
      return NO_SPACE, 0;
    }
    StoreBatch(out, requestId, header, entries);
    status, size := OK, FRAME_HEADER_SIZE + payload;
  }

  method DecodeBatch(p: seq<Byte>, capacity: nat) returns (result: Decoded)
    ensures result == Decode(p, capacity)
  {
    if |p| < FRAME_HEADER_SIZE || |p| > MAX_PACKET_BYTES || !FrameAt(p) || |p| - FRAME_HEADER_SIZE < BATCH_HEADER_SIZE {
      return Rejected;
    }
    var h := HeaderAt(p);
    if h.entryCount == 0 || h.entryCount > MAX_FD_ENTRIES || h.entryCount > capacity || h.reserved != 0 ||
       h.flags != BATCH_FLAG_TRANSACTIONAL || |p| - FRAME_HEADER_SIZE != PayloadSize(h.entryCount) {
      return Rejected;
    }
    var entries := [];
    for i := 0 to h.entryCount
      invariant entries == EntriesAt(p, i)
    {
      entries := entries + [EntryAt(p, i)];
    }
    var ok := CheckEntries(entries, h.fdCount);
    result := if ok then Accepted(Batch(RequestAt(p), h, entries)) else Rejected;
  }
}
