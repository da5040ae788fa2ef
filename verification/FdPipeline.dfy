/**
 From a list of mappings and retirements to what the worker applies: split into packets of at most
 240 entries, encoded, decoded, each MAP entry paired with the next descriptor.
 */
module FdPipeline {
  import opened Wire
  import opened Wrappers
  import opened FdBatch
  import MappingTables

  type Spec = MappingTables.Spec
  type Entry = MappingTables.Entry

  /** One recorded mapping to map or to retire. */
  datatype Item = Item(spec: Spec, maps: bool)

  datatype Packet = Packet(bytes: seq<Byte>, fds: seq<int>)

  datatype Delivery = Delivery(entry: Entry, fd: Option<int>)

  // ----- One entry --------------------------------------------------------------------

  /** The ranges of the host's own fields. */
  predicate InRange(s: Spec) {
    && s.bufferId < 0x1_0000_0000_0000_0000 && s.generation < 0x1_0000_0000
    && s.allocationId < 0x1_0000_0000_0000_0000 && s.byteLength < 0x1_0000_0000_0000_0000
    && s.invocationId < 0x1_0000_0000_0000_0000
  }

  predicate AllInRange(items: seq<Item>) {
    forall i | 0 <= i < |items| :: InRange(items[i].spec)
  }

  function WireOf(item: Item): FdEntry
    requires InRange(item.spec)
  {
    var s := item.spec;
    FdEntry(
      if item.maps then ENTRY_MAP else ENTRY_RETIRE,
      if item.maps then (if s.writable then FLAG_WRITABLE else 0) + (if s.arena then FLAG_ARENA else 0) else 0,
      s.bufferId, s.generation, s.allocationId, if item.maps then s.invocationId else 0, s.byteLength)
  }

  /** What the worker makes of an entry; generations are cut to 32 bits, flags read bit by bit. */
  function Heard(e: FdEntry): Entry {
    if e.kind == ENTRY_MAP then
      MappingTables.Map(MappingTables.Spec(e.bufferId, e.generation % 0x1_0000_0000, e.allocationId, e.byteLength,
        e.flags % 2 == 1, e.flags / 2 % 2 == 1, e.invocationId))
    else
      MappingTables.Retire(e.bufferId, e.generation % 0x1_0000_0000, e.allocationId)
  }

  function Meant(item: Item): Entry {
    if item.maps then MappingTables.Map(item.spec) else MappingTables.RetireOf(item.spec)
  }

  lemma {:induction false} HeardAsMeant(item: Item)
    requires InRange(item.spec)
    ensures Heard(WireOf(item)) == Meant(item) && ValidEntry(WireOf(item))
  {
  }

  /** The bits of an entry as the protocol fixes them; a retirement sets none and names nobody. */
  lemma OnTheWire(item: Item)
    requires InRange(item.spec)
    ensures var e, s := WireOf(item), item.spec;
      && (e.kind == 1 <==> item.maps) && (e.kind == 2 <==> !item.maps)
      && (e.flags % 2 == 1 <==> item.maps && s.writable) && (e.flags / 2 % 2 == 1 <==> item.maps && s.arena)
      && e.bufferId == s.bufferId && e.generation == s.generation && e.allocationId == s.allocationId
      && e.byteLength == s.byteLength && e.invocationId == if item.maps then s.invocationId else 0
  {
  }

  /** An entry is valid exactly if the host could send it, but for a longer generation, and for an
      invocation named in a retirement, which the decoder lets pass. */
  lemma ValidIsSendable(e: FdEntry)
    ensures (exists item: Item :: InRange(item.spec) && WireOf(item) == e) <==>
            ValidEntry(e) && e.generation < 0x1_0000_0000 && (e.kind == ENTRY_RETIRE ==> e.invocationId == 0)
  {
    var maps := e.kind == ENTRY_MAP;
    if ValidEntry(e) && e.generation < 0x1_0000_0000 && (e.kind == ENTRY_RETIRE ==> e.invocationId == 0) {
      var s := MappingTables.Spec(e.bufferId, e.generation, e.allocationId, e.byteLength, e.flags % 2 == 1,
        e.flags / 2 % 2 == 1, e.invocationId);
      assert WireOf(Item(s, maps)) == e;
    }
  }

  // ----- A list of entries and its descriptors ----------------------------------------

  function MapsBefore(items: seq<Item>, n: nat): nat
    requires n <= |items|
  {
    Count((item: Item) => item.maps, items, n)
  }

  /** As many descriptors as MAP entries. */
  predicate Furnished(items: seq<Item>, fds: seq<int>) {
    MapsBefore(items, |items|) == |fds|
  }

  /** The original entries in order, the k-th MAP with the k-th descriptor. */
  function Deliveries(items: seq<Item>, fds: seq<int>): (r: seq<Delivery>)
    ensures |r| == |items|
  {
    seq(|items|, i requires 0 <= i < |items| =>
      Delivery(Meant(items[i]), if items[i].maps then Nth(fds, MapsBefore(items, i)) else None))
  }

  function Nth(fds: seq<int>, k: nat): Option<int> {
    if k < |fds| then Some(fds[k]) else None
  }

  /** Every MAP entry has the descriptor of its place among the MAP entries, and no other entry has one. */
  lemma {:induction false} DescriptorsMatch(items: seq<Item>, fds: seq<int>, i: nat)
    requires Furnished(items, fds) && i < |items|
    ensures items[i].maps ==>
              MapsBefore(items, i) < |fds| && Deliveries(items, fds)[i].fd == Some(fds[MapsBefore(items, i)])
    ensures !items[i].maps ==> Deliveries(items, fds)[i].fd == None
  {
    MapsMonotone(items, i + 1, |items|);
  }

  lemma {:induction false} MapAt(items: seq<Item>, n: nat, k: nat) returns (i: nat)
    requires n <= |items| && k < MapsBefore(items, n)
    ensures i < n && items[i].maps && MapsBefore(items, i) == k
  {
    if k == MapsBefore(items, n - 1) {
      i := n - 1;
    } else {
      i := MapAt(items, n - 1, k);
    }
  }

  /** Every descriptor goes to one MAP entry and to no second one. */
  lemma {:induction false} DescriptorsUsedOnce(items: seq<Item>, fds: seq<int>, k: nat) returns (i: nat)
    requires Furnished(items, fds) && k < |fds|
    ensures i < |items| && items[i].maps && MapsBefore(items, i) == k
    ensures Deliveries(items, fds)[i].fd == Some(fds[k])
    ensures forall j | 0 <= j < |items| && items[j].maps && MapsBefore(items, j) == k :: j == i
  {
    i := MapAt(items, |items|, k);
    forall j | 0 <= j < |items| && items[j].maps && MapsBefore(items, j) == k
      ensures j == i
    {
      if j < i {
        MapsMonotone(items, j + 1, i);
      } else if i < j {
        MapsMonotone(items, i + 1, j);
      }
    }
  }

  lemma MapsMonotone(items: seq<Item>, i: nat, n: nat)
    requires i <= n <= |items|
    ensures MapsBefore(items, i) <= MapsBefore(items, n) <= MapsBefore(items, i) + (n - i)
  {
    CountGrows((item: Item) => item.maps, items, i, n);
  }

  lemma {:induction false} MapsSplit(items: seq<Item>, first: nat, end: nat, n: nat)
    requires first <= end <= |items| && n <= end - first
    ensures MapsBefore(items[first..end], n) == MapsBefore(items, first + n) - MapsBefore(items, first)
  {
    if n > 0 {
      MapsSplit(items, first, end, n - 1);
    }
  }

  // ----- The worker's side ------------------------------------------------------------

  /** What one decoded batch delivers: its descriptors go to its MAP entries in turn. */
  function Received(entries: seq<FdEntry>, fds: seq<int>, n: nat): (r: seq<Delivery>)
    requires n <= |entries|
    ensures |r| == n
  {
    if n == 0 then []
    else
      var e := entries[n - 1];
      Received(entries, fds, n - 1) +
      [Delivery(Heard(e), if e.kind == ENTRY_MAP then Nth(fds, Maps(entries, n - 1)) else None)]
  }

  /** A packet is taken when it decodes, names this session and carries as many descriptors as it says. */
  predicate Taken(p: Packet, generation: nat) {
    var d := Decode(p.bytes, MAX_FD_ENTRIES);
    d.Accepted? && d.batch.header.sessionGeneration == generation && |p.fds| == d.batch.header.fdCount
  }

  /** The ids its acknowledgement must name. */
  predicate Named(p: Packet, requestId: nat, transferId: nat) {
    var d := Decode(p.bytes, MAX_FD_ENTRIES);
    d.Accepted? && d.batch.requestId == requestId && d.batch.header.transferId == transferId
  }

  function ReceivedFrom(p: Packet, generation: nat): seq<Delivery>
    requires Taken(p, generation)
  {
    var b := Decode(p.bytes, MAX_FD_ENTRIES).batch;
    Received(b.entries, p.fds, |b.entries|)
  }

  function Flatten(pieces: seq<seq<Delivery>>, n: nat): seq<Delivery>
    requires n <= |pieces|
  {
    if n == 0 then [] else Flatten(pieces, n - 1) + pieces[n - 1]
  }

  /** Packet by packet, the worker takes them all and receives these deliveries. */
  ghost predicate AllReceived(packets: seq<Packet>, generation: nat, pieces: seq<seq<Delivery>>) {
    && |pieces| == |packets|
    && forall k | 0 <= k < |packets| :: Taken(packets[k], generation) &&
        ReceivedFrom(packets[k], generation) == pieces[k]
  }

  // ----- One packet -------------------------------------------------------------------

  function Wires(items: seq<Item>): seq<FdEntry>
    requires AllInRange(items)
  {
    seq(|items|, i requires 0 <= i < |items| => WireOf(items[i]))
  }

  function BatchOf(items: seq<Item>, requestId: U64, transferId: U64, generation: U64): Batch
    requires AllInRange(items) && |items| <= MAX_FD_ENTRIES
  {
    MapsMonotone(items, 0, |items|);
    Batch(requestId,
      BatchHeader(transferId, generation, |items|, MapsBefore(items, |items|), BATCH_FLAG_TRANSACTIONAL, 0),
      Wires(items))
  }

  lemma {:induction false} WiresCount(items: seq<Item>, n: nat)
    requires AllInRange(items) && n <= |items|
    ensures Maps(Wires(items), n) == MapsBefore(items, n)
  {
    if n > 0 {
      WiresCount(items, n - 1);
    }
  }

  /** Every list of 1 to 240 entries makes a batch the encoder accepts. */
  lemma {:induction false} AlwaysEncodes(items: seq<Item>, requestId: U64, transferId: U64, generation: U64)
    requires AllInRange(items) && 1 <= |items| <= MAX_FD_ENTRIES
    ensures Valid(BatchOf(items, requestId, transferId, generation))
  {
    WiresCount(items, |items|);
    forall i | 0 <= i < |items|
      ensures ValidEntry(Wires(items)[i])
    {
      HeardAsMeant(items[i]);
    }
  }

  lemma {:induction false} ReceivesItems(items: seq<Item>, fds: seq<int>, n: nat)
    requires AllInRange(items) && Furnished(items, fds) && n <= |items|
    ensures Maps(Wires(items), |items|) == |fds|
    ensures Received(Wires(items), fds, n) == Deliveries(items, fds)[..n]
  {
    WiresCount(items, |items|);
    if n > 0 {
      ReceivesItems(items, fds, n - 1);
      WiresCount(items, n - 1);
      HeardAsMeant(items[n - 1]);
      assert Deliveries(items, fds)[..n] == Deliveries(items, fds)[..n - 1] + [Deliveries(items, fds)[n - 1]];
    }
  }

  /** Encoded, sent and decoded, a packet delivers exactly the entries it was made from. */
  lemma {:induction false} PacketDelivers(items: seq<Item>, fds: seq<int>, requestId: U64, transferId: U64,
      generation: U64)
    requires AllInRange(items) && 1 <= |items| <= MAX_FD_ENTRIES && Furnished(items, fds)
    ensures var p := Packet(Encoded(BatchOf(items, requestId, transferId, generation)), fds);
      && Taken(p, generation) && ReceivedFrom(p, generation) == Deliveries(items, fds)
      && Named(p, requestId, transferId)
  {
    var b := BatchOf(items, requestId, transferId, generation);
    AlwaysEncodes(items, requestId, transferId, generation);
    DecodesExactly(Encoded(b), MAX_FD_ENTRIES, b);
    ReceivesItems(items, fds, |items|);
    assert Deliveries(items, fds)[..|items|] == Deliveries(items, fds);
  }

  lemma {:induction false} PiecesDeliver(items: seq<Item>, fds: seq<int>, first: nat, end: nat)
    requires first <= end <= |items| && Furnished(items, fds)
    ensures MapsBefore(items, first) <= MapsBefore(items, end) <= |fds|
    ensures MapsBefore(items[first..end], end - first) == MapsBefore(items, end) - MapsBefore(items, first)
    ensures Deliveries(items[first..end], fds[MapsBefore(items, first)..MapsBefore(items, end)]) ==
            Deliveries(items, fds)[first..end]
  {
    MapsMonotone(items, first, end);
    MapsMonotone(items, end, |items|);
    MapsSplit(items, first, end, end - first);
    var piece, lo, hi := items[first..end], MapsBefore(items, first), MapsBefore(items, end);
    forall i | 0 <= i < end - first
      ensures Deliveries(piece, fds[lo..hi])[i] == Deliveries(items, fds)[first + i]
    {
      MapsSplit(items, first, end, i);
      if piece[i].maps {
        MapsMonotone(piece, i + 1, end - first);
        assert MapsBefore(piece, i) < hi - lo;
      }
    }
  }

  // ----- The host's side --------------------------------------------------------------

  /** Sends one packet; ids wrap as 64-bit counters do. */
  method Transfer(items: seq<Item>, fds: seq<int>, requestId: U64, transferId: U64, generation: U64)
    returns (packet: Packet)
    requires AllInRange(items) && 1 <= |items| <= MAX_FD_ENTRIES && Furnished(items, fds)
    ensures Taken(packet, generation) && ReceivedFrom(packet, generation) == Deliveries(items, fds)
    ensures packet.fds == fds && Named(packet, requestId, transferId)
  {
    var entries: seq<FdEntry> := [];
    var fdCount: nat := 0;
    for i := 0 to |items|
      invariant entries == Wires(items)[..i]
      invariant fdCount == MapsBefore(items, i)
    {
      entries := entries + [WireOf(items[i])];
      if items[i].maps {
        fdCount := fdCount + 1;
      }
    }
    assert entries == Wires(items);
    MapsMonotone(items, 0, |items|);
    var header := BatchHeader(transferId, generation, |items|, fdCount, BATCH_FLAG_TRANSACTIONAL, 0);
    AlwaysEncodes(items, requestId, transferId, generation);
    PacketDelivers(items, fds, requestId, transferId, generation);
    var out := new Byte[MAX_PACKET_BYTES];
    var status, size := EncodeBatch(requestId, header, entries, out);
    assert status == OK;
    packet := Packet(out[..size], fds);
  }

  lemma {:induction false} OneMorePiece(pieces: seq<seq<Delivery>>, piece: seq<Delivery>, n: nat)
    requires n <= |pieces|
    ensures Flatten(pieces + [piece], n) == Flatten(pieces, n)
  {
    if n > 0 {
      OneMorePiece(pieces, piece, n - 1);
    }
  }

  lemma {:induction false} ReceivesOneMore(packets: seq<Packet>, generation: nat, pieces: seq<seq<Delivery>>,
      packet: Packet)
    requires AllReceived(packets, generation, pieces) && Taken(packet, generation)
    ensures AllReceived(packets + [packet], generation, pieces + [ReceivedFrom(packet, generation)])
  {
  }

  lemma {:induction false} Stitch(all: seq<Delivery>, a: nat, b: nat)
    requires a <= b <= |all|
    ensures all[..a] + all[a..b] == all[..b]
  {
  }

  method TransferPiece(items: seq<Item>, fds: seq<int>, first: nat, end: nat, fdIndex: nat, requestId: U64,
                       transferId: U64, generation: U64)
    returns (packet: Packet, count: nat)
    requires AllInRange(items) && Furnished(items, fds)
    requires first < end <= |items| && end - first <= MAX_FD_ENTRIES && fdIndex == MapsBefore(items, first)
    ensures Taken(packet, generation) && ReceivedFrom(packet, generation) == Deliveries(items, fds)[first..end]
    ensures fdIndex + count == MapsBefore(items, end) && Named(packet, requestId, transferId)
  {
    PiecesDeliver(items, fds, first, end);
    count := MapsBefore(items[first..end], end - first);
    packet := Transfer(items[first..end], fds[fdIndex..fdIndex + count], requestId, transferId, generation);
  }

  lemma FlattenOneMore(pieces: seq<seq<Delivery>>, piece: seq<Delivery>)
    ensures Flatten(pieces + [piece], |pieces| + 1) == Flatten(pieces, |pieces|) + piece
  {
    OneMorePiece(pieces, piece, |pieces|);
  }

  /** Full packets and at most one more at the end. */
  predicate Counted(sent: nat, packets: nat, all: nat) {
    && sent <= all
    && (sent == MAX_FD_ENTRIES * packets ||
        (sent == all && MAX_FD_ENTRIES * packets - MAX_FD_ENTRIES < sent < MAX_FD_ENTRIES * packets))
  }

  lemma CountAtEnd(packets: nat, all: nat)
    requires Counted(all, packets, all)
    ensures packets == (all + MAX_FD_ENTRIES - 1) / MAX_FD_ENTRIES
  {
  }

  lemma OneMoreCounted(sent: nat, packets: nat, all: nat)
    requires Counted(sent, packets, all) && sent < all
    ensures Counted(if all < sent + MAX_FD_ENTRIES then all else sent + MAX_FD_ENTRIES, packets + 1, all)
  {
  }

  lemma NothingSent(items: seq<Item>, generation: nat)
    ensures MapsBefore(items, 0) == 0 && AllReceived([], generation, []) && Flatten([], 0) == []
    ensures Counted(0, 0, |items|)
  {
  }

  /** The k-th id from `first` on. */
  function IdOf(first: nat, k: nat): (id: nat)
    ensures id < TWO_64
  {
    (first + k) % TWO_64
  }

  /** The packets bear consecutive ids. */
  ghost predicate AllNamed(packets: seq<Packet>, firstRequest: nat, firstTransfer: nat) {
    forall k | 0 <= k < |packets| :: Named(packets[k], IdOf(firstRequest, k), IdOf(firstTransfer, k))
  }

  lemma NextId(first: nat, k: nat)
    ensures (IdOf(first, k) + 1) % TWO_64 == IdOf(first, k + 1)
  {
  }

  lemma NamedOneMore(packets: seq<Packet>, packet: Packet, firstRequest: nat, firstTransfer: nat)
    requires AllNamed(packets, firstRequest, firstTransfer)
    requires Named(packet, IdOf(firstRequest, |packets|), IdOf(firstTransfer, |packets|))
    ensures AllNamed(packets + [packet], firstRequest, firstTransfer)
    ensures (IdOf(firstRequest, |packets|) + 1) % TWO_64 == IdOf(firstRequest, |packets| + 1)
    ensures (IdOf(firstTransfer, |packets|) + 1) % TWO_64 == IdOf(firstTransfer, |packets| + 1)
  {
    hide Named;
    NextId(firstRequest, |packets|);
    NextId(firstTransfer, |packets|);
  }

  lemma NoneNamed(firstRequest: U64, firstTransfer: U64)
    ensures AllNamed([], firstRequest, firstTransfer) && IdOf(firstRequest, 0) == firstRequest
    ensures IdOf(firstTransfer, 0) == firstTransfer
  {
  }

  /** Splits a list into packets; together they deliver exactly the list. */
  method TransferBatched(items: seq<Item>, fds: seq<int>, nextRequest: U64, nextTransfer: U64, generation: U64)
    returns (packets: seq<Packet>, ghost pieces: seq<seq<Delivery>>)
    requires AllInRange(items) && Furnished(items, fds)
    ensures AllReceived(packets, generation, pieces)
    ensures Flatten(pieces, |pieces|) == Deliveries(items, fds)
    ensures |packets| == (|items| + MAX_FD_ENTRIES - 1) / MAX_FD_ENTRIES
    ensures AllNamed(packets, nextRequest, nextTransfer)
  {
    hide AllNamed, Named, IdOf, AllReceived, Flatten, Deliveries, MapsBefore, InRange, Furnished, Counted, Taken,
      ReceivedFrom, AllInRange;
    packets, pieces := [], [];
    NothingSent(items, generation);
    NoneNamed(nextRequest, nextTransfer);
    var offset: nat := 0;
    var fdIndex: nat := 0;
    var request: U64, transfer: U64 := nextRequest, nextTransfer;
    while offset < |items|
      invariant offset <= |items| && Counted(offset, |packets|, |items|)
      invariant fdIndex == MapsBefore(items, offset)
      invariant request == IdOf(nextRequest, |packets|) && transfer == IdOf(nextTransfer, |packets|)
      invariant AllNamed(packets, nextRequest, nextTransfer)
      invariant AllReceived(packets, generation, pieces)
      invariant Flatten(pieces, |pieces|) == Deliveries(items, fds)[..offset]
    {
      var end := if |items| < offset + MAX_FD_ENTRIES then |items| else offset + MAX_FD_ENTRIES;
      var packet, count := TransferPiece(items, fds, offset, end, fdIndex, request, transfer, generation);
      ghost var piece := Deliveries(items, fds)[offset..end];
      FlattenOneMore(pieces, piece);
      OneMoreCounted(offset, |packets|, |items|);
      ReceivesOneMore(packets, generation, pieces, packet);
      NamedOneMore(packets, packet, nextRequest, nextTransfer);
      Stitch(Deliveries(items, fds), offset, end);
      packets, pieces := packets + [packet], pieces + [piece];
      request, transfer := (request + 1) % TWO_64, (transfer + 1) % TWO_64;
      offset, fdIndex := end, fdIndex + count;
    }
    CountAtEnd(|packets|, |items|);
    assert Deliveries(items, fds)[..|items|] == Deliveries(items, fds);
  }

  // ----- What arrives in the worker's table -------------------------------------------

  function EntriesOf(deliveries: seq<Delivery>): seq<Entry> {
    seq(|deliveries|, i requires 0 <= i < |deliveries| => deliveries[i].entry)
  }

  function MeantAll(items: seq<Item>): seq<Entry> {
    seq(|items|, i requires 0 <= i < |items| => Meant(items[i]))
  }

  /** The worker applies packet after packet; a refusal in one refuses the rest. */
  function AppliedInTurn(w: MappingTables.WorkerTable, pieces: seq<seq<Delivery>>, n: nat): MappingTables.Applied
    requires n <= |pieces|
  {
    if n == 0 then MappingTables.Applied(w)
    else match AppliedInTurn(w, pieces, n - 1)
      case Refused => MappingTables.Refused
      case Applied(t) => MappingTables.Apply(t, EntriesOf(pieces[n - 1]), |pieces[n - 1]|)
  }

  lemma {:induction false} TurnsAddUp(w: MappingTables.WorkerTable, pieces: seq<seq<Delivery>>, n: nat)
    requires n <= |pieces|
    ensures AppliedInTurn(w, pieces, n) ==
            MappingTables.Apply(w, EntriesOf(Flatten(pieces, n)), |Flatten(pieces, n)|)
  {
    if n > 0 {
      TurnsAddUp(w, pieces, n - 1);
      MappingTables.ApplyPieces(w, EntriesOf(Flatten(pieces, n - 1)), EntriesOf(pieces[n - 1]));
      assert EntriesOf(Flatten(pieces, n)) == EntriesOf(Flatten(pieces, n - 1)) + EntriesOf(pieces[n - 1]);
    }
  }

  /** Splitting, encoding and decoding leave no trace: the worker ends where the original list would leave it. */
  lemma {:induction false} SplittingIsInvisible(w: MappingTables.WorkerTable, items: seq<Item>, fds: seq<int>,
                                                pieces: seq<seq<Delivery>>)
    requires Flatten(pieces, |pieces|) == Deliveries(items, fds)
    ensures AppliedInTurn(w, pieces, |pieces|) == MappingTables.Apply(w, MeantAll(items), |items|)
  {
    TurnsAddUp(w, pieces, |pieces|);
    assert EntriesOf(Deliveries(items, fds)) == MeantAll(items);
  }
}
