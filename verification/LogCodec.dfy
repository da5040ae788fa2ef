/** Log records as bytes: the worker's encoder, which shortens to a limit, and the strict decoder. */
module LogCodec {
  import opened Wire
  import opened Utf8
  import opened Wrappers

  const MAGIC := 0x3147_4F4C_5346_4D57
  const ABI_MAJOR := 1
  const ABI_MINOR := 0
  const HEADER_SIZE := 100
  const FIELD_SIZE := 24
  const MAX_RECORD_BYTES := 65536
  const MAX_FIELDS := 32
  const MAX_MESSAGE_BYTES := 32768
  const MAX_CATEGORY_BYTES := 1024
  const MAX_NAME_BYTES := 255
  const FLAG_TRUNCATED := 1
  const FLAG_SYNTHETIC := 2

  type Text = seq<Scalar>

  /** Floats are their 64-bit patterns. */
  datatype LogValue = Boolean(flag: bool) | Integer(number: int) | Float(bits: nat) | String(text: Text)

  datatype LogField = LogField(name: Text, value: LogValue)

  datatype Stamp = Stamp(sequence: nat, timeNs: nat, session: nat, submission: nat, invocation: nat, operation: nat,
    droppedBefore: nat)

  datatype Record = Record(level: nat, message: Text, category: Text, fields: seq<LogField>, flags: nat, stamp: Stamp)

  datatype Encoding = Encoded(packet: seq<Byte>) | Unencodable

  datatype Decoding = Read(record: Record) | Malformed

  predicate KnownLevel(level: nat) {
    level == 10 || level == 20 || level == 30 || level == 40 || level == 50
  }

  /** The exponent is not all ones. */
  predicate Finite(bits: nat) {
    bits / 0x10_0000_0000_0000 % 2048 != 2047
  }

  predicate ValidValue(v: LogValue) {
    match v
    case Integer(n) => -TWO_63 <= n < TWO_64
    case Float(bits) => bits < TWO_64 && Finite(bits)
    case _ => true
  }

  predicate Stampable(s: Stamp) {
    && s.sequence < TWO_64 && s.timeNs < TWO_64 && s.session < TWO_64 && s.submission < TWO_64
    && s.invocation < TWO_64 && s.operation < TWO_64 && s.droppedBefore < TWO_64
  }

  // ----- What fits --------------------------------------------------------------------

  function TextOf(v: LogValue): Text {
    if v.String? then v.text else []
  }

  function PartSize(f: LogField): nat {
    FIELD_SIZE + Size(f.name) + Size(TextOf(f.value))
  }

  function Least(a: int, b: int): int {
    if a <= b then a else b
  }

  function NonNegative(a: int): nat {
    if a < 0 then 0 else a
  }

  /** A field with its name and, for text, its value cut to what room there is. */
  function Trimmed(f: LogField, used: nat, limit: nat): LogField {
    var name := Prefix(f.name, MAX_NAME_BYTES);
    LogField(name,
      if f.value.String?
      then String(Prefix(f.value.text, NonNegative(limit - used - FIELD_SIZE - Size(name))))
      else f.value)
  }

  datatype Kept = Kept(fields: seq<LogField>, lost: bool) | Invalid

  /** The fields that go into a record of `limit` bytes of which `used` are taken. */
  function Keep(fs: seq<LogField>, used: nat, limit: nat): Kept
    decreases |fs|
  {
    if fs == [] then Kept([], false)
    else if !ValidValue(fs[0].value) then Invalid
    else
      var f := Trimmed(fs[0], used, limit);
      if used + PartSize(f) > limit then Kept([], true)
      else Extended(f, f != fs[0], Keep(fs[1..], used + PartSize(f), limit))
  }

  function Extended(f: LogField, cut: bool, k: Kept): Kept {
    match k case Invalid => Invalid case Kept(rest, lost) => Kept([f] + rest, lost || cut)
  }

  function ShortCategory(r: Record, limit: nat): Text {
    Prefix(r.category, NonNegative(Least(MAX_CATEGORY_BYTES, limit - HEADER_SIZE)))
  }

  function ShortMessage(r: Record, limit: nat): Text {
    Prefix(r.message, NonNegative(Least(MAX_MESSAGE_BYTES, limit - HEADER_SIZE - Size(ShortCategory(r, limit)))))
  }

  function FirstFields(r: Record): seq<LogField> {
    if |r.fields| > MAX_FIELDS then r.fields[..MAX_FIELDS] else r.fields
  }

  function TextEnd(r: Record, limit: nat): nat {
    HEADER_SIZE + Size(ShortCategory(r, limit)) + Size(ShortMessage(r, limit))
  }

  function KeptFields(r: Record, limit: nat): Kept {
    Keep(FirstFields(r), TextEnd(r, limit), limit)
  }

  predicate Truncates(r: Record, limit: nat) {
    || |r.fields| > MAX_FIELDS || ShortCategory(r, limit) != r.category || ShortMessage(r, limit) != r.message
    || (KeptFields(r, limit).Kept? && KeptFields(r, limit).lost)
  }

  function WithTruncated(flags: nat, truncated: bool): nat {
    if truncated && flags % 2 == 0 then flags + FLAG_TRUNCATED else flags
  }

  predicate Encodable(r: Record, limit: nat) {
    && KnownLevel(r.level) && HEADER_SIZE <= limit <= MAX_RECORD_BYTES
    && KeptFields(r, limit).Kept? && WithTruncated(r.flags, Truncates(r, limit)) <= FLAG_TRUNCATED + FLAG_SYNTHETIC
  }

  /** The record that is sent. */
  function Shortened(r: Record, limit: nat): Record
    requires Encodable(r, limit)
  {
    Record(r.level, ShortMessage(r, limit), ShortCategory(r, limit), KeptFields(r, limit).fields,
      WithTruncated(r.flags, Truncates(r, limit)), r.stamp)
  }

  // ----- What is kept -----------------------------------------------------------------

  /** The name as it is sent. */
  function ShortName(f: LogField): Text {
    Prefix(f.name, MAX_NAME_BYTES)
  }

  /** A cut text leaves at most three bytes of its room. */
  lemma CutFills(t: Text, room: nat)
    requires Prefix(t, room) != t
    ensures Size(Prefix(t, room)) + 3 >= room
  {
    PrefixIsLongest(t, room);
    var n := Fit(t, room);
    StartsOrContinues(t, n);
  }

  /**
   Fields are a prefix with their names cut to the limit and at most the last text shortened; `lost`
   says exactly whether anything is missing.
   */
  lemma {:induction false} KeepsPrefix(fs: seq<LogField>, used: nat, limit: nat)
    requires Keep(fs, used, limit).Kept?
    ensures ShapedLike(Keep(fs, used, limit), fs)
    decreases |fs|
  {
    if fs != [] {
      var f := Trimmed(fs[0], used, limit);
      if used + PartSize(f) <= limit {
        var k := Keep(fs[1..], used + PartSize(f), limit);
        KeepsPrefix(fs[1..], used + PartSize(f), limit);
        if f.value != fs[0].value {
          CutIsLast(fs, used, limit);
        }
        ShapeAhead(fs, f, k);
      }
    }
  }

  ghost predicate ShapedLike(k: Kept, fs: seq<LogField>) {
    && k.Kept? && |k.fields| <= |fs|
    && (forall i | 0 <= i < |k.fields| - 1 :: k.fields[i].value == fs[i].value)
    && (forall i | 0 <= i < |k.fields| ::
          k.fields[i].name == ShortName(fs[i]) && Shorter(k.fields[i].value, fs[i].value))
    && (k.lost <==> k.fields != fs)
  }

  lemma ShapeAhead(fs: seq<LogField>, f: LogField, k: Kept)
    requires fs != [] && ShapedLike(k, fs[1..]) && f.name == ShortName(fs[0]) && Shorter(f.value, fs[0].value)
    requires f.value != fs[0].value ==> k.fields == []
    ensures ShapedLike(Extended(f, f != fs[0], k), fs)
  {
    assert fs == [fs[0]] + fs[1..];
  }

  predicate Shorter(a: LogValue, b: LogValue) {
    a == b || (a.String? && b.String? && |a.text| <= |b.text| && a.text == b.text[..|a.text|])
  }

  lemma CutIsLast(fs: seq<LogField>, used: nat, limit: nat)
    requires fs != [] && Trimmed(fs[0], used, limit).value != fs[0].value
    requires used + PartSize(Trimmed(fs[0], used, limit)) <= limit
    requires Keep(fs[1..], used + PartSize(Trimmed(fs[0], used, limit)), limit).Kept?
    ensures Keep(fs[1..], used + PartSize(Trimmed(fs[0], used, limit)), limit).fields == []
  {
    var f := Trimmed(fs[0], used, limit);
    CutFills(fs[0].value.text, NonNegative(limit - used - FIELD_SIZE - Size(f.name)));
    NothingMore(fs[1..], used + PartSize(f), limit);
  }

  lemma NothingMore(fs: seq<LogField>, used: nat, limit: nat)
    requires used + 3 >= limit && Keep(fs, used, limit).Kept?
    ensures Keep(fs, used, limit).fields == []
  {
  }

  lemma {:induction false} KeepsWithin(fs: seq<LogField>, used: nat, limit: nat)
    requires Keep(fs, used, limit).Kept? && used <= limit
    ensures used + PartSizes(Keep(fs, used, limit).fields) <= limit
    decreases |fs|
  {
    hide Trimmed, PartSize;
    if fs != [] {
      var f := Trimmed(fs[0], used, limit);
      if used + PartSize(f) <= limit {
        KeepsWithin(fs[1..], used + PartSize(f), limit);
        var k := Keep(fs[1..], used + PartSize(f), limit);
        assert ([f] + k.fields)[1..] == k.fields;
      }
    }
  }

  function PartSizes(fs: seq<LogField>): nat {
    if fs == [] then 0 else PartSize(fs[0]) + PartSizes(fs[1..])
  }

  /** Where the i-th of the kept fields begins its text. */
  function TextBegins(kept: seq<LogField>, used: nat, i: nat): nat
    requires i < |kept|
  {
    used + PartSizes(kept[..i]) + FIELD_SIZE + Size(kept[i].name)
  }

  /** Not one field and not one character of a text more would have fitted. */
  ghost predicate Fills(kept: seq<LogField>, fs: seq<LogField>, used: nat, limit: nat) {
    && |kept| <= |fs|
    && (|kept| < |fs| ==> used + PartSizes(kept) + FIELD_SIZE + Size(ShortName(fs[|kept|])) > limit)
    && forall i, m | 0 <= i < |kept| && |TextOf(kept[i].value)| < m <= |TextOf(fs[i].value)| ::
      TextBegins(kept, used, i) + Size(TextOf(fs[i].value)[..m]) > limit
  }

  lemma TrimmedFills(f: LogField, used: nat, limit: nat)
    ensures var t := Trimmed(f, used, limit);
      && (used + PartSize(t) > limit ==> used + FIELD_SIZE + Size(ShortName(f)) > limit)
      && (used + PartSize(t) <= limit ==>
            forall m | |TextOf(t.value)| < m <= |TextOf(f.value)| ::
              used + FIELD_SIZE + Size(t.name) + Size(TextOf(f.value)[..m]) > limit)
  {
    if f.value.String? {
      PrefixIsLongest(f.value.text, NonNegative(limit - used - FIELD_SIZE - Size(ShortName(f))));
    }
  }

  lemma FillsAhead(f: LogField, kept: seq<LogField>, fs: seq<LogField>, used: nat, limit: nat)
    requires fs != [] && Fills(kept, fs[1..], used + PartSize(f), limit)
    requires forall m | |TextOf(f.value)| < m <= |TextOf(fs[0].value)| ::
      used + FIELD_SIZE + Size(f.name) + Size(TextOf(fs[0].value)[..m]) > limit
    ensures Fills([f] + kept, fs, used, limit)
  {
    hide PartSize, ShortName;
    var all := [f] + kept;
    assert all[1..] == kept;
    forall i, m | 0 <= i < |all| && |TextOf(all[i].value)| < m <= |TextOf(fs[i].value)|
      ensures TextBegins(all, used, i) + Size(TextOf(fs[i].value)[..m]) > limit
    {
      if i > 0 {
        assert all[..i][1..] == kept[..i - 1] && all[i] == kept[i - 1] && fs[i] == fs[1..][i - 1];
      }
    }
  }

  /** As many fields are kept as fit, and as much of a text. */
  lemma {:induction false} KeepsWhatFits(fs: seq<LogField>, used: nat, limit: nat)
    requires Keep(fs, used, limit).Kept?
    ensures Fills(Keep(fs, used, limit).fields, fs, used, limit)
    decreases |fs|
  {
    hide Trimmed, PartSize, Fills;
    if fs == [] {
      NothingFills(used, limit);
    } else {
      var f := Trimmed(fs[0], used, limit);
      TrimmedFills(fs[0], used, limit);
      if used + PartSize(f) <= limit {
        KeepsWhatFits(fs[1..], used + PartSize(f), limit);
        FillsAhead(f, Keep(fs[1..], used + PartSize(f), limit).fields, fs, used, limit);
      } else {
        FullAtOnce(fs, used, limit);
      }
    }
  }

  lemma NothingFills(used: nat, limit: nat)
    ensures Fills([], [], used, limit)
  {
  }

  lemma FullAtOnce(fs: seq<LogField>, used: nat, limit: nat)
    requires fs != [] && used + FIELD_SIZE + Size(ShortName(fs[0])) > limit
    ensures Fills([], fs, used, limit)
  {
  }

  /** With no flags set beforehand, the sent record is marked truncated exactly when something was lost. */
  lemma TruncatedExactly(r: Record, limit: nat)
    requires Encodable(r, limit) && r.flags == 0
    ensures var s := Shortened(r, limit);
      var lost := s.category != r.category || s.message != r.message || s.fields != r.fields;
      s.flags == if lost then FLAG_TRUNCATED else 0
  {
    KeepsPrefix(FirstFields(r), TextEnd(r, limit), limit);
  }

  /** Category and message are the longest prefixes that fit. */
  lemma TextsAreLongest(r: Record, limit: nat)
    requires Encodable(r, limit)
    ensures var s := Shortened(r, limit);
      && Size(s.category) <= Least(MAX_CATEGORY_BYTES, limit - HEADER_SIZE)
      && (forall n | |s.category| < n <= |r.category| ::
            Size(r.category[..n]) > Least(MAX_CATEGORY_BYTES, limit - HEADER_SIZE))
      && Size(s.message) <= Least(MAX_MESSAGE_BYTES, limit - HEADER_SIZE - Size(s.category))
      && (forall n | |s.message| < n <= |r.message| ::
            Size(r.message[..n]) > Least(MAX_MESSAGE_BYTES, limit - HEADER_SIZE - Size(s.category)))
  {
    PrefixIsLongest(r.category, NonNegative(Least(MAX_CATEGORY_BYTES, limit - HEADER_SIZE)));
    PrefixIsLongest(r.message,
      NonNegative(Least(MAX_MESSAGE_BYTES, limit - HEADER_SIZE - Size(ShortCategory(r, limit)))));
  }

  // ----- The bytes --------------------------------------------------------------------

  function KindOf(v: LogValue): nat {
    match v
    case Boolean(_) => 1
    case Integer(n) => if n < 0 then 2 else 3
    case Float(_) => 4
    case String(_) => 5
  }

  function BitsFor(v: LogValue): nat
    requires ValidValue(v)
  {
    match v
    case Boolean(b) => if b then 1 else 0
    case Integer(n) => if n < 0 then n + TWO_64 else n
    case Float(bits) => bits
    case String(_) => 0
  }

  function FieldHeader(f: LogField): seq<Wire.Field>
    requires ValidValue(f.value)
  {
    [Wire.Field(2, KindOf(f.value)), Wire.Field(2, 0), Wire.Field(4, Size(f.name)),
     Wire.Field(4, Size(TextOf(f.value))), Wire.Field(8, BitsFor(f.value)), Wire.Field(4, 0)]
  }

  function Part(f: LogField): seq<Byte>
    requires ValidValue(f.value)
  {
    Pack(FieldHeader(f), 6) + Encode(f.name) + Encode(TextOf(f.value))
  }

  predicate AllValid(fs: seq<LogField>) {
    forall i | 0 <= i < |fs| :: ValidValue(fs[i].value)
  }

  function Parts(fs: seq<LogField>): seq<Byte>
    requires AllValid(fs)
  {
    if fs == [] then [] else Part(fs[0]) + Parts(fs[1..])
  }

  function HeaderOf(size: nat, flags: nat, level: nat, count: nat, categorySize: nat, messageSize: nat,
      t: Stamp): seq<Wire.Field> {
    [Wire.Field(8, MAGIC), Wire.Field(2, ABI_MAJOR), Wire.Field(2, ABI_MINOR), Wire.Field(4, HEADER_SIZE),
     Wire.Field(4, size), Wire.Field(4, flags), Wire.Field(4, level), Wire.Field(4, count),
     Wire.Field(4, categorySize), Wire.Field(4, messageSize), Wire.Field(4, 0), Wire.Field(8, t.sequence),
     Wire.Field(8, t.timeNs), Wire.Field(8, t.session), Wire.Field(8, t.submission), Wire.Field(8, t.invocation),
     Wire.Field(8, t.operation), Wire.Field(8, t.droppedBefore)]
  }

  function Header(r: Record, size: nat): seq<Wire.Field> {
    HeaderOf(size, r.flags, r.level, |r.fields|, Size(r.category), Size(r.message), r.stamp)
  }

  function Body(r: Record): seq<Byte>
    requires AllValid(r.fields)
  {
    Encode(r.category) + Encode(r.message) + Parts(r.fields)
  }

  function Packet(r: Record): seq<Byte>
    requires AllValid(r.fields)
  {
    Pack(Header(r, HEADER_SIZE + |Body(r)|), 18) + Body(r)
  }

  lemma {:induction false} PartsSize(fs: seq<LogField>)
    requires AllValid(fs)
    ensures |Parts(fs)| == PartSizes(fs)
  {
    if fs != [] {
      PartSizeIs(fs[0]);
      PartsSize(fs[1..]);
    }
  }

  lemma PartSizeIs(f: LogField)
    requires ValidValue(f.value)
    ensures |Pack(FieldHeader(f), 6)| == FIELD_SIZE && |Part(f)| == PartSize(f)
  {
    FieldOffsets(f);
  }

  lemma FieldOffsets(f: LogField)
    requires ValidValue(f.value)
    ensures var h := FieldHeader(f);
      && Offset(h, 0) == 0 && Offset(h, 1) == 2 && Offset(h, 2) == 4 && Offset(h, 3) == 8 && Offset(h, 4) == 12
      && Offset(h, 5) == 20 && Offset(h, 6) == 24
  {
  }

  lemma FirstOffsets(r: Record, size: nat)
    ensures var h := Header(r, size);
      && Offset(h, 0) == 0 && Offset(h, 1) == 8 && Offset(h, 2) == 10 && Offset(h, 3) == 12 && Offset(h, 4) == 16
      && Offset(h, 5) == 20 && Offset(h, 6) == 24 && Offset(h, 7) == 28 && Offset(h, 8) == 32 && Offset(h, 9) == 36
  {
  }

  lemma HeaderOffsets(r: Record, size: nat)
    ensures var h := Header(r, size);
      && Offset(h, 0) == 0 && Offset(h, 1) == 8 && Offset(h, 2) == 10 && Offset(h, 3) == 12 && Offset(h, 4) == 16
      && Offset(h, 5) == 20 && Offset(h, 6) == 24 && Offset(h, 7) == 28 && Offset(h, 8) == 32 && Offset(h, 9) == 36
      && Offset(h, 10) == 40 && Offset(h, 11) == 44 && Offset(h, 12) == 52 && Offset(h, 13) == 60 && Offset(h, 14) == 68
      && Offset(h, 15) == 76 && Offset(h, 16) == 84 && Offset(h, 17) == 92 && Offset(h, 18) == 100
  {
    FirstOffsets(r, size);
  }

  // ----- The decoder ------------------------------------------------------------------

  datatype Fields = Some(fields: seq<LogField>) | Bad

  function ValueFor(kind: nat, bits: nat, text: Text): LogValue {
    if kind == 1 then Boolean(bits == 1)
    else if kind == 2 then Integer(if bits >= TWO_63 then bits - TWO_64 else bits)
    else if kind == 3 then Integer(bits)
    else if kind == 4 then Float(bits)
    else String(text)
  }

  /** Whether bits and text agree with the kind. */
  predicate Consistent(kind: nat, bits: nat, textSize: nat) {
    && (kind != 5 ==> textSize == 0) && (kind == 5 ==> bits == 0) && (kind == 1 ==> bits <= 1)
    && (kind == 4 ==> Finite(bits))
  }

  datatype First = One(field: LogField, end: nat) | BadField

  /** The field bytes begin with, and where it ends. */
  function FirstField(b: seq<Byte>): (r: First)
    ensures r.One? ==> r.end <= |b|
  {
    if |b| < FIELD_SIZE then BadField
    else
      var kind, nameSize, textSize, bits := Load(b, 0, 2), Load(b, 4, 4), Load(b, 8, 4), Load(b, 12, 8);
      var mid, end := FIELD_SIZE + nameSize, FIELD_SIZE + nameSize + textSize;
      if Load(b, 2, 2) != 0 || Load(b, 20, 4) != 0 || nameSize == 0 || nameSize > MAX_NAME_BYTES || end > |b| ||
         !(1 <= kind <= 5) then BadField
      else
        var name, text := Decode(b[FIELD_SIZE..mid]), Decode(b[mid..end]);
        if name.None? || text.None? || !Consistent(kind, bits, textSize) then BadField
        else One(LogField(name.value, ValueFor(kind, bits, text.value)), end)
  }

  /** `n` fields and nothing after them, whatever reads one; a name may not come twice. */
  function FieldsBy(first: seq<Byte> -> First, b: seq<Byte>, n: nat, seen: set<Text>): Fields
    decreases n
  {
    if n == 0 then (if b == [] then Fields.Some([]) else Bad)
    else match first(b)
      case BadField => Bad
      case One(f, end) =>
        if f.name in seen || end > |b| then Bad
        else match FieldsBy(first, b[end..], n - 1, seen + {f.name})
          case Bad => Bad
          case Some(rest) => Fields.Some([f] + rest)
  }

  function DecodeFields(b: seq<Byte>, n: nat): Fields {
    FieldsBy(FirstField, b, n, {})
  }

  predicate HeaderReads(p: seq<Byte>)
    requires |p| >= HEADER_SIZE
  {
    && Load(p, 0, 8) == MAGIC && Load(p, 8, 2) == ABI_MAJOR && Load(p, 10, 2) <= ABI_MINOR &&
        Load(p, 12, 4) == HEADER_SIZE
    && Load(p, 16, 4) == |p| && Load(p, 20, 4) <= FLAG_TRUNCATED + FLAG_SYNTHETIC && KnownLevel(Load(p, 24, 4))
    && Load(p, 28, 4) <= MAX_FIELDS && Load(p, 40, 4) == 0 && Load(p, 32, 4) <= MAX_CATEGORY_BYTES
    && Load(p, 36, 4) <= MAX_MESSAGE_BYTES && HEADER_SIZE + Load(p, 32, 4) + Load(p, 36, 4) <= |p|
  }

  function StampAt(p: seq<Byte>): Stamp
    requires |p| >= HEADER_SIZE
  {
    Stamp(Load(p, 44, 8), Load(p, 52, 8), Load(p, 60, 8), Load(p, 68, 8), Load(p, 76, 8), Load(p, 84, 8),
      Load(p, 92, 8))
  }

  function DecodeRecord(p: seq<Byte>): Decoding {
    if |p| < HEADER_SIZE || |p| > MAX_RECORD_BYTES || !HeaderReads(p) then Malformed
    else
      var mid := HEADER_SIZE + Load(p, 32, 4);
      var end := mid + Load(p, 36, 4);
      var category, message := Decode(p[HEADER_SIZE..mid]), Decode(p[mid..end]);
      if category.None? || message.None? then Malformed
      else match DecodeFields(p[end..], Load(p, 28, 4))
        case Bad => Malformed
        case Some(fields) =>
          Read(Record(Load(p, 24, 4), message.value, category.value, fields, Load(p, 20, 4), StampAt(p)))
  }

  // ----- The round trip ---------------------------------------------------------------

  lemma Limits()
    ensures Limit(2) == 0x1_0000 && Limit(4) == 0x1_0000_0000 && Limit(8) == TWO_64
  {
  }

  lemma LoadFirst(a: seq<Byte>, b: seq<Byte>, at: nat, width: nat)
    requires at + width <= |a|
    ensures Load(a + b, at, width) == Load(a, at, width)
  {
    assert (a + b)[at..at + width] == a[at..at + width];
  }

  lemma PartHeaderLoads(f: LogField, rest: seq<Byte>)
    requires ValidValue(f.value) && PartSize(f) <= MAX_RECORD_BYTES
    ensures var b := Pack(FieldHeader(f), 6) + rest;
      && |b| >= FIELD_SIZE
      && Load(b, 0, 2) == KindOf(f.value) && Load(b, 2, 2) == 0 && Load(b, 4, 4) == Size(f.name)
      && Load(b, 8, 4) == Size(TextOf(f.value)) && Load(b, 12, 8) == BitsFor(f.value) && Load(b, 20, 4) == 0
  {
    var h, p := FieldHeader(f), Pack(FieldHeader(f), 6);
    Limits();
    FieldOffsets(f);
    forall k | 0 <= k < 6
      ensures LoadsField(p, h, k)
    {
      LoadPacked(h, 6, k);
    }
    assert LoadsField(p, h, 0) && LoadsField(p, h, 1) && LoadsField(p, h, 2);
    assert LoadsField(p, h, 3) && LoadsField(p, h, 4) && LoadsField(p, h, 5);
    LoadFirst(p, rest, 0, 2);
    LoadFirst(p, rest, 2, 2);
    LoadFirst(p, rest, 4, 4);
    LoadFirst(p, rest, 8, 4);
    LoadFirst(p, rest, 12, 8);
    LoadFirst(p, rest, 20, 4);
  }

  lemma ValueReadsBack(v: LogValue)
    requires ValidValue(v)
    ensures Consistent(KindOf(v), BitsFor(v), Size(TextOf(v))) && ValueFor(KindOf(v), BitsFor(v), TextOf(v)) == v
  {
  }

  predicate Distinct(fs: seq<LogField>) {
    forall i, j | 0 <= i < j < |fs| :: fs[i].name != fs[j].name
  }

  lemma Slices(a: seq<Byte>, b: seq<Byte>, c: seq<Byte>, d: seq<Byte>)
    ensures var all := a + b + c + d;
      all[|a|..|a| + |b|] == b && all[|a| + |b|..|a| + |b| + |c|] == c && all[|a| + |b| + |c|..] == d
  {
  }

  lemma Associate(a: seq<Byte>, b: seq<Byte>, c: seq<Byte>, d: seq<Byte>)
    ensures a + b + c + d == a + (b + c + d)
  {
  }

  /** Longer names are never sent. */
  predicate NameFits(f: LogField) {
    Size(f.name) <= MAX_NAME_BYTES
  }

  lemma FirstIs(b: seq<Byte>, f: LogField)
    requires ValidValue(f.value) && NameFits(f) && FIELD_SIZE <= PartSize(f) <= |b|
    requires Load(b, 0, 2) == KindOf(f.value) && Load(b, 2, 2) == 0 && Load(b, 4, 4) == Size(f.name)
    requires Load(b, 8, 4) == Size(TextOf(f.value)) && Load(b, 12, 8) == BitsFor(f.value) && Load(b, 20, 4) == 0
    requires b[FIELD_SIZE..FIELD_SIZE + Size(f.name)] == Encode(f.name)
    requires b[FIELD_SIZE + Size(f.name)..PartSize(f)] == Encode(TextOf(f.value))
    ensures FirstField(b) == if f.name == [] then BadField else One(f, PartSize(f))
  {
    hide Load, Decode, Encode;
    ValueReadsBack(f.value);
    DecodeEncode(f.name);
    DecodeEncode(TextOf(f.value));
    NonEmpty(f.name);
  }

  lemma FirstReadsBack(f: LogField, rest: seq<Byte>)
    requires ValidValue(f.value) && NameFits(f) && PartSize(f) <= MAX_RECORD_BYTES
    ensures FirstField(Part(f) + rest) == if f.name == [] then BadField else One(f, PartSize(f))
  {
    var n, t := Encode(f.name), Encode(TextOf(f.value));
    PartSlices(f, rest);
    Associate(Pack(FieldHeader(f), 6), n, t, rest);
    PartHeaderLoads(f, n + t + rest);
    FirstIs(Part(f) + rest, f);
  }

  lemma PartSlices(f: LogField, rest: seq<Byte>)
    requires ValidValue(f.value)
    ensures var b, mid := Part(f) + rest, FIELD_SIZE + Size(f.name);
      |Part(f)| == PartSize(f) && b[FIELD_SIZE..mid] == Encode(f.name) && b[mid..PartSize(f)] == Encode(TextOf(f.value))
  {
    PartSizeIs(f);
    Slices(Pack(FieldHeader(f), 6), Encode(f.name), Encode(TextOf(f.value)), rest);
  }

  /** Names that are not empty, not seen before, and not used twice. */
  ghost predicate Acceptable(fs: seq<LogField>, seen: set<Text>) {
    (forall i | 0 <= i < |fs| :: fs[i].name != [] && fs[i].name !in seen) && Distinct(fs)
  }

  lemma AcceptableFirst(fs: seq<LogField>, seen: set<Text>)
    requires fs != []
    ensures Acceptable(fs, seen) <==>
            fs[0].name != [] && fs[0].name !in seen && Acceptable(fs[1..], seen + {fs[0].name})
  {
    assert forall i | 0 <= i < |fs| - 1 :: fs[1..][i] == fs[i + 1];
    if fs[0].name != [] && fs[0].name !in seen && Acceptable(fs[1..], seen + {fs[0].name}) {
      forall i | 0 <= i < |fs|
        ensures fs[i].name != [] && fs[i].name !in seen && (i > 0 ==> fs[i].name != fs[0].name)
      {
        assert i > 0 ==> fs[i] == fs[1..][i - 1];
      }
      forall i, j | 0 <= i < j < |fs|
        ensures fs[i].name != fs[j].name
      {
        assert i > 0 ==> fs[i] == fs[1..][i - 1] && fs[j] == fs[1..][j - 1];
      }
    }
  }

  lemma AcceptableNone(fs: seq<LogField>, seen: set<Text>)
    ensures fs == [] ==> Acceptable(fs, seen)
  {
  }

  lemma FieldsStep(b: seq<Byte>, n: nat, seen: set<Text>)
    requires n > 0
    ensures FieldsBy(FirstField, b, n, seen) ==
      match FirstField(b)
      case BadField => Bad
      case One(f, end) =>
        if f.name in seen || end > |b| then Bad
        else match FieldsBy(FirstField, b[end..], n - 1, seen + {f.name})
          case Bad => Bad
          case Some(rest) => Fields.Some([f] + rest)
  {
  }

  lemma NoFields(seen: set<Text>)
    ensures FieldsBy(FirstField, [], 0, seen) == Fields.Some([]) && Parts([]) == []
  {
  }

  lemma {:induction false} FieldsReadBack(fs: seq<LogField>, seen: set<Text>)
    requires AllValid(fs) && (forall i | 0 <= i < |fs| :: NameFits(fs[i])) && PartSizes(fs) <= MAX_RECORD_BYTES
    ensures FieldsBy(FirstField, Parts(fs), |fs|, seen) == if Acceptable(fs, seen) then Fields.Some(fs) else Bad
    decreases |fs|
  {
    hide FirstField, Part, PartSize, NameFits, ValidValue, Acceptable, FieldsBy;
    AcceptableNone(fs, seen);
    if fs == [] {
      NoFields(seen);
    } else {
      var f, rest := fs[0], Parts(fs[1..]);
      PartSizeIs(f);
      FirstReadsBack(f, rest);
      assert (Part(f) + rest)[PartSize(f)..] == rest;
      FieldsStep(Parts(fs), |fs|, seen);
      AcceptableFirst(fs, seen);
      FieldsReadBack(fs[1..], seen + {f.name});
      assert [f] + fs[1..] == fs;
    }
  }

  lemma NonEmpty(t: Text)
    ensures t != [] <==> Size(t) > 0
  {
  }

  // Where the sent record's header reads back.

  predicate Sendable(r: Record) {
    && KnownLevel(r.level) && r.flags <= FLAG_TRUNCATED + FLAG_SYNTHETIC && Stampable(r.stamp)
    && AllValid(r.fields) && |r.fields| <= MAX_FIELDS && (forall i | 0 <= i < |r.fields| :: NameFits(r.fields[i]))
    && Size(r.category) <= MAX_CATEGORY_BYTES && Size(r.message) <= MAX_MESSAGE_BYTES
    && HEADER_SIZE + Size(r.category) + Size(r.message) + PartSizes(r.fields) <= MAX_RECORD_BYTES
  }

  lemma HeaderFieldsLoad(r: Record, size: nat)
    requires Sendable(r) && size <= MAX_RECORD_BYTES
    ensures var h := Header(r, size);
      && |Pack(h, 18)| == HEADER_SIZE
      && forall k | 0 <= k < 18 :: LoadsField(Pack(h, 18), h, k)
  {
    var h := Header(r, size);
    Limits();
    HeaderOffsets(r, size);
    HeaderFits(r, size);
    forall k | 0 <= k < 18
      ensures LoadsField(Pack(h, 18), h, k)
    {
      LoadPacked(h, 18, k);
    }
  }

  lemma HeaderFits(r: Record, size: nat)
    requires Sendable(r) && size <= MAX_RECORD_BYTES
    ensures Fits(Header(r, size))
  {
    Limits();
  }

  lemma HeaderLoads(r: Record, size: nat, body: seq<Byte>)
    requires Sendable(r) && size <= MAX_RECORD_BYTES
    ensures var p := Pack(Header(r, size), 18) + body;
      && |p| == HEADER_SIZE + |body|
      && Load(p, 0, 8) == MAGIC && Load(p, 8, 2) == ABI_MAJOR && Load(p, 10, 2) == ABI_MINOR &&
          Load(p, 12, 4) == HEADER_SIZE
      && Load(p, 16, 4) == size && Load(p, 20, 4) == r.flags && Load(p, 24, 4) == r.level &&
          Load(p, 28, 4) == |r.fields|
      && Load(p, 32, 4) == Size(r.category) && Load(p, 36, 4) == Size(r.message) && Load(p, 40, 4) == 0
  {
    var h := Header(r, size);
    var p := Pack(h, 18);
    HeaderFieldsLoad(r, size);
    HeaderOffsets(r, size);
    assert LoadsField(p, h, 0) && LoadsField(p, h, 1) && LoadsField(p, h, 2) && LoadsField(p, h, 3) &&
        LoadsField(p, h, 4);
    assert LoadsField(p, h, 5) && LoadsField(p, h, 6) && LoadsField(p, h, 7) && LoadsField(p, h, 8) &&
        LoadsField(p, h, 9);
    assert LoadsField(p, h, 10);
    forall at, width | 0 <= at && 0 <= width && at + width <= HEADER_SIZE
      ensures Load(p + body, at, width) == Load(p, at, width)
    {
      LoadFirst(p, body, at, width);
    }
  }

  lemma StampLoads(r: Record, size: nat, body: seq<Byte>)
    requires Sendable(r) && size <= MAX_RECORD_BYTES
    ensures |Pack(Header(r, size), 18)| == HEADER_SIZE && StampAt(Pack(Header(r, size), 18) + body) == r.stamp
  {
    var h := Header(r, size);
    var p := Pack(h, 18);
    HeaderFieldsLoad(r, size);
    HeaderOffsets(r, size);
    assert LoadsField(p, h, 11) && LoadsField(p, h, 12) && LoadsField(p, h, 13) && LoadsField(p, h, 14);
    assert LoadsField(p, h, 15) && LoadsField(p, h, 16) && LoadsField(p, h, 17);
    forall at, width | 0 <= at && 0 <= width && at + width <= HEADER_SIZE
      ensures Load(p + body, at, width) == Load(p, at, width)
    {
      LoadFirst(p, body, at, width);
    }
  }

  lemma PacketAccepted(r: Record)
    requires Sendable(r)
    ensures var p := Packet(r);
      && HEADER_SIZE <= |p| <= MAX_RECORD_BYTES && HeaderReads(p)
      && Load(p, 20, 4) == r.flags && Load(p, 24, 4) == r.level && Load(p, 28, 4) == |r.fields|
      && Load(p, 32, 4) == Size(r.category) && Load(p, 36, 4) == Size(r.message) && StampAt(p) == r.stamp
  {
    hide Pack, Load, StampAt, Parts, Encode, Header;
    var size := HEADER_SIZE + |Body(r)|;
    PartsSize(r.fields);
    HeaderLoads(r, size, Body(r));
    StampLoads(r, size, Body(r));
  }

  lemma PacketTexts(r: Record)
    requires Sendable(r)
    ensures var p := Packet(r);
      var mid := HEADER_SIZE + Size(r.category);
      var end := mid + Size(r.message);
      && end <= |p| && p[HEADER_SIZE..mid] == Encode(r.category) && p[mid..end] == Encode(r.message)
      && p[end..] == Parts(r.fields)
  {
    hide Encode, Parts, Pack;
    var size := HEADER_SIZE + |Body(r)|;
    PartsSize(r.fields);
    HeaderFieldsLoad(r, size);
    var h, c, m, fs := Pack(Header(r, size), 18), Encode(r.category), Encode(r.message), Parts(r.fields);
    Slices(h, c, m, fs);
    Associate(h, c, m, fs);
  }

  /** Parts read one by one make the record, or none. */
  lemma PartsMakeRecord(p: seq<Byte>, mid: nat, end: nat, r: Record, fields: Fields)
    requires HEADER_SIZE <= mid <= end <= |p| <= MAX_RECORD_BYTES && HeaderReads(p)
    requires mid == HEADER_SIZE + Load(p, 32, 4) && end == mid + Load(p, 36, 4)
    requires Load(p, 20, 4) == r.flags && Load(p, 24, 4) == r.level && StampAt(p) == r.stamp
    requires Decode(p[HEADER_SIZE..mid]) == Option.Some(r.category) && Decode(p[mid..end]) == Option.Some(r.message)
    requires DecodeFields(p[end..], Load(p, 28, 4)) == fields
    ensures DecodeRecord(p) == if fields == Bad then Malformed else Read(r.(fields := fields.fields))
  {
    hide Load, Decode, DecodeFields, StampAt, HeaderReads;
  }

  /**
   The decoder gives back a record that keeps to the limits exactly when no field name is empty or
   used twice.
   */
  lemma RecordReadsBack(r: Record)
    requires Sendable(r)
    ensures DecodeRecord(Packet(r)) == if Acceptable(r.fields, {}) then Read(r) else Malformed
  {
    hide Packet, DecodeRecord, Parts, StampAt, HeaderReads, Load, Decode, Encode;
    PacketAccepted(r);
    PacketTexts(r);
    DecodeEncode(r.category);
    DecodeEncode(r.message);
    FieldsReadBack(r.fields, {});
    var mid := HEADER_SIZE + Size(r.category);
    PartsMakeRecord(Packet(r), mid, mid + Size(r.message), r, DecodeFields(Parts(r.fields), |r.fields|));
  }

  // ----- The encoder ------------------------------------------------------------------

  lemma {:induction false} KeptValid(fs: seq<LogField>, used: nat, limit: nat)
    requires Keep(fs, used, limit).Kept?
    ensures AllValid(Keep(fs, used, limit).fields)
    decreases |fs|
  {
    hide PartSize;
    if fs != [] {
      var f := Trimmed(fs[0], used, limit);
      if used + PartSize(f) <= limit {
        KeptValid(fs[1..], used + PartSize(f), limit);
      }
    }
  }

  lemma {:induction false} KeptNamesFit(fs: seq<LogField>, used: nat, limit: nat)
    requires Keep(fs, used, limit).Kept?
    ensures forall i | 0 <= i < |Keep(fs, used, limit).fields| :: NameFits(Keep(fs, used, limit).fields[i])
  {
    KeepsPrefix(fs, used, limit);
    forall i | 0 <= i < |Keep(fs, used, limit).fields|
      ensures NameFits(Keep(fs, used, limit).fields[i])
    {
      PrefixIsLongest(fs[i].name, MAX_NAME_BYTES);
    }
  }

  lemma ShortenedSendable(r: Record, limit: nat)
    requires Encodable(r, limit) && Stampable(r.stamp)
    ensures var s := Shortened(r, limit);
      Sendable(s) && HEADER_SIZE + Size(s.category) + Size(s.message) + PartSizes(s.fields) <= limit
  {
    TextsAreLongest(r, limit);
    var fs := FirstFields(r);
    KeepsPrefix(fs, TextEnd(r, limit), limit);
    KeptNamesFit(fs, TextEnd(r, limit), limit);
    KeepsWithin(fs, TextEnd(r, limit), limit);
    KeptValid(fs, TextEnd(r, limit), limit);
  }

  /** The first `n` names as they are sent: none is empty and no two are alike. */
  ghost predicate NamesSurvive(fs: seq<LogField>, n: nat)
    requires n <= |fs|
  {
    && (forall i | 0 <= i < n :: fs[i].name != [])
    && forall i, j | 0 <= i < j < n :: ShortName(fs[i]) != ShortName(fs[j])
  }

  lemma ShortNameEmpty(f: LogField)
    ensures ShortName(f) == [] <==> f.name == []
  {
  }

  lemma NamesDecide(r: Record, limit: nat)
    requires Encodable(r, limit)
    ensures |KeptFields(r, limit).fields| <= |r.fields|
    ensures Acceptable(Shortened(r, limit).fields, {}) <==> NamesSurvive(r.fields, |KeptFields(r, limit).fields|)
  {
    hide Trimmed, PartSize, Keep, ShortCategory, ShortMessage, WithTruncated, Truncates, ShortName;
    var fs := Shortened(r, limit).fields;
    KeepsPrefix(FirstFields(r), TextEnd(r, limit), limit);
    forall i | 0 <= i < |fs|
      ensures fs[i].name == ShortName(r.fields[i]) && (fs[i].name == [] <==> r.fields[i].name == [])
    {
      ShortNameEmpty(r.fields[i]);
    }
  }

  /**
   A packet the worker encodes keeps to the limit the collector drops by, and the runtime decodes it,
   to the shortened record, exactly when among the fields kept no name is empty and no two are alike
   in their first 255 bytes.
   */
  lemma WorkerToRuntime(r: Record, limit: nat)
    requires Encodable(r, limit) && Stampable(r.stamp)
    ensures AllValid(Shortened(r, limit).fields)
    ensures |Packet(Shortened(r, limit))| <= limit && |KeptFields(r, limit).fields| <= |r.fields|
    ensures DecodeRecord(Packet(Shortened(r, limit))) ==
            if NamesSurvive(r.fields, |KeptFields(r, limit).fields|) then Read(Shortened(r, limit)) else Malformed
  {
    hide Packet, Shortened, Encodable, Acceptable, NamesSurvive;
    ShortenedSendable(r, limit);
    PacketSize(Shortened(r, limit));
    RecordReadsBack(Shortened(r, limit));
    NamesDecide(r, limit);
  }

  /** Names that need no cut are kept as they are: with distinct ones the record arrives. */
  lemma ShortNamesAccepted(r: Record, limit: nat)
    requires Encodable(r, limit) && Stampable(r.stamp)
    requires Acceptable(r.fields, {}) && forall i | 0 <= i < |r.fields| :: NameFits(r.fields[i])
    ensures AllValid(Shortened(r, limit).fields)
    ensures DecodeRecord(Packet(Shortened(r, limit))) == Read(Shortened(r, limit))
  {
    hide Packet, Shortened, Encodable, DecodeRecord, KeptFields, Prefix;
    WorkerToRuntime(r, limit);
    forall i | 0 <= i < |r.fields|
      ensures ShortName(r.fields[i]) == r.fields[i].name
    {
      PrefixWhole(r.fields[i].name, MAX_NAME_BYTES);
    }
  }

  /** A field without a name is sent, and the whole record is refused. */
  lemma NamelessFieldLosesRecord() returns (r: Record)
    ensures r.fields == [LogField([], Boolean(true))] && Encodable(r, MAX_RECORD_BYTES) && Stampable(r.stamp)
    ensures var sent := Shortened(r, MAX_RECORD_BYTES);
      AllValid(sent.fields) && DecodeRecord(Packet(sent)) == Malformed
  {
    r := Record(20, [], [], [LogField([], Boolean(true))], 0, Stamp(1, 0, 0, 0, 0, 0, 0));
    var used := TextEnd(r, MAX_RECORD_BYTES);
    assert used == HEADER_SIZE;
    var k := KeptFields(r, MAX_RECORD_BYTES);
    assert k == Extended(r.fields[0], false, Keep(r.fields[1..], used + FIELD_SIZE, MAX_RECORD_BYTES));
    WorkerToRuntime(r, MAX_RECORD_BYTES);
    assert k.fields[0].name == [];
  }

  /** As many letters as a name may have bytes. */
  function Letters(n: nat): Text {
    if n == 0 then [] else [0x61] + Letters(n - 1)
  }

  lemma {:induction false} LettersFill(n: nat, c: Scalar)
    ensures Prefix(Letters(n) + [c], n) == Letters(n) && Size(Letters(n)) == n
  {
    if n == 0 {
      assert Width(c) > 0;
    } else {
      var t := Letters(n) + [c];
      LettersFill(n - 1, c);
      assert t[1..] == Letters(n - 1) + [c];
      PrefixAfterFirst(t, n);
    }
  }

  lemma FlagKept(fs: seq<LogField>, used: nat, limit: nat)
    requires fs != [] && fs[0].value == Boolean(true) && used + FIELD_SIZE + Size(ShortName(fs[0])) <= limit
    ensures var f := LogField(ShortName(fs[0]), Boolean(true));
      Keep(fs, used, limit) == Extended(f, f != fs[0], Keep(fs[1..], used + PartSize(f), limit))
  {
  }

  lemma BothKept(f: LogField, g: LogField, used: nat, limit: nat)
    requires f.value == Boolean(true) && g.value == Boolean(true)
    requires used + 2 * FIELD_SIZE + Size(ShortName(f)) + Size(ShortName(g)) <= limit
    ensures Keep([f, g], used, limit).Kept? && |Keep([f, g], used, limit).fields| == 2
  {
    hide Keep, ShortName;
    FlagKept([f, g], used, limit);
    assert [f, g][1..] == [g];
    FlagKept([g], used + FIELD_SIZE + Size(ShortName(f)), limit);
    NoneKept(used + 2 * FIELD_SIZE + Size(ShortName(f)) + Size(ShortName(g)), limit);
    assert [g][1..] == [];
  }

  lemma NoneKept(used: nat, limit: nat)
    ensures Keep([], used, limit) == Kept([], false)
  {
  }

  /** Two names that differ only past the cut are sent alike, and the whole record is refused. */
  lemma LookalikeNamesLoseRecord() returns (r: Record)
    ensures |r.fields| == 2 && r.fields[0].name != r.fields[1].name
    ensures Encodable(r, MAX_RECORD_BYTES) && Stampable(r.stamp)
    ensures var sent := Shortened(r, MAX_RECORD_BYTES);
      AllValid(sent.fields) && DecodeRecord(Packet(sent)) == Malformed
  {
    var name, v := Letters(MAX_NAME_BYTES), Boolean(true);
    var f, g := LogField(name + [0x62], v), LogField(name + [0x63], v);
    r := Record(20, [], [], [f, g], 0, Stamp(1, 0, 0, 0, 0, 0, 0));
    LettersFill(MAX_NAME_BYTES, 0x62);
    LettersFill(MAX_NAME_BYTES, 0x63);
    assert f.name[|name|] != g.name[|name|];
    assert TextEnd(r, MAX_RECORD_BYTES) == HEADER_SIZE;
    BothKept(f, g, HEADER_SIZE, MAX_RECORD_BYTES);
    WorkerToRuntime(r, MAX_RECORD_BYTES);
  }

  lemma PacketSize(r: Record)
    requires Sendable(r)
    ensures |Packet(r)| == HEADER_SIZE + Size(r.category) + Size(r.message) + PartSizes(r.fields)
  {
    hide Encode, Parts, Pack;
    PartsSize(r.fields);
    HeaderFieldsLoad(r, HEADER_SIZE + |Body(r)|);
  }

  function Prepend(fs: seq<LogField>, lost: bool, k: Kept): Kept {
    match k case Invalid => Invalid case Kept(rest, more) => Kept(fs + rest, lost || more)
  }

  lemma PrependStep(fs: seq<LogField>, lost: bool, f: LogField, cut: bool, k: Kept)
    ensures Prepend(fs, lost, Extended(f, cut, k)) == Prepend(fs + [f], lost || cut, k)
  {
    if k.Kept? {
      assert fs + ([f] + k.fields) == fs + [f] + k.fields;
    }
  }

  lemma KeepFrom(items: seq<LogField>, n: nat, used: nat, limit: nat)
    requires n < |items|
    ensures var f := Trimmed(items[n], used, limit);
      Keep(items[n..], used, limit) ==
      if !ValidValue(items[n].value) then Invalid
      else if used + PartSize(f) > limit then Kept([], true)
      else Extended(f, f != items[n], Keep(items[n + 1..], used + PartSize(f), limit))
  {
    assert items[n..][0] == items[n] && items[n..][1..] == items[n + 1..];
  }

  /** The same, field by field with what was kept so far. */
  function KeepLoop(items: seq<LogField>, n: nat, used: nat, limit: nat, fs: seq<LogField>, lost: bool): Kept
    requires n <= |items|
    decreases |items| - n
  {
    if n == |items| then Kept(fs, lost)
    else if !ValidValue(items[n].value) then Invalid
    else
      var f := Trimmed(items[n], used, limit);
      if used + PartSize(f) > limit then Kept(fs, true)
      else KeepLoop(items, n + 1, used + PartSize(f), limit, fs + [f], lost || f != items[n])
  }

  lemma {:induction false} LoopKeeps(items: seq<LogField>, n: nat, used: nat, limit: nat, fs: seq<LogField>, lost: bool)
    requires n <= |items|
    ensures KeepLoop(items, n, used, limit, fs, lost) == Prepend(fs, lost, Keep(items[n..], used, limit))
    decreases |items| - n
  {
    hide Trimmed, PartSize, ValidValue;
    if n < |items| {
      KeepFrom(items, n, used, limit);
      var f := Trimmed(items[n], used, limit);
      if used + PartSize(f) <= limit {
        LoopKeeps(items, n + 1, used + PartSize(f), limit, fs + [f], lost || f != items[n]);
        PrependStep(fs, lost, f, f != items[n], Keep(items[n + 1..], used + PartSize(f), limit));
      } else {
        assert fs + [] == fs;
      }
    } else {
      assert fs + [] == fs;
    }
  }

  /** Cuts one field to the room left. */
  method Trim(f: LogField, used: nat, limit: nat) returns (t: LogField, cut: bool)
    ensures t == Trimmed(f, used, limit) && (cut <==> t != f)
  {
    var nameData, nameCut := ShortenText(f.name, MAX_NAME_BYTES);
    var name := Prefix(f.name, MAX_NAME_BYTES);
    cut := nameCut;
    var value := f.value;
    if f.value.String? {
      var available := limit - used - FIELD_SIZE - |nameData|;
      var _, textCut := ShortenText(f.value.text, NonNegative(available));
      value := String(Prefix(f.value.text, NonNegative(available)));
      cut := cut || textCut;
    }
    t := LogField(name, value);
  }

  lemma KeepingStarts(items: seq<LogField>, start: nat, limit: nat)
    ensures KeepLoop(items, 0, start, limit, [], false) == Keep(items, start, limit)
  {
    LoopKeeps(items, 0, start, limit, [], false);
    assert items[0..] == items;
    match Keep(items, start, limit)
    case Invalid =>
    case Kept(rest, _) => assert [] + rest == rest;
  }

  lemma KeepingEnds(items: seq<LogField>, used: nat, limit: nat, fs: seq<LogField>, lost: bool)
    ensures KeepLoop(items, |items|, used, limit, fs, lost) == Kept(fs, lost)
  {
  }

  lemma NoParts()
    ensures Parts([]) == []
  {
  }

  /** Fields one after another until one is invalid or does not fit. */
  method KeepFields(items: seq<LogField>, start: nat, limit: nat) returns (kept: Kept, bytes: seq<Byte>)
    ensures kept == Keep(items, start, limit)
    ensures kept.Kept? ==> AllValid(kept.fields) && bytes == Parts(kept.fields)
  {
    var used: nat := start;
    var lost := false;
    var fields: seq<LogField> := [];
    bytes := [];
    hide Keep, KeepLoop, Parts, Part, ValidValue;
    NoParts();
    KeepingStarts(items, start, limit);
    for n := 0 to |items|
      invariant AllValid(fields) && bytes == Parts(fields)
      invariant KeepLoop(items, 0, start, limit, [], false) == KeepLoop(items, n, used, limit, fields, lost)
    {
      var next := KeepNext(items, n, used, limit, fields, lost);
      if next.BadValue? {
        return Invalid, [];
      }
      if next.TooLong? {
        return Kept(fields, true), bytes;
      }
      PartsAppend(fields, next.field);
      bytes := bytes + Part(next.field);
      fields, used, lost := fields + [next.field], used + next.size, lost || next.cut;
    }
    KeepingEnds(items, used, limit, fields, lost);
    kept := Kept(fields, lost);
  }

  datatype Next = BadValue | TooLong | Fitting(field: LogField, size: nat, cut: bool)

  /** The next field: invalid, too long for what is left, or cut to fit. */
  method KeepNext(items: seq<LogField>, n: nat, used: nat, limit: nat, ghost fs: seq<LogField>, ghost lost: bool)
    returns (next: Next)
    requires n < |items|
    ensures next.Fitting? ==> ValidValue(next.field.value)
    ensures KeepLoop(items, n, used, limit, fs, lost) ==
      match next
      case BadValue => Invalid
      case TooLong => Kept(fs, true)
      case Fitting(f, size, cut) => KeepLoop(items, n + 1, used + size, limit, fs + [f], lost || cut)
  {
    var item := items[n];
    if !ValidValue(item.value) {
      return BadValue;
    }
    var f, cut := Trim(item, used, limit);
    if used + PartSize(f) > limit {
      return TooLong;
    }
    next := Fitting(f, PartSize(f), cut);
  }

  lemma {:induction false} PartsAppend(fs: seq<LogField>, f: LogField)
    requires AllValid(fs) && ValidValue(f.value)
    ensures Parts(fs + [f]) == Parts(fs) + Part(f)
  {
    hide Part;
    if fs == [] {
      assert Parts([f]) == Part(f) + Parts([f][1..]);
    } else {
      PartsAppend(fs[1..], f);
      assert (fs + [f])[1..] == fs[1..] + [f];
      assert AllValid(fs[1..]);
    }
  }

  method ShortenTexts(r: Record, limit: nat) returns (category: seq<Byte>, message: seq<Byte>, cut: bool)
    requires HEADER_SIZE <= limit
    ensures category == Encode(ShortCategory(r, limit)) && message == Encode(ShortMessage(r, limit))
    ensures cut <==> ShortCategory(r, limit) != r.category || ShortMessage(r, limit) != r.message
  {
    var categoryCut, messageCut;
    category, categoryCut := ShortenText(r.category, NonNegative(Least(MAX_CATEGORY_BYTES, limit - HEADER_SIZE)));
    message, messageCut :=
      ShortenText(r.message, NonNegative(Least(MAX_MESSAGE_BYTES, limit - HEADER_SIZE - |category|)));
    cut := categoryCut || messageCut;
  }

  /** The worker's encoder. */
  method EncodeRecord(r: Record, limit: nat) returns (e: Encoding)
    ensures e.Encoded? <==> Encodable(r, limit) && Stampable(r.stamp)
    ensures e.Encoded? ==> AllValid(Shortened(r, limit).fields) && e.packet == Packet(Shortened(r, limit))
  {
    hide Packet, Keep, ShortCategory, ShortMessage, Encode, Pack, Parts;
    if !KnownLevel(r.level) || limit < HEADER_SIZE || limit > MAX_RECORD_BYTES {
      return Unencodable;
    }
    var categoryData, messageData, cut := ShortenTexts(r, limit);
    var kept, fieldData := KeepFields(FirstFields(r), HEADER_SIZE + |categoryData| + |messageData|, limit);
    if kept.Invalid? {
      return Unencodable;
    }
    var truncated := |r.fields| > MAX_FIELDS || cut || kept.lost;
    var flags := WithTruncated(r.flags, truncated);
    if flags > FLAG_TRUNCATED + FLAG_SYNTHETIC || !Stampable(r.stamp) {
      return Unencodable;
    }
    var body := categoryData + messageData + fieldData;
    ShortenedPacket(r, limit, flags, body);
    e := Encoded(
      Pack(HeaderOf(HEADER_SIZE + |body|, flags, r.level, |kept.fields|, |categoryData|, |messageData|, r.stamp), 18)
      + body);
  }

  lemma ShortenedPacket(r: Record, limit: nat, flags: nat, body: seq<Byte>)
    requires Encodable(r, limit) && flags == WithTruncated(r.flags, Truncates(r, limit))
    requires var k := KeptFields(r, limit).fields;
      AllValid(k) && body == Encode(ShortCategory(r, limit)) + Encode(ShortMessage(r, limit)) + Parts(k)
    ensures var k := KeptFields(r, limit).fields;
      && AllValid(Shortened(r, limit).fields)
      && Packet(Shortened(r, limit)) ==
        Pack(HeaderOf(HEADER_SIZE + |body|, flags, r.level, |k|, Size(ShortCategory(r, limit)),
                      Size(ShortMessage(r, limit)), r.stamp), 18) + body
  {
    hide Keep, Encode, Parts, Pack, Prefix;
  }

  // ----- The decoder's loop -----------------------------------------------------------

  function Onto(fs: seq<LogField>, more: Fields): Fields {
    match more case Bad => Bad case Some(rest) => Fields.Some(fs + rest)
  }

  /** The same from an offset, with what was read so far, whatever reads one field. */
  function DecodeLoop(first: seq<Byte> -> First, b: seq<Byte>, offset: nat, n: nat, seen: set<Text>,
      fs: seq<LogField>): Fields
    decreases n
  {
    if n == 0 then (if offset == |b| then Fields.Some(fs) else Bad)
    else if offset > |b| then Bad
    else match first(b[offset..])
      case BadField => Bad
      case One(f, end) =>
        if f.name in seen then Bad else DecodeLoop(first, b, offset + end, n - 1, seen + {f.name}, fs + [f])
  }

  lemma {:induction false} LoopDecodes(first: seq<Byte> -> First, b: seq<Byte>, offset: nat, n: nat, seen: set<Text>,
                                       fs: seq<LogField>)
    requires offset <= |b| && forall x :: first(x).One? ==> first(x).end <= |x|
    ensures DecodeLoop(first, b, offset, n, seen, fs) == Onto(fs, FieldsBy(first, b[offset..], n, seen))
    decreases n
  {
    assert fs + [] == fs;
    assert b[offset..] == [] <==> offset == |b|;
    if n > 0 {
      var next := first(b[offset..]);
      if next.One? && next.field.name !in seen {
        LoopDecodes(first, b, offset + next.end, n - 1, seen + {next.field.name}, fs + [next.field]);
        assert b[offset..][next.end..] == b[offset + next.end..];
        OntoStep(fs, next.field, FieldsBy(first, b[offset + next.end..], n - 1, seen + {next.field.name}));
      }
    }
  }

  lemma OntoStep(fs: seq<LogField>, f: LogField, more: Fields)
    ensures more.Some? ==> fs + ([f] + more.fields) == fs + [f] + more.fields
  {
  }

  /** Field after field from an advancing offset, and nothing left at the end. */
  method ReadLoop(first: seq<Byte> -> First, b: seq<Byte>, count: nat) returns (r: Fields)
    requires forall x :: first(x).One? ==> first(x).end <= |x|
    ensures r == DecodeLoop(first, b, 0, count, {}, [])
  {
    var offset: nat := 0;
    var fields: seq<LogField> := [];
    var seen: set<Text> := {};
    for i := 0 to count
      invariant offset <= |b|
      invariant DecodeLoop(first, b, 0, count, {}, []) == DecodeLoop(first, b, offset, count - i, seen, fields)
    {
      var next := first(b[offset..]);
      if next.BadField? || next.field.name in seen {
        return Bad;
      }
      fields, seen, offset := fields + [next.field], seen + {next.field.name}, offset + next.end;
    }
    r := if offset == |b| then Fields.Some(fields) else Bad;
  }

  method ReadFields(b: seq<Byte>, count: nat) returns (r: Fields)
    ensures r == DecodeFields(b, count)
  {
    r := ReadLoop(FirstField, b, count);
    LoopDecodes(FirstField, b, 0, count, {}, []);
    assert b[0..] == b;
  }

  /** The runtime's decoder. */
  method ReadRecord(p: seq<Byte>) returns (d: Decoding)
    ensures d == DecodeRecord(p)
  {
    hide DecodeFields, Decode, StampAt, Load;
    if |p| < HEADER_SIZE || |p| > MAX_RECORD_BYTES || !HeaderReads(p) {
      return Malformed;
    }
    var mid := HEADER_SIZE + Load(p, 32, 4);
    var end := mid + Load(p, 36, 4);
    var category, message := Decode(p[HEADER_SIZE..mid]), Decode(p[mid..end]);
    if category.None? || message.None? {
      return Malformed;
    }
    var fields := ReadFields(p[end..], Load(p, 28, 4));
    if fields.Bad? {
      return Malformed;
    }
    d := Read(Record(Load(p, 24, 4), message.value, category.value, fields.fields, Load(p, 20, 4), StampAt(p)));
  }
}
