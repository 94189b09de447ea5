/**
 The leap-table extension field: its one message type, the field it is framed as, and the
 distributor's stateless answer to a request.
 */
module ClpsWire {
  import opened Basics
  import opened Bytes
  import opened LeapTable
  import N = NtpPacket

  const EXTENSION_TYPE: nat := 0xf504
  const WIRE_VERSION: nat := 1
  const FIELD_SIZE: nat := 88
  const CHUNK_SIZE: nat := 256
  const MAX_FIELD_SIZE: nat := FIELD_SIZE + CHUNK_SIZE
  const MAX_FILE_SIZE: nat := 65536
  const MAX_DATE: nat := 255_611_289_599

  const PROBE: nat := 1
  const MANIFEST_REPLY: nat := 2
  const GET: nat := 3
  const DATA: nat := 4

  const OK: nat := 0
  const NO_TABLE: nat := 1
  const NOT_FOUND: nat := 2

  /** "CLPS". */
  const MAGIC: Bytes := [67, 76, 80, 83]

  const NO_MANIFEST: Manifest := Manifest(0, 0, Zeros(32), 0)

  datatype Message = Message(
    operation: nat, result: nat, id: Bytes, manifest: Manifest, offset: nat, count: nat, data: Bytes)

  /** Decoding finds no such field, an unsupported one, or one message; anything malformed is refused. */
  datatype Decoded = Malformed | Unsupported | Absent | Found(message: Message)

  // ----- messages

  /** The widths of the fields on the wire. */
  ghost predicate Typed(m: Message) {
    && m.operation < 0x100 && m.result < 0x1_0000 && |m.id| == 16 && ManifestTyped(m.manifest)
    && m.offset < 0x1_0000_0000 && m.count < 0x1_0000
  }

  ghost predicate ManifestTyped(f: Manifest) {
    && f.updated < 0x1_0000_0000_0000_0000 && f.expires < 0x1_0000_0000_0000_0000
    && |f.digest| == 32 && f.size < 0x1_0000_0000
  }

  predicate ManifestValid(f: Manifest) {
    && 0 < f.updated <= MAX_DATE && 0 < f.expires <= MAX_DATE && f.updated < f.expires
    && 0 < f.size <= MAX_FILE_SIZE && !AllZero(f.digest)
  }

  /** The bytes of the object that a chunk at the offset holds. */
  function ChunkLength(size: nat, offset: nat): nat
    requires offset <= size
  {
    MinInt(CHUNK_SIZE, size - offset)
  }

  predicate Names(m: Message) {
    m.manifest != NO_MANIFEST && m.offset < m.manifest.size && m.offset % CHUNK_SIZE == 0
  }

  predicate ShapeValid(m: Message) {
    if m.operation == PROBE then
      m.result == OK && m.offset == 0 && m.count == 0 && m.data == []
    else if m.operation == MANIFEST_REPLY then
      && m.offset == 0 && m.count == 0 && m.data == []
      && (m.result == OK || m.result == NO_TABLE)
      && (m.result == NO_TABLE <==> m.manifest == NO_MANIFEST)
    else if m.operation == GET then
      m.result == OK && Names(m) && m.count == CHUNK_SIZE && m.data == []
    else if m.operation == DATA then
      && Names(m)
      && if m.result == NOT_FOUND then m.count == 0 && m.data == []
         else m.result == OK && m.count == |m.data| && m.count == ChunkLength(m.manifest.size, m.offset)
    else false
  }

  predicate Valid(m: Message) {
    !AllZero(m.id) && (m.manifest == NO_MANIFEST || ManifestValid(m.manifest)) && ShapeValid(m)
  }

  // ----- encoding

  function RoundUp(n: nat): (r: nat)
    ensures n <= r < n + 4 && r % 4 == 0
  {
    (n + 3) / 4 * 4
  }

  /** The length of the field: a request for a chunk reserves room for the whole answer. */
  function FieldLength(m: Message): nat {
    if m.operation == GET then MAX_FIELD_SIZE else FIELD_SIZE + RoundUp(|m.data|)
  }

  function Lead(operation: nat, result: nat, length: nat): (b: Bytes)
    requires operation < 0x100 && result < 0x1_0000 && length < 0x1_0000
    ensures |b| == 12
  {
    U16(EXTENSION_TYPE) + (U16(length) + (MAGIC + ([WIRE_VERSION, operation] + U16(result))))
  }

  function Metadata(f: Manifest): (b: Bytes)
    requires ManifestTyped(f)
    ensures |b| == 52
  {
    U64(f.updated) + (U64(f.expires) + (f.digest + U32(f.size)))
  }

  function Position(offset: nat, count: nat): (b: Bytes)
    requires offset < 0x1_0000_0000 && count < 0x1_0000
    ensures |b| == 8
  {
    U32(offset) + (U16(count) + [0, 0])
  }

  lemma LengthBounds(m: Message)
    requires Typed(m) && Valid(m)
    ensures FIELD_SIZE + |m.data| <= FieldLength(m) <= MAX_FIELD_SIZE && FieldLength(m) % 4 == 0
  {
  }

  function Field(m: Message): (b: Bytes)
    requires Typed(m) && Valid(m)
    ensures |b| == FieldLength(m)
  {
    LengthBounds(m);
    Lead(m.operation, m.result, FieldLength(m)) + (m.id + (Metadata(m.manifest) + (Position(m.offset, m.count)
      + (m.data + Zeros(FieldLength(m) - FIELD_SIZE - |m.data|)))))
  }

  /** The fixed part of a field. */
  ghost function Head(m: Message): (b: Bytes)
    requires Typed(m) && Valid(m)
    ensures |b| == FIELD_SIZE
  {
    LengthBounds(m);
    Lead(m.operation, m.result, FieldLength(m)) + m.id + Metadata(m.manifest) + Position(m.offset, m.count)
  }

  /** Fills in the fixed part, leaving what is zero as it is. */
  method FillHead(b: array<byte>, m: Message)
    requires Typed(m) && Valid(m) && b.Length == FieldLength(m) && forall j :: 0 <= j < b.Length ==> b[j] == 0
    modifies b
    ensures FIELD_SIZE <= b.Length && b[..FIELD_SIZE] == Head(m) && forall j :: FIELD_SIZE <= j < b.Length ==> b[j] == 0
  {
    hide Valid, FieldLength, Lead, Metadata, U16, U32, U64, RoundUp;
    LengthBounds(m);
    var lead, meta := Lead(m.operation, m.result, FieldLength(m)), Metadata(m.manifest);
    assert b[..0] == [];
    Put(b, 0, lead, []);
    assert [] + lead == lead;
    Put(b, 12, m.id, lead);
    Put(b, 28, meta, lead + m.id);
    Put(b, 80, U32(m.offset), lead + m.id + meta);
    Put(b, 84, U16(m.count), lead + m.id + meta + U32(m.offset));
    HeadEnd(b[..88], lead + m.id + meta, U32(m.offset), U16(m.count));
  }

  lemma HeadEnd(b: Bytes, head: Bytes, offset: Bytes, count: Bytes)
    requires |b| == FIELD_SIZE && |head| == 80 && |offset| == 4 && |count| == 2
    requires b[..86] == head + offset + count && b[86] == 0 && b[87] == 0
    ensures b == head + (offset + (count + [0, 0]))
  {
    assert b == b[..86] + [b[86], b[87]];
  }

  /** Appends one framed field, filled into a zeroed buffer; an invalid message is an error. */
  method AppendTo(m: Message, dst: Bytes) returns (out: Option<Bytes>)
    requires Typed(m)
    ensures out == if Valid(m) then Some(dst + Field(m)) else None
  {
    hide Valid, FieldLength, Field, Head;
    if !Valid(m) { return None; }
    LengthBounds(m);
    var length := FieldLength(m);
    var b := new byte[length](_ => 0);
    FillHead(b, m);
    Put(b, FIELD_SIZE, m.data, Head(m));
    FieldInOrder(m, b[..]);
    out := Some(dst + b[..]);
  }

  lemma FieldInOrder(m: Message, b: Bytes)
    requires Typed(m) && Valid(m) && |b| == FieldLength(m) && FIELD_SIZE + |m.data| <= |b|
    requires b[..FIELD_SIZE + |m.data|] == Head(m) + m.data
    requires forall j :: FIELD_SIZE + |m.data| <= j < |b| ==> b[j] == 0
    ensures b == Field(m)
  {
    hide Valid, FieldLength, Lead, Metadata, Position;
    var end := FIELD_SIZE + |m.data|;
    LengthBounds(m);
    assert b[end..] == Zeros(|b| - end);
    assert b == b[..end] + b[end..];
    var l, f, p := Lead(m.operation, m.result, FieldLength(m)), Metadata(m.manifest), Position(m.offset, m.count);
    Regroup(l, m.id, f, p, m.data, b[end..]);
  }

  lemma Regroup(a: Bytes, b: Bytes, c: Bytes, d: Bytes, e: Bytes, f: Bytes)
    ensures a + b + c + d + e + f == a + (b + (c + (d + (e + f))))
  {
  }

  // ----- decoding one field

  function TypeOf(b: Bytes): nat
    requires |b| >= 4
  {
    N16(b[..2])
  }

  function ParseManifest(b: Bytes): (f: Manifest)
    requires |b| == 52
    ensures ManifestTyped(f)
  {
    Manifest(N64(b[..8]), N64(b[8..16]), b[16..48], N32(b[48..52]))
  }

  /** The message a field of the right size spells, with as many data bytes as its operation and count say. */
  function Spelled(b: Bytes): (m: Message)
    requires |b| >= FIELD_SIZE
    ensures |m.id| == 16 && ManifestTyped(m.manifest) && m.operation < 0x100 && m.result < 0x1_0000
    ensures m.offset < 0x1_0000_0000 && m.count < 0x1_0000
  {
    var count := N16(b[84..86]);
    var dataLen := if b[9] == DATA && FIELD_SIZE + count <= |b| then count else 0;
    Message(b[9], N16(b[10..12]), b[12..28], ParseManifest(b[28..80]), N32(b[80..84]), count,
            b[FIELD_SIZE..FIELD_SIZE + dataLen])
  }

  /** The length the operation and count call for. */
  function Expected(operation: nat, count: nat): nat {
    if operation == DATA then FIELD_SIZE + RoundUp(count)
    else if operation == GET then MAX_FIELD_SIZE
    else FIELD_SIZE
  }

  predicate Supported(b: Bytes)
    requires |b| >= FIELD_SIZE
  {
    b[4..8] == MAGIC && b[8] == WIRE_VERSION
  }

  /** A field of our type. */
  function DecodeField(b: Bytes): Decoded
    requires |b| >= 4
  {
    if |b| < FIELD_SIZE || |b| > MAX_FIELD_SIZE then Malformed
    else if !Supported(b) then Unsupported
    else
      var m := Spelled(b);
      if b[86..88] != [0, 0] then Malformed
      else if Expected(m.operation, m.count) != |b| then Malformed
      else if !AllZero(b[FIELD_SIZE + |m.data|..]) then Malformed
      else if !Valid(m) then Malformed
      else Found(m)
  }

  // ----- one field there and back

  lemma LeadParses(b: Bytes, operation: nat, result: nat, length: nat)
    requires operation < 0x100 && result < 0x1_0000 && length < 0x1_0000
    requires |b| >= FIELD_SIZE && b[..12] == Lead(operation, result, length)
    ensures TypeOf(b) == EXTENSION_TYPE && N.LengthField(b) == length && Supported(b)
    ensures b[9] == operation && N16(b[10..12]) == result
  {
    hide N16, U16;
    var h := b[..12];
    var x, y, z, v, w := U16(EXTENSION_TYPE), U16(length), MAGIC, [WIRE_VERSION, operation], U16(result);
    assert b[..2] == h[..2] == x;
    assert b[2..4] == h[2..4] == y;
    assert b[4..8] == h[4..8] == z;
    assert h[8..10] == v && b[8] == h[8] == v[0] && b[9] == h[9] == v[1];
    assert b[10..12] == h[10..12] == w;
    N16U16(EXTENSION_TYPE);
    N16U16(length);
    N16U16(result);
  }

  lemma MetadataParses(f: Manifest)
    requires ManifestTyped(f)
    ensures ParseManifest(Metadata(f)) == f
  {
    hide N32, U32, N64, U64;
    var b := Metadata(f);
    var x, y, z, w := U64(f.updated), U64(f.expires), f.digest, U32(f.size);
    assert b[..8] == x && b[8..16] == y && b[16..48] == z && b[48..52] == w;
    N64U64(f.updated);
    N64U64(f.expires);
    N32U32(f.size);
  }

  lemma MetadataSpells(b: Bytes)
    requires |b| == 52
    ensures Metadata(ParseManifest(b)) == b
  {
    hide N32, U32, N64, U64;
    U64N64(b[..8]);
    U64N64(b[8..16]);
    U32N32(b[48..52]);
    assert b == b[..8] + (b[8..16] + (b[16..48] + b[48..52]));
  }

  lemma PositionParses(offset: nat, count: nat)
    requires offset < 0x1_0000_0000 && count < 0x1_0000
    ensures var b := Position(offset, count); N32(b[..4]) == offset && N16(b[4..6]) == count && b[6..8] == [0, 0]
  {
    hide N32, U32, N16, U16;
    var b := Position(offset, count);
    assert b[..4] == U32(offset) && b[4..6] == U16(count);
    N32U32(offset);
    N16U16(count);
  }

  /** The parts of a field, by their places. */
  lemma Places(a: Bytes, id: Bytes, f: Bytes, p: Bytes, d: Bytes, z: Bytes, b: Bytes)
    requires |a| == 12 && |id| == 16 && |f| == 52 && |p| == 8 && b == a + (id + (f + (p + (d + z))))
    ensures |b| == FIELD_SIZE + |d| + |z| && b[..12] == a && b[12..28] == id && b[28..80] == f
    ensures b[80..84] == p[..4] && b[84..86] == p[4..6] && b[86..88] == p[6..8]
    ensures b[FIELD_SIZE..FIELD_SIZE + |d|] == d && b[FIELD_SIZE + |d|..] == z
  {
  }

  lemma ExpectedIsLength(m: Message)
    requires Valid(m)
    ensures Expected(m.operation, m.count) == FieldLength(m)
    ensures m.operation == DATA ==> m.count == |m.data|
    ensures m.operation != DATA ==> m.data == []
  {
  }

  /** A valid message is decoded from the field it is framed as. */
  lemma FieldDecodes(m: Message)
    requires Typed(m) && Valid(m)
    ensures DecodeField(Field(m)) == Found(m)
    ensures TypeOf(Field(m)) == EXTENSION_TYPE && N.FieldOk(Field(m))
  {
    hide Lead, Metadata, Position, ParseManifest, N16, N32, Valid, FieldLength, Expected, Supported, TypeOf, N.LengthField;
    var b, length := Field(m), FieldLength(m);
    LengthBounds(m);
    var z := Zeros(length - FIELD_SIZE - |m.data|);
    Places(Lead(m.operation, m.result, length), m.id, Metadata(m.manifest), Position(m.offset, m.count), m.data, z, b);
    LeadParses(b, m.operation, m.result, length);
    MetadataParses(m.manifest);
    PositionParses(m.offset, m.count);
    ExpectedIsLength(m);
    SpelledIs(b, m);
  }

  lemma SpelledIs(b: Bytes, m: Message)
    requires |b| >= FIELD_SIZE + |m.data| && b[9] == m.operation && N16(b[10..12]) == m.result && b[12..28] == m.id
    requires ParseManifest(b[28..80]) == m.manifest && N32(b[80..84]) == m.offset && N16(b[84..86]) == m.count
    requires b[FIELD_SIZE..FIELD_SIZE + |m.data|] == m.data
    requires m.operation == DATA ==> m.count == |m.data|
    requires m.operation != DATA ==> m.data == []
    ensures Spelled(b) == m
  {
    hide N16, N32, ParseManifest;
  }

  /** The parts of a field put back together. */
  lemma Rejoined(b: Bytes, n: nat)
    requires FIELD_SIZE + n <= |b|
    ensures b == b[..12] + (b[12..28] + (b[28..80] + (b[80..88] + (b[FIELD_SIZE..FIELD_SIZE + n] + b[FIELD_SIZE + n..]))))
  {
  }

  lemma DecodedParts(b: Bytes)
    requires |b| >= 4 && DecodeField(b).Found?
    ensures FIELD_SIZE <= |b| <= MAX_FIELD_SIZE && Supported(b)
    ensures var m := DecodeField(b).message;
      && Typed(m) && Valid(m) && FieldLength(m) == |b| && FIELD_SIZE + |m.data| <= |b|
      && b[9] == m.operation && N16(b[10..12]) == m.result && b[12..28] == m.id
      && ParseManifest(b[28..80]) == m.manifest && N32(b[80..84]) == m.offset && N16(b[84..86]) == m.count
      && b[86..88] == [0, 0]
      && b[FIELD_SIZE..FIELD_SIZE + |m.data|] == m.data && AllZero(b[FIELD_SIZE + |m.data|..])
  {
    hide ParseManifest, N32, N16, Valid, FieldLength, Expected;
    ExpectedIsLength(DecodeField(b).message);
  }

  /** Whatever a field decodes to is framed as that very field: no two fields spell one message. */
  lemma DecodedIsField(b: Bytes)
    requires |b| >= 4 && TypeOf(b) == EXTENSION_TYPE && N.LengthField(b) == |b| && DecodeField(b).Found?
    ensures var m := DecodeField(b).message; Typed(m) && Valid(m) && Field(m) == b
  {
    hide DecodeField, Metadata, ParseManifest, N32, U32, N16, U16, Valid, FieldLength, Lead, Position, TypeOf, N.LengthField,
      Supported, AllZero;
    DecodedParts(b);
    var m := DecodeField(b).message;
    LeadSpells(b, m.result);
    MetadataSpells(b[28..80]);
    PositionPlaces(b);
    PositionSpells(b[80..88], m.offset, m.count);
    AllZeroIsZeros(b[FIELD_SIZE + |m.data|..]);
    Rejoined(b, |m.data|);
  }

  lemma LeadSpells(b: Bytes, result: nat)
    requires FIELD_SIZE <= |b| < 0x1_0000 && TypeOf(b) == EXTENSION_TYPE && N.LengthField(b) == |b| && Supported(b)
    requires N16(b[10..12]) == result
    ensures Lead(b[9], result, |b|) == b[..12]
  {
    hide N16, U16;
    U16N16(b[..2]);
    U16N16(b[2..4]);
    U16N16(b[10..12]);
    assert b[..12] == b[..2] + (b[2..4] + (b[4..8] + ([b[8], b[9]] + b[10..12])));
  }

  lemma PositionPlaces(b: Bytes)
    requires |b| >= FIELD_SIZE
    ensures b[80..88][..4] == b[80..84] && b[80..88][4..6] == b[84..86] && b[80..88][6..8] == b[86..88]
  {
  }

  lemma PositionSpells(p: Bytes, offset: nat, count: nat)
    requires |p| == 8 && N32(p[..4]) == offset && N16(p[4..6]) == count && p[6..8] == [0, 0]
    ensures Position(offset, count) == p
  {
    hide N16, U16, N32, U32;
    U32N32(p[..4]);
    U16N16(p[4..6]);
    assert p == p[..4] + (p[4..6] + p[6..8]);
  }

  // ----- the extension region

  /** The fields an extension region divides into; None if it does not. */
  function Split(b: Bytes): (r: Option<seq<Bytes>>)
    decreases |b|
  {
    if b == [] then Some([])
    else if |b| < 4 || !N.LengthOk(b) then None
    else
      var l := N.LengthField(b);
      var rest := Split(b[l..]);
      if rest.None? then None else Some([b[..l]] + rest.value)
  }

  /** The fields of our type. */
  function Ours(fs: seq<Bytes>): seq<Bytes>
    requires forall i :: 0 <= i < |fs| ==> |fs[i]| >= 4
  {
    if fs == [] then []
    else (if TypeOf(fs[0]) == EXTENSION_TYPE then [fs[0]] else []) + Ours(fs[1..])
  }

  lemma {:induction false} SplitSizes(b: Bytes)
    requires Split(b).Some?
    ensures forall i :: 0 <= i < |Split(b).value| ==> |Split(b).value[i]| >= 4
    decreases |b|
  {
    if b != [] { SplitSizes(b[N.LengthField(b)..]); }
  }

  /** What an extension region holds: it must divide into fields, at most one of them ours. */
  function Content(b: Bytes): Decoded {
    if Split(b).None? then Malformed
    else
      SplitSizes(b);
      Sole(Ours(Split(b).value))
  }

  function Sole(ours: seq<Bytes>): Decoded {
    if ours == [] then Absent
    else if |ours| > 1 || |ours[0]| < 4 then Malformed
    else DecodeField(ours[0])
  }

  /** What the rest of a region adds to the outcome so far, one of our fields having been seen or not. */
  ghost function Continued(rest: Bytes, seen: bool, soFar: Decoded): Decoded {
    if Split(rest).None? then Malformed
    else
      SplitSizes(rest);
      var ours := Ours(Split(rest).value);
      if !seen then Sole(ours) else if ours == [] then soFar else Malformed
  }

  lemma SplitStep(b: Bytes)
    requires |b| >= 4 && N.LengthOk(b)
    ensures 4 <= N.LengthField(b) <= |b|
    ensures var rest := Split(b[N.LengthField(b)..]);
      Split(b) == if rest.None? then None else Some([b[..N.LengthField(b)]] + rest.value)
  {
    hide N16;
  }

  lemma OursStep(f: Bytes, fs: seq<Bytes>)
    requires |f| >= 4 && forall i :: 0 <= i < |fs| ==> |fs[i]| >= 4
    ensures Ours([f] + fs) == (if TypeOf(f) == EXTENSION_TYPE then [f] else []) + Ours(fs)
  {
    assert ([f] + fs)[1..] == fs;
  }

  /** Reading one field: a foreign one is skipped, a first one of ours is decoded, a second is refused. */
  lemma {:induction false} ContinuedStep(b: Bytes, seen: bool, soFar: Decoded)
    requires |b| >= 4 && N.LengthOk(b) && !soFar.Malformed?
    ensures 4 <= N.LengthField(b) <= |b|
    ensures var f, rest := b[..N.LengthField(b)], b[N.LengthField(b)..];
      Continued(b, seen, soFar) ==
        if TypeOf(f) != EXTENSION_TYPE then Continued(rest, seen, soFar)
        else if seen || DecodeField(f).Malformed? then Malformed
        else Continued(rest, true, DecodeField(f))
  {
    hide Split, Ours, TypeOf, DecodeField, N.LengthOk, N.LengthField;
    SplitStep(b);
    var l := N.LengthField(b);
    if Split(b[l..]).Some? {
      SplitSizes(b[l..]);
      OursStep(b[..l], Split(b[l..]).value);
    }
  }

  /** Scans the region field by field. */
  method DecodeFields(fields: Bytes) returns (r: Decoded)
    ensures r == Content(fields)
  {
    hide DecodeField, TypeOf, N.LengthOk, N.LengthField, Ours;
    var rest, seen := fields, false;
    r := Absent;
    while rest != []
      invariant Content(fields) == Continued(rest, seen, r) && !r.Malformed?
      invariant !seen ==> r == Absent
      decreases |rest|
    {
      if |rest| < 4 || !N.LengthOk(rest) { return Malformed; }
      ContinuedStep(rest, seen, r);
      var l := N.LengthField(rest);
      var f := rest[..l];
      rest := rest[l..];
      if TypeOf(f) == EXTENSION_TYPE {
        if seen { return Malformed; }
        seen := true;
        r := DecodeField(f);
        if r.Malformed? { return; }
      }
    }
    OursOfNone();
  }

  lemma OursOfNone()
    ensures Split([]) == Some([]) && Ours([]) == []
  {
  }

  // ----- a message among other fields

  /** Well-formed fields of other types. */
  ghost predicate Foreign(fs: seq<Bytes>) {
    N.FieldsOk(fs) && forall i :: 0 <= i < |fs| ==> TypeOf(fs[i]) != EXTENSION_TYPE
  }

  lemma {:induction false} SplitConcat(fs: seq<Bytes>)
    requires N.FieldsOk(fs)
    ensures Split(N.Concat(fs)) == Some(fs)
  {
    hide N.LengthOk, N.LengthField, N.FieldOk;
    if fs != [] {
      var f, rest := fs[0], N.Concat(fs[1..]);
      N.FieldAtLeast(f);
      N.LengthPrefix(f, rest);
      SplitStep(f + rest);
      Cut(f, rest);
      SplitConcat(fs[1..]);
      assert [f] + fs[1..] == fs;
    }
  }

  lemma {:induction false} ConcatSplit(b: Bytes)
    requires Split(b).Some?
    ensures N.FieldsOk(Split(b).value) && N.Concat(Split(b).value) == b
    decreases |b|
  {
    hide N.LengthOk, N.LengthField, N.FieldOk;
    if b != [] {
      var l := N.LengthField(b);
      N.FirstIsField(b);
      ConcatSplit(b[l..]);
      N.ConcatStep(b[..l], Split(b[l..]).value);
      assert b[..l] + b[l..] == b;
    }
  }

  lemma {:induction false} OursConcat(a: seq<Bytes>, b: seq<Bytes>)
    requires forall i :: 0 <= i < |a| ==> |a[i]| >= 4
    requires forall i :: 0 <= i < |b| ==> |b[i]| >= 4
    ensures Ours(a + b) == Ours(a) + Ours(b)
  {
    hide TypeOf;
    if a == [] {
      assert a + b == b;
    } else {
      assert (a + b)[1..] == a[1..] + b;
      OursConcat(a[1..], b);
    }
  }

  lemma {:induction false} ForeignIsNotOurs(fs: seq<Bytes>)
    requires N.FieldsOk(fs)
    ensures Foreign(fs) <==> Ours(fs) == []
  {
    hide TypeOf, N.LengthField;
    if fs != [] {
      ForeignIsNotOurs(fs[1..]);
      assert fs == [fs[0]] + fs[1..];
    }
  }

  /** A message framed among any other fields is what the region holds. */
  lemma {:induction false} FramedIsFound(m: Message, pre: seq<Bytes>, post: seq<Bytes>)
    requires Typed(m) && Valid(m) && Foreign(pre) && Foreign(post)
    ensures Content(N.Concat(pre + [Field(m)] + post)) == Found(m)
  {
    hide Field, DecodeField, TypeOf, N.LengthField, Split, Valid;
    var f := Field(m);
    FieldDecodes(m);
    SplitConcat(pre + [f] + post);
    ForeignIsNotOurs(pre);
    ForeignIsNotOurs(post);
    OursConcat(pre + [f], post);
    OursConcat(pre, [f]);
    OursStep(f, []);
    assert [f] + [] == [f];
  }

  /** A region that holds a message is its field among other fields, and nothing else. */
  lemma {:induction false} FoundWasFramed(b: Bytes) returns (pre: seq<Bytes>, post: seq<Bytes>)
    requires Content(b).Found?
    ensures var m := Content(b).message;
      Typed(m) && Valid(m) && Foreign(pre) && Foreign(post) && b == N.Concat(pre + [Field(m)] + post)
  {
    hide Field, DecodeField, TypeOf, Split, Valid;
    var fs := Split(b).value;
    ConcatSplit(b);
    var i := SoleAt(fs);
    pre, post := fs[..i], fs[i + 1..];
    assert fs == pre + [fs[i]] + post;
    DecodedIsField(fs[i]);
  }

  lemma {:induction false} SoleAt(fs: seq<Bytes>) returns (i: nat)
    requires N.FieldsOk(fs) && |Ours(fs)| == 1
    ensures i < |fs| && Ours(fs) == [fs[i]] && TypeOf(fs[i]) == EXTENSION_TYPE
    ensures Foreign(fs[..i]) && Foreign(fs[i + 1..])
  {
    hide TypeOf, N.LengthField;
    if TypeOf(fs[0]) == EXTENSION_TYPE {
      i := 0;
      ForeignIsNotOurs(fs[1..]);
    } else {
      i := SoleAt(fs[1..]);
      assert fs[1..][i + 1..] == fs[i + 2..];
      assert fs[..i + 1] == [fs[0]] + fs[1..][..i];
      i := i + 1;
    }
  }

  // ----- answering a request

  /** What an object built from a file promises: its manifest describes its bytes. */
  ghost predicate ObjectOk(o: Object) {
    ManifestTyped(o.manifest) && ManifestValid(o.manifest) && |o.data| == o.manifest.size
  }

  /** The stateless answer; None where the request is an error. */
  function Reply(req: Message, obj: Option<Object>): (r: Option<Message>)
    requires obj.Some? ==> ObjectOk(obj.value)
  {
    if !Valid(req) then None
    else if req.operation == PROBE then
      Some(Message(MANIFEST_REPLY, if obj.None? then NO_TABLE else OK, req.id,
                   if obj.None? then NO_MANIFEST else obj.value.manifest, 0, 0, []))
    else if req.operation == GET then
      if obj.None? || obj.value.manifest != req.manifest then
        Some(Message(DATA, NOT_FOUND, req.id, req.manifest, req.offset, 0, []))
      else
        var count := ChunkLength(req.manifest.size, req.offset);
        Some(Message(DATA, OK, req.id, req.manifest, req.offset, count, obj.value.data[req.offset..req.offset + count]))
    else None
  }

  /** A receiver takes this as the answer to that request. */
  predicate Answers(req: Message, m: Message) {
    && Valid(m) && m.id == req.id && m.operation == req.operation + 1
    && (req.operation == GET ==> m.manifest == req.manifest && m.offset == req.offset)
  }

  /** Every probe and chunk request has an answer; it can be framed, and never in more bytes than the request. */
  lemma ReplyFits(req: Message, obj: Option<Object>)
    requires Typed(req) && (obj.Some? ==> ObjectOk(obj.value))
    ensures Reply(req, obj).Some? <==> Valid(req) && (req.operation == PROBE || req.operation == GET)
    ensures Reply(req, obj).Some? ==>
      var r := Reply(req, obj).value;
      Typed(r) && Answers(req, r) && FieldLength(r) <= FieldLength(req)
  {
  }
}
