/**
 The NTP packet: the fixed header of RFC 5905 section 7.3, and the extension fields and
 message authentication code that may follow it (RFC 7822).
 */
module NtpPacket {
  import opened Basics
  import opened Bytes

  const VERSION: nat := 4
  const HEADER_SIZE: nat := 48
  const MAC_SIZE_CMAC: nat := 20
  const MAC_SIZE_SHA1: nat := 24
  const CRYPTO_NAK_SIZE: nat := 4
  const MIN_EXTENSION: nat := 16

  /** Timestamps and short-format values are kept as the integers on the wire; poll and precision are signed. */
  datatype Packet = Packet(
    leap: nat, version: nat, mode: nat, stratum: nat, poll: int, precision: int,
    rootDelay: nat, rootDispersion: nat, refId: Bytes,
    referenceTime: nat, originTime: nat, receiveTime: nat, transmitTime: nat)

  /** A trailer.  A crypto-NAK is key id zero with no digest. */
  datatype Mac = Mac(keyId: nat, digest: Bytes)

  datatype Error = Short | BadVersion | Trailer

  datatype Decoded = Failed(error: Error) | Ok(packet: Packet, mac: Option<Mac>, macOffset: nat)

  predicate IsCryptoNAK(m: Mac) {
    m.keyId == 0 && m.digest == []
  }

  // ----- the header

  ghost predicate Typed(p: Packet) {
    && p.leap < 4 && p.version < 8 && p.mode < 8 && p.stratum < 256
    && -128 <= p.poll < 128 && -128 <= p.precision < 128
    && p.rootDelay < 0x1_0000_0000 && p.rootDispersion < 0x1_0000_0000 && |p.refId| == 4
    && p.referenceTime < 0x1_0000_0000_0000_0000 && p.originTime < 0x1_0000_0000_0000_0000
    && p.receiveTime < 0x1_0000_0000_0000_0000 && p.transmitTime < 0x1_0000_0000_0000_0000
  }

  function Signed(b: byte): int {
    if b < 128 then b else b - 256
  }

  function Unsigned(v: int): byte
    requires -128 <= v < 128
  {
    if v < 0 then v + 256 else v
  }

  function FirstFour(p: Packet): (b: Bytes)
    requires Typed(p)
    ensures |b| == 4
  {
    [p.leap * 64 + p.version * 8 + p.mode, p.stratum, Unsigned(p.poll), Unsigned(p.precision)]
  }

  function Times(p: Packet): (b: Bytes)
    requires Typed(p)
    ensures |b| == 32
  {
    U64(p.referenceTime) + (U64(p.originTime) + (U64(p.receiveTime) + U64(p.transmitTime)))
  }

  /** The 48-byte encoding. */
  function Marshal(p: Packet): (b: Bytes)
    requires Typed(p)
    ensures |b| == HEADER_SIZE
  {
    FirstFour(p) + (U32(p.rootDelay) + (U32(p.rootDispersion) + (p.refId + Times(p))))
  }

  /** Appends the encoding, filled in field by field. */
  method AppendTo(p: Packet, dst: Bytes) returns (out: Bytes)
    requires Typed(p)
    ensures out == dst + Marshal(p)
  {
    hide U32, U64;
    var h := new byte[HEADER_SIZE];
    h[0] := p.leap * 64 + p.version * 8 + p.mode;
    h[1] := p.stratum;
    h[2] := Unsigned(p.poll);
    h[3] := Unsigned(p.precision);
    ghost var b := FirstFour(p);
    Put(h, 4, U32(p.rootDelay), b);
    b := b + U32(p.rootDelay);
    Put(h, 8, U32(p.rootDispersion), b);
    b := b + U32(p.rootDispersion);
    Put(h, 12, p.refId, b);
    b := b + p.refId;
    Put(h, 16, U64(p.referenceTime), b);
    b := b + U64(p.referenceTime);
    Put(h, 24, U64(p.originTime), b);
    b := b + U64(p.originTime);
    Put(h, 32, U64(p.receiveTime), b);
    b := b + U64(p.receiveTime);
    Put(h, 40, U64(p.transmitTime), b);
    b := b + U64(p.transmitTime);
    MarshalInOrder(p);
    assert h[..] == h[..HEADER_SIZE] == b;
    out := dst + h[..];
  }

  lemma MarshalInOrder(p: Packet)
    requires Typed(p)
    ensures Marshal(p) == FirstFour(p) + U32(p.rootDelay) + U32(p.rootDispersion) + p.refId
      + U64(p.referenceTime) + U64(p.originTime) + U64(p.receiveTime) + U64(p.transmitTime)
  {
    hide FirstFour, U32, U64;
  }

  function ParseHeader(h: Bytes): (p: Packet)
    requires |h| == HEADER_SIZE
    ensures Typed(p)
  {
    Packet(h[0] / 64, h[0] / 8 % 8, h[0] % 8, h[1], Signed(h[2]), Signed(h[3]),
           N32(h[4..8]), N32(h[8..12]), h[12..16], N64(h[16..24]), N64(h[24..32]), N64(h[32..40]), N64(h[40..48]))
  }

  lemma TimesParse(h: Bytes, p: Packet)
    requires |h| == HEADER_SIZE && Typed(p) && h[16..] == Times(p)
    ensures N64(h[16..24]) == p.referenceTime && N64(h[24..32]) == p.originTime
    ensures N64(h[32..40]) == p.receiveTime && N64(h[40..48]) == p.transmitTime
  {
    hide N64, U64;
    var a, b, c, d := U64(p.referenceTime), U64(p.originTime), U64(p.receiveTime), U64(p.transmitTime);
    var t := h[16..];
    Cut(a, b + (c + d));
    Cut(b, c + d);
    Cut(c, d);
    assert t[..8] == h[16..24] && t[8..] == b + (c + d);
    assert t[8..][..8] == h[24..32] && t[8..][8..] == c + d;
    assert t[8..][8..][..8] == h[32..40] && t[8..][8..][8..] == h[40..48];
    N64U64(p.referenceTime);
    N64U64(p.originTime);
    N64U64(p.receiveTime);
    N64U64(p.transmitTime);
  }

  /** Parsing undoes encoding. */
  lemma ParseMarshal(p: Packet)
    requires Typed(p)
    ensures ParseHeader(Marshal(p)) == p
  {
    hide N32, U32, N64, U64, Times;
    var h := Marshal(p);
    var a, b, c, d := FirstFour(p), U32(p.rootDelay), U32(p.rootDispersion), p.refId;
    Cut(a, b + (c + (d + Times(p))));
    Cut(b, c + (d + Times(p)));
    Cut(c, d + Times(p));
    Cut(d, Times(p));
    var r := h[4..];
    assert h[..4] == a && r == b + (c + (d + Times(p)));
    assert r[..4] == h[4..8] && r[4..] == c + (d + Times(p));
    assert r[4..][..4] == h[8..12] && r[4..][4..] == d + Times(p);
    assert r[4..][4..][..4] == h[12..16] && r[4..][4..][4..] == h[16..] == Times(p);
    assert h[0] == a[0] && h[1] == a[1] && h[2] == a[2] && h[3] == a[3];
    FirstByte(p);
    TimesParse(h, p);
    N32U32(p.rootDelay);
    N32U32(p.rootDispersion);
  }

  /** Encoding undoes parsing: every byte of a header is accounted for. */
  lemma MarshalParse(h: Bytes)
    requires |h| == HEADER_SIZE
    ensures Marshal(ParseHeader(h)) == h
  {
    hide N32, U32, N64, U64;
    var p := ParseHeader(h);
    U32N32(h[4..8]);
    U32N32(h[8..12]);
    U64N64(h[16..24]);
    U64N64(h[24..32]);
    U64N64(h[32..40]);
    U64N64(h[40..48]);
    assert FirstFour(p) == h[..4];
    assert Times(p) == h[16..];
    assert h == h[..4] + (h[4..8] + (h[8..12] + (h[12..16] + h[16..])));
  }

  lemma FirstByte(p: Packet)
    requires Typed(p)
    ensures var v := p.leap * 64 + p.version * 8 + p.mode;
      v / 64 == p.leap && v / 8 % 8 == p.version && v % 8 == p.mode
  {
  }

  // ----- the trailer

  /** The length field of what might be an extension field. */
  function LengthField(rest: Bytes): nat
    requires |rest| >= 4
  {
    N16(rest[2..4])
  }

  predicate LengthOk(rest: Bytes)
    requires |rest| >= 4
  {
    var l := LengthField(rest);
    l >= MIN_EXTENSION && l % 4 == 0 && l <= |rest|
  }

  /** How many bytes of what follows the header are extension fields; None if they are malformed. */
  function Walk(rest: Bytes): (r: Option<nat>)
    ensures r.Some? ==> r.value <= |rest| && |rest| - r.value <= MAC_SIZE_SHA1
    decreases |rest|
  {
    if |rest| <= MAC_SIZE_SHA1 then Some(0)
    else if !LengthOk(rest) then None
    else
      var l := LengthField(rest);
      var more := Walk(rest[l..]);
      if more.None? then None else Some(l + more.value)
  }

  /** The trailer that the remaining bytes make; None if they make none. */
  function TrailerOf(t: Bytes): Option<Option<Mac>> {
    if |t| == 0 then Some(None)
    else if |t| == CRYPTO_NAK_SIZE then if N32(t) == 0 then Some(Some(Mac(0, []))) else None
    else if |t| == MAC_SIZE_CMAC || |t| == MAC_SIZE_SHA1 then Some(Some(Mac(N32(t[..4]), t[4..])))
    else None
  }

  /** The trailers there are: none, a crypto-NAK of four zero bytes, and key id and digest in 20 or 24 bytes. */
  lemma TrailersExactly(t: Bytes)
    ensures TrailerOf(t) == Some(None) <==> t == []
    ensures TrailerOf(t) == Some(Some(Mac(0, []))) <==> t == Zeros(4)
    ensures TrailerOf(t).None? <==> |t| !in {0, 20, 24} && t != Zeros(4)
    ensures |t| == 20 || |t| == 24 ==> TrailerOf(t) == Some(Some(Mac(N32(t[..4]), t[4..])))
  {
    if |t| == 4 && N32(t) == 0 { assert t == Zeros(4); }
  }

  /** What a datagram decodes to. */
  function Decoding(b: Bytes): Decoded {
    if |b| < HEADER_SIZE then Failed(Short)
    else
      var p := ParseHeader(b[..HEADER_SIZE]);
      if p.version == 0 || p.version > VERSION then Failed(BadVersion)
      else
        var w := Walk(b[HEADER_SIZE..]);
        if w.None? || TrailerOf(b[HEADER_SIZE + w.value..]).None? then Failed(Trailer)
        else
          var m := TrailerOf(b[HEADER_SIZE + w.value..]).value;
          Ok(p, m, if m.None? then |b| else HEADER_SIZE + w.value)
  }

  /** Walks the extension fields as far as they reach. */
  method Decode(b: Bytes) returns (r: Decoded)
    ensures r == Decoding(b)
  {
    hide ParseHeader, LengthOk, LengthField, TrailerOf;
    if |b| < HEADER_SIZE { return Failed(Short); }
    var p := ParseHeader(b[..HEADER_SIZE]);
    if p.version == 0 || p.version > VERSION { return Failed(BadVersion); }
    var off := HEADER_SIZE;
    ghost var w := Walk(b[HEADER_SIZE..]);
    while |b| - off > MAC_SIZE_SHA1
      invariant HEADER_SIZE <= off <= |b|
      invariant var v := Walk(b[off..]);
        (w.None? <==> v.None?) && (w.Some? ==> HEADER_SIZE + w.value == off + v.value)
      decreases |b| - off
    {
      if !LengthOk(b[off..]) { return Failed(Trailer); }
      var l := LengthField(b[off..]);
      LengthBound(b[off..]);
      assert b[off..][l..] == b[off + l..];
      off := off + l;
    }
    var t := b[off..];
    var m := TrailerOf(t);
    if m.None? { return Failed(Trailer); }
    r := Ok(p, m.value, if m.value.None? then |b| else off);
  }

  lemma LengthBound(rest: Bytes)
    requires |rest| >= 4 && LengthOk(rest)
    ensures MIN_EXTENSION <= LengthField(rest) <= |rest|
  {
  }

  // ----- results about framing

  /** An extension field: at least sixteen bytes, a multiple of four, its length in its own header. */
  ghost predicate FieldOk(f: Bytes) {
    |f| >= MIN_EXTENSION && |f| % 4 == 0 && LengthField(f) == |f|
  }

  ghost predicate FieldsOk(fs: seq<Bytes>) {
    forall i :: 0 <= i < |fs| ==> FieldOk(fs[i])
  }

  function Concat(fs: seq<Bytes>): Bytes {
    if fs == [] then [] else fs[0] + Concat(fs[1..])
  }

  lemma {:induction false} ConcatLength(fs: seq<Bytes>)
    requires FieldsOk(fs) && fs != []
    ensures |Concat(fs)| >= MIN_EXTENSION * |fs| && |Concat(fs)| >= |fs[|fs| - 1]|
  {
    if |fs| > 1 { ConcatLength(fs[1..]); } else { assert Concat(fs[1..]) == []; }
  }

  lemma WalkField(f: Bytes, rest: Bytes)
    requires FieldOk(f) && |f| + |rest| > MAC_SIZE_SHA1
    ensures Walk(f + rest) == if Walk(rest).None? then None else Some(|f| + Walk(rest).value)
  {
    hide N16, LengthField, LengthOk, Walk;
    LengthPrefix(f, rest);
    Cut(f, rest);
    WalkUnfold(f + rest);
  }

  lemma WalkUnfold(b: Bytes)
    requires |b| > MAC_SIZE_SHA1 && LengthOk(b)
    ensures var w := Walk(b[LengthField(b)..]);
      Walk(b) == if w.None? then None else Some(LengthField(b) + w.value)
  {
    hide N16, LengthField;
  }

  lemma LengthPrefix(f: Bytes, rest: Bytes)
    requires FieldOk(f)
    ensures LengthField(f + rest) == |f| && LengthOk(f + rest)
  {
    hide N16;
    assert (f + rest)[2..4] == f[2..4];
  }

  /** What the length field marks off is a well-formed field. */
  lemma FirstIsField(b: Bytes)
    requires |b| >= 4 && LengthOk(b)
    ensures MIN_EXTENSION <= LengthField(b) <= |b| && FieldOk(b[..LengthField(b)])
  {
    hide N16;
    assert b[..LengthField(b)][2..4] == b[2..4];
  }

  lemma ConcatStep(f: Bytes, fs: seq<Bytes>)
    ensures Concat([f] + fs) == f + Concat(fs)
  {
    assert ([f] + fs)[1..] == fs;
  }

  /**
   Framing is right for a list of well-formed fields and a trailer of at most 24 bytes exactly
   when the last field and the trailer together exceed what could be a trailer alone.
   */
  lemma {:induction false} FramedExactly(fs: seq<Bytes>, t: Bytes)
    requires FieldsOk(fs) && |t| <= MAC_SIZE_SHA1
    ensures Walk(Concat(fs) + t) == Some(|Concat(fs)|) <==> fs == [] || |fs[|fs| - 1]| + |t| > MAC_SIZE_SHA1
  {
    hide FieldOk, LengthOk, LengthField;
    if fs == [] {
      assert Concat(fs) + t == t;
    } else {
      var f, rest := fs[0], Concat(fs[1..]);
      assert Concat(fs) + t == f + (rest + t);
      FieldAtLeast(f);
      if |fs| == 1 {
        assert rest == [] && rest + t == t;
      } else {
        ConcatLength(fs[1..]);
        FramedExactly(fs[1..], t);
      }
      if |f| + |rest + t| > MAC_SIZE_SHA1 { WalkField(f, rest + t); }
    }
  }

  lemma FieldAtLeast(f: Bytes)
    requires FieldOk(f)
    ensures |f| >= MIN_EXTENSION
  {
  }

  /** The datagram made of a header, extension fields and a trailer. */
  function Assemble(p: Packet, fs: seq<Bytes>, t: Bytes): Bytes
    requires Typed(p)
  {
    Marshal(p) + (Concat(fs) + t)
  }

  /**
   A datagram assembled from a header, well-formed fields and a trailer decodes back to exactly
   those exactly when there are no fields or the last of them cannot be mistaken for a trailer.
   */
  lemma {:induction false} AssembledDecodes(p: Packet, fs: seq<Bytes>, t: Bytes)
    requires Typed(p) && 1 <= p.version <= VERSION && FieldsOk(fs) && TrailerOf(t).Some?
    ensures Decoding(Assemble(p, fs, t)) == Ok(p, TrailerOf(t).value, HEADER_SIZE + |Concat(fs)|)
      <==> fs == [] || |fs[|fs| - 1]| + |t| > MAC_SIZE_SHA1
  {
    hide ParseHeader, Marshal, Walk;
    var b, rest := Assemble(p, fs, t), Concat(fs) + t;
    Cut(Marshal(p), rest);
    ParseMarshal(p);
    FramedExactly(fs, t);
    Cut(Concat(fs), t);
    var w := Walk(rest);
    if w.Some? {
      assert b[HEADER_SIZE + w.value..] == rest[w.value..];
    }
  }

  /** Whatever decodes was assembled from the decoded header, well-formed fields and the trailer. */
  lemma {:induction false} DecodedWasAssembled(b: Bytes) returns (fs: seq<Bytes>, t: Bytes)
    requires Decoding(b).Ok?
    ensures Typed(Decoding(b).packet) && FieldsOk(fs) && b == Assemble(Decoding(b).packet, fs, t)
    ensures TrailerOf(t) == Some(Decoding(b).mac) && Decoding(b).macOffset == HEADER_SIZE + |Concat(fs)|
  {
    hide Walk, Marshal;
    var rest := b[HEADER_SIZE..];
    var w := Walk(rest).value;
    fs := WalkSplits(rest);
    t := rest[w..];
    assert t == b[HEADER_SIZE + w..];
    assert rest == Concat(fs) + t;
    MarshalParse(b[..HEADER_SIZE]);
    assert b == b[..HEADER_SIZE] + rest;
  }

  /** A 20-byte code after any list of well-formed fields is found, at the end. */
  lemma {:induction false} MacAtEnd(p: Packet, fs: seq<Bytes>, t: Bytes)
    requires Typed(p) && 1 <= p.version <= VERSION && FieldsOk(fs) && |t| == MAC_SIZE_CMAC
    ensures Decoding(Assemble(p, fs, t)) == Ok(p, Some(Mac(N32(t[..4]), t[4..])), HEADER_SIZE + |Concat(fs)|)
  {
    AssembledDecodes(p, fs, t);
    if fs != [] { FieldAtLeast(fs[|fs| - 1]); }
  }

  /** A crypto-NAK after a sixteen-byte field is swallowed: the two together are read as a code. */
  lemma {:induction false} NakAfterShortField(p: Packet, f: Bytes)
    requires Typed(p) && 1 <= p.version <= VERSION && FieldOk(f) && |f| == MIN_EXTENSION
    ensures var nak := Zeros(CRYPTO_NAK_SIZE);
      && TrailerOf(nak) == Some(Some(Mac(0, [])))
      && Decoding(Assemble(p, [f], nak)) == Ok(p, Some(Mac(N32(f[..4]), f[4..] + nak)), HEADER_SIZE)
  {
    hide ParseHeader, Marshal;
    var t := f + Zeros(CRYPTO_NAK_SIZE);
    assert [f][1..] == [] && Concat([f]) == f;
    Cut(Marshal(p), t);
    ParseMarshal(p);
    assert t[..4] == f[..4] && t[4..] == f[4..] + Zeros(CRYPTO_NAK_SIZE);
  }

  /** Whatever is accepted splits into well-formed fields and the trailer. */
  lemma {:induction false} WalkSplits(rest: Bytes) returns (fs: seq<Bytes>)
    requires Walk(rest).Some?
    ensures FieldsOk(fs) && Concat(fs) == rest[..Walk(rest).value]
    decreases |rest|
  {
    hide LengthOk, LengthField, FieldOk;
    fs := [];
    if |rest| > MAC_SIZE_SHA1 {
      FirstIsField(rest);
      var l := LengthField(rest);
      var tail := WalkSplits(rest[l..]);
      fs := [rest[..l]] + tail;
      ConcatStep(rest[..l], tail);
      assert rest[..l] + rest[l..][..Walk(rest[l..]).value] == rest[..Walk(rest).value];
    }
  }
}
