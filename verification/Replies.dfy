/**
 The reply to one time request as a value: authentication of the request, the reply packet, the
 leap-table extension, and the code at its end.  AES-CMAC is an unspecified function with a
 sixteen-byte result.
 */
module Replies {
  import opened Basics
  import opened Bytes
  import N = NtpPacket
  import T = LeapTable
  import W = ClpsWire

  const LEAP_UNSYNC: nat := 3
  const MODE_RESERVED: nat := 0
  const MODE_CLIENT: nat := 3
  const MODE_SERVER: nat := 4
  const UNSYNC_STRATUM: nat := 16

  /** Sixteen seconds in the short format. */
  const UNSYNC_DISPERSION: nat := 16 * 0x1_0000

  /** "RATE". */
  const KISS_RATE: Bytes := [82, 65, 84, 69]

  /** "INIT". */
  const KISS_INIT: Bytes := [73, 78, 73, 84]

  /** What the engine publishes of itself, in wire formats. */
  datatype Status = Status(
    synced: bool, leap: nat, stratum: nat, precision: int, rootDelay: nat, rootDispersion: nat,
    refId: Bytes, referenceTime: nat)

  ghost predicate StatusOk(s: Status) {
    && s.leap < 4 && s.stratum < 256 && -128 <= s.precision < 128
    && s.rootDelay < 0x1_0000_0000 && s.rootDispersion < 0x1_0000_0000 && |s.refId| == 4
    && s.referenceTime < 0x1_0000_0000_0000_0000
  }

  /** The clocks read and the status seen while one request is handled. */
  datatype Moment = Moment(receive: nat, transmit: nat, status: Status, minPoll: int)

  ghost predicate MomentOk(now: Moment) {
    && now.receive < 0x1_0000_0000_0000_0000 && now.transmit < 0x1_0000_0000_0000_0000
    && StatusOk(now.status) && -128 <= now.minPoll < 128
  }

  // ----- authentication

  datatype Ring = Ring(keys: map<nat, Bytes>, cmac: (Bytes, Bytes) -> Bytes)

  ghost predicate RingOk(r: Ring) {
    && (forall id :: id in r.keys ==> 0 < id < 0x1_0000_0000)
    && forall secret, b :: |r.cmac(secret, b)| == 16
  }

  /** The code of a key over some bytes. */
  function CodeOf(r: Ring, id: nat, b: Bytes): (t: Bytes)
    requires RingOk(r) && id in r.keys
    ensures |t| == N.MAC_SIZE_CMAC
  {
    U32(id) + r.cmac(r.keys[id], b)
  }

  function Signed(r: Ring, key: Option<nat>, b: Bytes): Bytes
    requires RingOk(r) && (key.Some? ==> key.value in r.keys)
  {
    if key.None? then b else b + CodeOf(r, key.value, b)
  }

  /** Whose key a datagram's trailer proves: nobody's if it has none, and None if it proves false. */
  function Verify(r: Ring, datagram: Bytes, mac: Option<N.Mac>, macOffset: nat): (k: Option<Option<nat>>)
    requires macOffset <= |datagram|
    ensures k.Some? && k.value.Some? ==> k.value.value in r.keys
  {
    if mac.None? || N.IsCryptoNAK(mac.value) then Some(None)
    else
      var m := mac.value;
      if m.keyId in r.keys && |m.digest| == 16 && r.cmac(r.keys[m.keyId], datagram[..macOffset]) == m.digest then
        Some(Some(m.keyId))
      else None
  }

  /** A decoded datagram's MAC begins within it. */
  lemma OffsetWithin(b: Bytes)
    requires N.Decoding(b).Ok?
    ensures N.HEADER_SIZE <= N.Decoding(b).macOffset <= |b|
    ensures var m := N.Decoding(b).mac;
      m.Some? ==> |b| - N.Decoding(b).macOffset == if N.IsCryptoNAK(m.value) then 4 else 4 + |m.value.digest|
  {
    hide N.ParseHeader, N.Walk;
  }

  function Proven(r: Ring, b: Bytes): Option<Option<nat>>
    requires N.Decoding(b).Ok?
  {
    OffsetWithin(b);
    Verify(r, b, N.Decoding(b).mac, N.Decoding(b).macOffset)
  }

  /**
   A datagram proves a key exactly when it ends in that key's code over all the bytes before it; one
   without a trailer, or with a crypto-NAK, counts as unsigned, and every other trailer proves false.
   */
  lemma {:induction false} ProvenExactly(r: Ring, b: Bytes, id: nat)
    requires RingOk(r) && N.Decoding(b).Ok?
    ensures N.HEADER_SIZE <= N.Decoding(b).macOffset <= |b|
    ensures var body, trailer := b[..N.Decoding(b).macOffset], b[N.Decoding(b).macOffset..];
      && (Proven(r, b) == Some(None) <==> trailer == [] || trailer == Zeros(4))
      && (Proven(r, b) == Some(Some(id)) <==> id in r.keys && trailer == CodeOf(r, id, body))
  {
    hide N.Decoding, N32, U32, Zeros, N.TrailerOf;
    OffsetWithin(b);
    TrailerIs(b);
    var body, trailer := b[..N.Decoding(b).macOffset], b[N.Decoding(b).macOffset..];
    TrailerMeans(trailer);
    if id in r.keys { CodeMeans(r, id, body, trailer); }
  }

  lemma TrailerIs(b: Bytes)
    requires N.Decoding(b).Ok? && N.Decoding(b).macOffset <= |b|
    ensures N.TrailerOf(b[N.Decoding(b).macOffset..]) == Some(N.Decoding(b).mac)
  {
    hide N.ParseHeader, N.Walk, N32;
    var w := N.Walk(b[N.HEADER_SIZE..]);
    assert b[N.Decoding(b).macOffset..] == b[N.HEADER_SIZE + w.value..];
  }

  lemma TrailerMeans(t: Bytes)
    requires N.TrailerOf(t).Some?
    ensures var m := N.TrailerOf(t).value;
      && (m.None? || N.IsCryptoNAK(m.value) <==> t == [] || t == Zeros(4))
      && (m.Some? && !N.IsCryptoNAK(m.value) ==> |t| >= 20 && m.value.keyId == N32(t[..4]) && m.value.digest == t[4..])
  {
    if |t| == 4 { ZeroTrailer(t); }
  }

  lemma ZeroTrailer(t: Bytes)
    requires |t| == 4
    ensures N32(t) == 0 <==> t == Zeros(4)
  {
    if N32(t) == 0 { assert t == Zeros(4); }
  }

  lemma CodeMeans(r: Ring, id: nat, body: Bytes, t: Bytes)
    requires RingOk(r) && id in r.keys
    ensures t == CodeOf(r, id, body) <==> |t| == N.MAC_SIZE_CMAC && N32(t[..4]) == id && t[4..] == r.cmac(r.keys[id], body)
  {
    hide N32, U32;
    CodeParts(r, id, body);
    if |t| == N.MAC_SIZE_CMAC && N32(t[..4]) == id && t[4..] == r.cmac(r.keys[id], body) {
      U32N32(t[..4]);
      assert t == t[..4] + t[4..];
    }
  }

  // ----- the packet

  function RefIdOf(s: Status): Bytes {
    if !s.synced && s.refId == Zeros(4) then KISS_INIT else s.refId
  }

  /** The host's own reference, and a code in its place only where an unsynchronized host has none. */
  lemma ReferenceIsNamed(s: Status)
    ensures s.synced || s.refId != Zeros(4) ==> RefIdOf(s) == s.refId
    ensures !s.synced ==> RefIdOf(s) != Zeros(4) && (s.refId == Zeros(4) ==> RefIdOf(s) == KISS_INIT)
  {
    assert KISS_INIT[0] != Zeros(4)[0];
  }

  function ReplyPacket(req: N.Packet, now: Moment, refId: Bytes, special: bool): (p: N.Packet)
    requires N.Typed(req) && MomentOk(now) && |refId| == 4
    ensures N.Typed(p) && p.version == req.version && p.mode == MODE_SERVER
    ensures p.originTime == req.transmitTime && p.receiveTime == now.receive && p.transmitTime == now.transmit
    ensures p.refId == refId && p.precision == now.status.precision
    ensures special ==> p.leap == LEAP_UNSYNC && p.rootDelay == 0 && p.referenceTime == 0
    ensures special && refId == KISS_RATE ==> p.stratum == 0 && p.poll == now.minPoll && p.rootDispersion == 0
    ensures special && refId != KISS_RATE ==>
      p.stratum == UNSYNC_STRATUM && p.poll == req.poll && p.rootDispersion == UNSYNC_DISPERSION
    ensures !special ==>
      && p.leap == now.status.leap && p.stratum == now.status.stratum && p.poll == req.poll
      && p.rootDelay == now.status.rootDelay && p.rootDispersion == now.status.rootDispersion
      && p.referenceTime == now.status.referenceTime
  {
    var s := now.status;
    var p := N.Packet(s.leap, req.version, MODE_SERVER, s.stratum, req.poll, s.precision, s.rootDelay,
                      s.rootDispersion, refId, s.referenceTime, req.transmitTime, now.receive, now.transmit);
    if !special then p
    else
      var q := p.(leap := LEAP_UNSYNC, rootDelay := 0, referenceTime := 0);
      if refId == KISS_RATE then q.(stratum := 0, poll := now.minPoll, rootDispersion := 0)
      else q.(stratum := UNSYNC_STRATUM, rootDispersion := UNSYNC_DISPERSION)
  }

  /** The framed extension, if there is one. */
  function Fields(extension: Option<W.Message>): seq<Bytes>
    requires extension.Some? ==> W.Typed(extension.value) && W.Valid(extension.value)
  {
    if extension.None? then [] else [W.Field(extension.value)]
  }

  function Reply(r: Ring, p: N.Packet, extension: Option<W.Message>, key: Option<nat>): Bytes
    requires N.Typed(p) && RingOk(r) && (key.Some? ==> key.value in r.keys)
    requires extension.Some? ==> W.Typed(extension.value) && W.Valid(extension.value)
  {
    Signed(r, key, N.Marshal(p) + N.Concat(Fields(extension)))
  }

  function ExtensionSize(extension: Option<W.Message>): nat {
    if extension.None? then 0 else W.FieldLength(extension.value)
  }

  lemma FieldsSize(extension: Option<W.Message>)
    requires extension.Some? ==> W.Typed(extension.value) && W.Valid(extension.value)
    ensures N.FieldsOk(Fields(extension)) && |N.Concat(Fields(extension))| == ExtensionSize(extension)
  {
    hide W.Field, W.Valid;
    var fs := Fields(extension);
    if fs != [] {
      W.FieldDecodes(extension.value);
      assert fs[1..] == [];
    }
  }

  lemma ReplySize(r: Ring, p: N.Packet, extension: Option<W.Message>, key: Option<nat>)
    requires N.Typed(p) && RingOk(r) && (key.Some? ==> key.value in r.keys)
    requires extension.Some? ==> W.Typed(extension.value) && W.Valid(extension.value)
    ensures |Reply(r, p, extension, key)| ==
      N.HEADER_SIZE + ExtensionSize(extension) + if key.Some? then N.MAC_SIZE_CMAC else 0
  {
    hide N.Marshal, Fields;
    FieldsSize(extension);
  }

  /**
   A signed reply is understood by whoever holds the key: it decodes to its packet, the key is
   proven, and the extension comes out as it went in.
   */
  lemma {:induction false} SignedReplyIsProven(r: Ring, p: N.Packet, extension: Option<W.Message>, key: nat)
    requires N.Typed(p) && 1 <= p.version <= N.VERSION && RingOk(r) && key in r.keys
    requires extension.Some? ==> W.Typed(extension.value) && W.Valid(extension.value)
    ensures var b := Reply(r, p, extension, Some(key));
      && N.Decoding(b).Ok? && N.Decoding(b).packet == p && Proven(r, b) == Some(Some(key))
      && N.HEADER_SIZE <= N.Decoding(b).macOffset <= |b|
      && W.Content(b[N.HEADER_SIZE..N.Decoding(b).macOffset]) ==
         if extension.None? then W.Absent else W.Found(extension.value)
  {
    hide N.Marshal, N.Decoding, N.Typed, N.Assemble, Fields, CodeOf, W.Content, W.Valid, W.Typed;
    var fs := Fields(extension);
    var body := N.Marshal(p) + N.Concat(fs);
    var t := CodeOf(r, key, body);
    var b := body + t;
    FieldsSize(extension);
    AssembledIs(p, fs, t);
    N.MacAtEnd(p, fs, t);
    CodeParts(r, key, body);
    Cut(body, t);
    Between(N.Marshal(p), N.Concat(fs), t);
    FieldsContent(extension);
  }

  lemma AssembledIs(p: N.Packet, fs: seq<Bytes>, t: Bytes)
    requires N.Typed(p)
    ensures N.Assemble(p, fs, t) == N.Marshal(p) + N.Concat(fs) + t
  {
    hide N.Marshal, N.Concat;
    var a, b := N.Marshal(p), N.Concat(fs);
    assert a + (b + t) == a + b + t;
  }

  lemma Between(a: Bytes, b: Bytes, c: Bytes)
    ensures (a + b + c)[|a|..|a| + |b|] == b
  {
  }

  lemma CodeParts(r: Ring, key: nat, b: Bytes)
    requires RingOk(r) && key in r.keys
    ensures var t := CodeOf(r, key, b); N32(t[..4]) == key && t[4..] == r.cmac(r.keys[key], b)
  {
    hide N32, U32;
    Cut(U32(key), r.cmac(r.keys[key], b));
    N32U32(key);
  }

  lemma FieldsContent(extension: Option<W.Message>)
    requires extension.Some? ==> W.Typed(extension.value) && W.Valid(extension.value)
    ensures W.Content(N.Concat(Fields(extension))) == if extension.None? then W.Absent else W.Found(extension.value)
  {
    hide W.Field, W.Valid;
    if extension.Some? {
      var f := W.Field(extension.value);
      assert [] + [f] + [] == [f];
      W.FramedIsFound(extension.value, [], []);
    } else {
      W.OursOfNone();
    }
  }

  // ----- the leap-table extension

  /** Malformed, over budget, or the answer to put in the reply. */
  datatype Export = BadRequest | OverBudget | Answer(extension: Option<W.Message>)

  /** An object is offered only while it is current. */
  function Offered(current: Option<T.Object>, wall: int): Option<T.Object> {
    if current.Some? && (wall >= current.value.table.expiry || wall < current.value.table.baseline) then None else current
  }

  /** The distributor's part: the request's extension region, its budgets' decision and the object in force. */
  function ExportFor(region: Bytes, granted: bool, current: Option<T.Object>, wall: int): (e: Export)
    requires current.Some? ==> W.ObjectOk(current.value)
  {
    var c := W.Content(region);
    if c.Malformed? then BadRequest
    else if !c.Found? then Answer(None)
    else if !granted then OverBudget
    else
      var r := W.Reply(c.message, Offered(current, wall));
      if r.None? then BadRequest else Answer(r)
  }

  /** A table is offered exactly while it is in effect. */
  lemma OfferedExactly(current: Option<T.Object>, wall: int)
    ensures Offered(current, wall) ==
      if current.Some? && current.value.table.baseline <= wall < current.value.table.expiry then current else None
  {
  }

  /**
   What becomes of a request's extensions: none of ours ask for nothing, a request of ours is charged
   to the budgets and answered from what is offered, and anything else is refused.
   */
  lemma {:induction false} ExportExactly(region: Bytes, granted: bool, current: Option<T.Object>, wall: int)
    requires current.Some? ==> W.ObjectOk(current.value)
    ensures var c, e := W.Content(region), ExportFor(region, granted, current, wall);
      var asks := c.Found? && W.Valid(c.message) && (c.message.operation == W.PROBE || c.message.operation == W.GET);
      && (e == OverBudget <==> c.Found? && !granted)
      && (e == Answer(None) <==> !c.Found? && !c.Malformed?)
      && (e == BadRequest <==> c.Malformed? || (c.Found? && granted && !asks))
      && (asks && granted ==> e == Answer(W.Reply(c.message, Offered(current, wall))) && e.extension.Some?)
  {
    hide W.Content, W.Reply, W.Valid, W.Typed, W.Field, Offered;
    var c := W.Content(region);
    if c.Found? {
      var pre, post := W.FoundWasFramed(region);
      OfferedIs(current, wall);
      W.ReplyFits(c.message, Offered(current, wall));
    }
  }

  lemma OfferedIs(current: Option<T.Object>, wall: int)
    ensures Offered(current, wall) == None || Offered(current, wall) == current
  {
  }

  lemma {:induction false} ConcatHolds(pre: seq<Bytes>, f: Bytes, post: seq<Bytes>)
    ensures |N.Concat(pre + [f] + post)| >= |f|
  {
    if pre == [] {
      assert (pre + [f] + post)[0] == f;
    } else {
      assert (pre + [f] + post)[1..] == pre[1..] + [f] + post;
      ConcatHolds(pre[1..], f, post);
    }
  }

  /** An extension in the reply can be framed, and fits in the room the request's extensions took. */
  lemma {:induction false} ExportFits(region: Bytes, granted: bool, current: Option<T.Object>, wall: int)
    requires current.Some? ==> W.ObjectOk(current.value)
    ensures var e := ExportFor(region, granted, current, wall);
      e.Answer? && e.extension.Some? ==>
        W.Typed(e.extension.value) && W.Valid(e.extension.value) && W.FieldLength(e.extension.value) <= |region|
  {
    hide W.Content, W.Reply, W.Valid, W.Typed, W.Field, W.FieldLength;
    var c := W.Content(region);
    if c.Found? {
      var pre, post := W.FoundWasFramed(region);
      ConcatHolds(pre, W.Field(c.message), post);
      W.ReplyFits(c.message, Offered(current, wall));
    }
  }
}
