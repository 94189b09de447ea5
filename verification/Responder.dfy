/**
 The request handler of one listener: screening, access, authentication, rate limiting, and the
 counters that account for every datagram.
 */
module Responder {
  import opened Basics
  import opened Bytes
  import opened Replies
  import N = NtpPacket
  import R = RateLimiter
  import T = LeapTable
  import W = ClpsWire

  /** A source address with its port; mapped addresses are already unmapped. */
  datatype Client = Client(addr: nat, isV4: bool, port: nat)

  /** The access rules, the address mask of a bucket, the keys, and which of them may export. */
  datatype Config = Config(
    martian: Client -> bool, permitted: Client -> bool, required: Client -> nat, mask: Client -> nat,
    ring: Ring, exporters: set<nat>, kod: bool)

  /** What one call sees of the world around it; `granted` is the export budgets' decision. */
  datatype World = World(moment: Moment, mono: real, wall: int, granted: bool, current: Option<T.Object>)

  ghost predicate WorldOk(w: World) {
    MomentOk(w.moment) && (w.current.Some? ==> W.ObjectOk(w.current.value))
  }

  /** A datagram as the socket delivers it: too long to read whole, or addressed to more than this host. */
  datatype Arrival = Arrival(datagram: Bytes, client: Client, world: World, oversize: bool, misdirected: bool)

  // ----- counters

  datatype Outcome = Served | Denied | Martian | RateLimited | BadAuth | BadVersion | NonClient | Malformed | Oversize

  /** The outcome counters: every datagram adds to exactly one. */
  datatype Tally = Tally(
    served: nat, denied: nat, martian: nat, rateLimited: nat, badAuth: nat, badVersion: nat, nonClient: nat,
    malformed: nat, oversize: nat)

  /** The finer breakdowns, and the share of the client gauge this family carries. */
  datatype Detail = Detail(unsynced: nat, kod: nat, modes: seq<nat>, versions: seq<nat>, clients: int)

  datatype Counters = Counters(tally: Tally, detail: Detail)

  function Add(t: Tally, o: Outcome): Tally {
    match o
    case Served => t.(served := t.served + 1)
    case Denied => t.(denied := t.denied + 1)
    case Martian => t.(martian := t.martian + 1)
    case RateLimited => t.(rateLimited := t.rateLimited + 1)
    case BadAuth => t.(badAuth := t.badAuth + 1)
    case BadVersion => t.(badVersion := t.badVersion + 1)
    case NonClient => t.(nonClient := t.nonClient + 1)
    case Malformed => t.(malformed := t.malformed + 1)
    case Oversize => t.(oversize := t.oversize + 1)
  }

  function Requests(t: Tally): nat {
    t.served + t.denied + t.martian + t.rateLimited + t.badAuth + t.badVersion + t.nonClient + t.malformed
      + t.oversize
  }

  function Sum(s: seq<nat>): nat {
    if s == [] then 0 else s[0] + Sum(s[1..])
  }

  lemma {:induction false} SumBump(s: seq<nat>, i: nat)
    requires i < |s|
    ensures Sum(s[i := s[i] + 1]) == Sum(s) + 1
  {
    if i == 0 {
      assert s[0 := s[0] + 1][1..] == s[1..];
    } else {
      assert s[i := s[i] + 1][1..] == s[1..][i - 1 := s[1..][i - 1] + 1];
      SumBump(s[1..], i - 1);
    }
  }

  /** The breakdowns add up: modes to the non-clients, versions to the served, and the subsets are subsets. */
  ghost predicate CountersOk(c: Counters) {
    && |c.detail.modes| == 8 && Sum(c.detail.modes) == c.tally.nonClient
    && |c.detail.versions| == N.VERSION + 1 && Sum(c.detail.versions) == c.tally.served
    && c.detail.unsynced <= c.tally.served && c.detail.kod <= c.tally.rateLimited
  }

  function Counted(c: Counters, o: Outcome): Counters {
    c.(tally := Add(c.tally, o))
  }

  function CountedNonClient(c: Counters, mode: nat): Counters
    requires mode < |c.detail.modes|
  {
    Counters(Add(c.tally, NonClient), c.detail.(modes := c.detail.modes[mode := c.detail.modes[mode] + 1]))
  }

  function CountedKiss(c: Counters): Counters {
    Counters(Add(c.tally, RateLimited), c.detail.(kod := c.detail.kod + 1))
  }

  function CountedServed(c: Counters, version: nat, synced: bool): Counters
    requires version < |c.detail.versions|
  {
    Counters(Add(c.tally, Served),
             c.detail.(versions := c.detail.versions[version := c.detail.versions[version] + 1],
                       unsynced := if synced then c.detail.unsynced else c.detail.unsynced + 1))
  }

  lemma CountedOk(c: Counters, o: Outcome)
    requires CountersOk(c) && o != Served && o != NonClient
    ensures CountersOk(Counted(c, o))
  {
  }

  lemma CountedNonClientOk(c: Counters, mode: nat)
    requires CountersOk(c) && mode < 8
    ensures CountersOk(CountedNonClient(c, mode))
    ensures var d := CountedNonClient(c, mode);
      forall m :: 0 <= m < 8 ==> d.detail.modes[m] == c.detail.modes[m] + if m == mode then 1 else 0
  {
    SumBump(c.detail.modes, mode);
  }

  lemma CountedServedOk(c: Counters, version: nat, synced: bool)
    requires CountersOk(c) && version <= N.VERSION
    ensures CountersOk(CountedServed(c, version, synced))
    ensures var d := CountedServed(c, version, synced);
      && d.detail.unsynced == c.detail.unsynced + (if synced then 0 else 1) && d.detail.kod == c.detail.kod
      && forall v :: 0 <= v <= N.VERSION ==> d.detail.versions[v] == c.detail.versions[v] + if v == version then 1 else 0
  {
    SumBump(c.detail.versions, version);
  }

  /** Every outcome counts one datagram. */
  lemma AddCountsOne(t: Tally, o: Outcome)
    ensures Requests(Add(t, o)) == Requests(t) + 1
  {
  }

  // ----- screening

  predicate IsClientRequest(p: N.Packet) {
    p.mode == MODE_CLIENT || (p.mode == MODE_RESERVED && p.version == 1)
  }

  /** The outcome of a datagram that is refused before authentication. */
  function Screened(cfg: Config, d: N.Decoded, client: Client): Option<Outcome> {
    if d.Failed? then Some(if d.error == N.BadVersion then BadVersion else Malformed)
    else if !IsClientRequest(d.packet) then Some(NonClient)
    else if cfg.martian(client) then Some(Martian)
    else if !cfg.permitted(client) then Some(Denied)
    else None
  }

  /** What passes the screen, and the reason of what does not. */
  lemma ScreenedExactly(cfg: Config, d: N.Decoded, client: Client)
    ensures var o := Screened(cfg, d, client);
      var asks := d.Ok? && (d.packet.mode == 3 || (d.packet.mode == 0 && d.packet.version == 1));
      && (o == None <==> asks && !cfg.martian(client) && cfg.permitted(client))
      && (o == Some(BadVersion) <==> d.Failed? && d.error == N.BadVersion)
      && (o == Some(Malformed) <==> d.Failed? && d.error != N.BadVersion)
      && (o == Some(NonClient) <==> d.Ok? && !asks)
      && (o == Some(Martian) <==> asks && cfg.martian(client))
      && (o == Some(Denied) <==> asks && !cfg.martian(client) && !cfg.permitted(client))
  {
  }

  lemma DecodedTyped(b: Bytes)
    requires N.Decoding(b).Ok?
    ensures N.Typed(N.Decoding(b).packet) && 1 <= N.Decoding(b).packet.version <= N.VERSION
  {
    hide N.Walk;
  }

  function ServiceKey(cfg: Config, client: Client, key: Option<nat>): R.Key {
    R.Key(cfg.mask(client), if key.None? then 0 else key.value, R.Service)
  }

  function CryptoKey(cfg: Config, client: Client): R.Key {
    R.Key(cfg.mask(client), 0, R.Crypto)
  }

  /** Every masked address and proven key has a service bucket of its own, and every masked address one for unproven codes. */
  lemma BucketsApart(cfg: Config, a: Client, b: Client, k: Option<nat>, j: Option<nat>)
    requires k != Some(0) && j != Some(0)
    ensures ServiceKey(cfg, a, k) == ServiceKey(cfg, b, j) <==> cfg.mask(a) == cfg.mask(b) && k == j
    ensures CryptoKey(cfg, a) == CryptoKey(cfg, b) <==> cfg.mask(a) == cfg.mask(b)
    ensures CryptoKey(cfg, a) != ServiceKey(cfg, b, j)
  {
  }

  // ----- what a reply may be

  /** The packet that answers a request. */
  function PacketFor(request: Bytes, now: Moment, refId: Bytes, special: bool): (p: N.Packet)
    requires N.Decoding(request).Ok? && MomentOk(now) && |refId| == 4
    ensures N.Typed(p) && 1 <= p.version <= N.VERSION
    ensures var q := N.Decoding(request).packet;
      p.version == q.version && p.mode == MODE_SERVER && p.originTime == q.transmitTime
  {
    DecodedTyped(request);
    ReplyPacket(N.Decoding(request).packet, now, refId, special)
  }

  /**
   A reply as its receiver finds it: no longer than the request, this packet in its header, and
   either nothing more or, under the key the request proved, this extension and a code
   that proves the key in turn.
   */
  ghost predicate ReplyOk(ring: Ring, request: Bytes, key: Option<nat>, p: N.Packet, extension: Option<W.Message>, b: Bytes) {
    && N.Decoding(request).Ok? && Proven(ring, request) == Some(key)
    && N.HEADER_SIZE <= |b| <= |request| && N.ParseHeader(b[..N.HEADER_SIZE]) == p
    && if key.None? then |b| == N.HEADER_SIZE && extension.None?
       else
         && N.Decoding(b).Ok? && N.Decoding(b).packet == p && Proven(ring, b) == Some(key)
         && N.HEADER_SIZE <= N.Decoding(b).macOffset <= |b|
         && W.Content(b[N.HEADER_SIZE..N.Decoding(b).macOffset]) ==
            if extension.None? then W.Absent else W.Found(extension.value)
  }

  /** A crypto-NAK: a header and a zero key id, to a request whose trailer proved false. */
  ghost predicate NakOk(ring: Ring, request: Bytes, p: N.Packet, b: Bytes) {
    && N.Decoding(request).Ok? && Proven(ring, request) == None
    && |b| == N.HEADER_SIZE + N.CRYPTO_NAK_SIZE <= |request|
    && N.ParseHeader(b[..N.HEADER_SIZE]) == p && b[N.HEADER_SIZE..] == Zeros(4)
  }

  /** The trailer and any extension of a request whose key is proven leave room for a signed reply. */
  lemma ProvenHasRoom(ring: Ring, request: Bytes)
    requires N.Decoding(request).Ok? && Proven(ring, request).Some?
    ensures Proven(ring, request).value.Some? ==> N.Decoding(request).macOffset + N.MAC_SIZE_CMAC == |request|
    ensures N.HEADER_SIZE <= N.Decoding(request).macOffset <= |request|
  {
    hide N.Decoding;
    OffsetWithin(request);
  }

  lemma {:induction false} ReplyIsOk(ring: Ring, request: Bytes, key: Option<nat>, p: N.Packet, extension: Option<W.Message>)
    requires RingOk(ring) && N.Decoding(request).Ok? && Proven(ring, request) == Some(key)
    requires N.Typed(p) && 1 <= p.version <= N.VERSION
    requires extension.Some? ==>
      && W.Typed(extension.value) && W.Valid(extension.value) && key.Some?
      && N.HEADER_SIZE + W.FieldLength(extension.value) <= N.Decoding(request).macOffset
    ensures (key.Some? ==> key.value in ring.keys)
    ensures ReplyOk(ring, request, key, p, extension, Reply(ring, p, extension, key))
  {
    hide N.Decoding, N.Typed, N.ParseHeader, N.Marshal, W.Content, W.Valid, W.Typed, W.FieldLength, Fields, N.Concat, CodeOf;
    ProvenHasRoom(ring, request);
    ReplySize(ring, p, extension, key);
    HeadOf(ring, p, extension, key);
    N.ParseMarshal(p);
    if key.Some? { SignedReplyIsProven(ring, p, extension, key.value); }
  }

  lemma HeadOf(ring: Ring, p: N.Packet, extension: Option<W.Message>, key: Option<nat>)
    requires N.Typed(p) && RingOk(ring) && (key.Some? ==> key.value in ring.keys)
    requires extension.Some? ==> W.Typed(extension.value) && W.Valid(extension.value)
    ensures var b := Reply(ring, p, extension, key); |b| >= N.HEADER_SIZE && b[..N.HEADER_SIZE] == N.Marshal(p)
  {
    hide N.Marshal, N.Typed, Fields, N.Concat, CodeOf, W.Valid, W.Typed;
  }

  /** A host that is not synchronized says so, and one that is gives its own status. */
  function UsualPacket(request: Bytes, now: Moment): (p: N.Packet)
    requires N.Decoding(request).Ok? && MomentOk(now)
    ensures !now.status.synced ==> p.leap == LEAP_UNSYNC && (p.stratum == 0 || p.stratum == UNSYNC_STRATUM)
    ensures now.status.synced ==> p.leap == now.status.leap && p.stratum == now.status.stratum && p.refId == now.status.refId
  {
    PacketFor(request, now, RefIdOf(now.status), !now.status.synced)
  }

  /** The NAK to a request, where one is due. */
  function CryptoNak(request: Bytes, now: Moment): (r: Option<Bytes>)
    requires N.Decoding(request).Ok? && MomentOk(now)
  {
    var m := N.Decoding(request).mac;
    if m.None? || N.IsCryptoNAK(m.value) || |request| < N.HEADER_SIZE + N.CRYPTO_NAK_SIZE then None
    else Some(N.Marshal(UsualPacket(request, now)) + U32(0))
  }

  lemma NakIsOk(ring: Ring, request: Bytes, now: Moment)
    requires N.Decoding(request).Ok? && MomentOk(now) && Proven(ring, request) == None
    ensures CryptoNak(request, now).Some?
    ensures NakOk(ring, request, UsualPacket(request, now), CryptoNak(request, now).value)
  {
    hide N.Decoding, N.Typed, N.ParseHeader, N.Marshal, U32, ReplyPacket;
    OffsetWithin(request);
    var p := UsualPacket(request, now);
    N.ParseMarshal(p);
    Cut(N.Marshal(p), U32(0));
    ZeroWord();
  }

  lemma ZeroWord()
    ensures U32(0) == Zeros(4)
  {
  }

  // ----- the handler

  /** Authentication refuses a request, perhaps with a reply, or lets it through under a proven key or none. */
  datatype Access = Refused(outcome: Outcome, reply: Option<Bytes>) | Trusted(key: Option<nat>)

  /** Every bucket still there, besides those named, is as it was. */
  ghost predicate Spared(now: map<R.Key, R.Bucket>, before: map<R.Key, R.Bucket>, but: set<R.Key>) {
    forall k :: k in now && k !in but ==> k in before && now[k] == before[k]
  }

  lemma SparedTwice(c: map<R.Key, R.Bucket>, b: map<R.Key, R.Bucket>, a: map<R.Key, R.Bucket>, x: set<R.Key>, y: set<R.Key>)
    requires Spared(c, b, x) && Spared(b, a, y)
    ensures Spared(c, a, x + y)
  {
  }

  /** The bucket's last accepted request came at this time. */
  ghost predicate ChargedAt(log: map<R.Key, R.History>, k: R.Key, now: real) {
    k in log && log[k].accepts != [] && log[k].accepts[|log[k].accepts| - 1] == now
  }

  /** The limiter is in order and this time is not before the last it saw. */
  ghost predicate InTime(timely: bool, latest: real, now: real) {
    timely && latest <= now
  }

  /** The buckets a request may touch: its address's crypto bucket, and the service bucket of what it proved. */
  function Touched(cfg: Config, client: Client, key: Option<nat>): set<R.Key> {
    {CryptoKey(cfg, client), ServiceKey(cfg, client, key)}
  }

  /** Whether the reply to this request may carry leap-table data. */
  predicate Exports(cfg: Config, p: N.Packet, key: Option<nat>) {
    p.version == 4 && p.mode == MODE_CLIENT && key.Some? && key.value in cfg.exporters
  }

  /** What goes out in a reply under the key. */
  function ExtensionOf(cfg: Config, request: Bytes, w: World, key: Option<nat>): Export
    requires WorldOk(w) && N.Decoding(request).Ok?
  {
    OffsetWithin(request);
    var d := N.Decoding(request);
    if Exports(cfg, d.packet, key) then
      ExportFor(request[N.HEADER_SIZE..d.macOffset], w.granted, w.current, w.wall)
    else Answer(None)
  }

  /** Leap-table data goes to version 4 clients that proved an exporter's key, and to no others. */
  lemma TablesGoToExporters(cfg: Config, request: Bytes, w: World, key: Option<nat>)
    requires WorldOk(w) && N.Decoding(request).Ok? && N.HEADER_SIZE <= N.Decoding(request).macOffset <= |request|
    ensures var d := N.Decoding(request);
      var region := request[N.HEADER_SIZE..d.macOffset];
      ExtensionOf(cfg, request, w, key) ==
        if d.packet.version == 4 && d.packet.mode == 3 && key.Some? && key.value in cfg.exporters
        then ExportFor(region, w.granted, w.current, w.wall) else Answer(None)
  {
    hide N.Decoding, ExportFor;
  }

  lemma ExtensionFits(cfg: Config, request: Bytes, w: World, key: Option<nat>)
    requires WorldOk(w) && N.Decoding(request).Ok?
    ensures var e := ExtensionOf(cfg, request, w, key);
      e.Answer? && e.extension.Some? ==>
        && W.Typed(e.extension.value) && W.Valid(e.extension.value) && key.Some?
        && N.HEADER_SIZE + W.FieldLength(e.extension.value) <= N.Decoding(request).macOffset
  {
    hide N.Decoding, W.Typed, W.Valid, W.FieldLength, ExportFor;
    OffsetWithin(request);
    var d := N.Decoding(request);
    ExportFits(request[N.HEADER_SIZE..d.macOffset], w.granted, w.current, w.wall);
  }

  /** The service bucket of what the request proved has accepted it. */
  ghost predicate ServiceCharged(cfg: Config, request: Bytes, client: Client, log: map<R.Key, R.History>, now: real) {
    && N.Decoding(request).Ok? && Proven(cfg.ring, request).Some?
    && ChargedAt(log, ServiceKey(cfg, client, Proven(cfg.ring, request).value), now)
  }

  /** The time, as the engine has it, and the leap-table data asked for. */
  ghost predicate ServedOk(cfg: Config, request: Bytes, client: Client, w: World, b: Bytes)
    requires N.Decoding(request).Ok? && WorldOk(w)
  {
    && Proven(cfg.ring, request).Some?
    && var key := Proven(cfg.ring, request).value;
       var e := ExtensionOf(cfg, request, w, key);
       && (cfg.required(client) != 0 ==> key == Some(cfg.required(client)))
       && e.Answer? && ReplyOk(cfg.ring, request, key, UsualPacket(request, w.moment), e.extension, b)
  }

  /** A kiss that asks the client to slow down. */
  ghost predicate KissOk(cfg: Config, request: Bytes, w: World, b: Bytes)
    requires N.Decoding(request).Ok? && WorldOk(w)
  {
    && cfg.kod && Proven(cfg.ring, request).Some?
    && ReplyOk(cfg.ring, request, Proven(cfg.ring, request).value, PacketFor(request, w.moment, KISS_RATE, true), None, b)
  }

  /** The request carries a code that proves false, or not the code required of its address. */
  ghost predicate Unproven(cfg: Config, request: Bytes, client: Client)
    requires N.Decoding(request).Ok?
  {
    var k := Proven(cfg.ring, request);
    k.None? || (cfg.required(client) != 0 && k.value != Some(cfg.required(client)))
  }

  /** The bucket has less than one token. */
  ghost predicate Spent(clients: map<R.Key, R.Bucket>, k: R.Key) {
    k in clients && clients[k].tokens < 1.0
  }

  /** The bucket's client was sent a kiss less than the kiss interval before now. */
  ghost predicate KissedBefore(log: map<R.Key, R.History>, k: R.Key, now: real) {
    k in log && log[k].kisses != [] && now - log[k].kisses[|log[k].kisses| - 1] < R.KOD_INTERVAL
  }

  /** Where kisses are sent, silence on a rate refusal means that the client has had one just before, or that the budgets refused. */
  ghost predicate KissedFairly(cfg: Config, request: Bytes, client: Client, w: World, key: Option<nat>, o: Outcome,
                               reply: Option<Bytes>, log: map<R.Key, R.History>)
    requires N.Decoding(request).Ok? && WorldOk(w)
  {
    o == RateLimited && reply.None? && cfg.kod ==>
      ExtensionOf(cfg, request, w, key) == OverBudget || KissedBefore(log, ServiceKey(cfg, client, key), w.mono)
  }

  /** A rate refusal, and silence where a NAK was due, rest on a spent bucket or on the export budgets. */
  ghost predicate RefusedFairly(cfg: Config, request: Bytes, client: Client, w: World, o: Outcome, reply: Option<Bytes>,
                                clients: map<R.Key, R.Bucket>)
    requires N.Decoding(request).Ok? && WorldOk(w)
  {
    var k := Proven(cfg.ring, request);
    && (o == RateLimited ==>
          || (cfg.required(client) == 0 && N.Decoding(request).mac.Some? && Spent(clients, CryptoKey(cfg, client)))
          || (k.Some? && Spent(clients, ServiceKey(cfg, client, k.value)))
          || (k.Some? && ExtensionOf(cfg, request, w, k.value) == OverBudget))
    && (o == BadAuth && reply.None? && k.None? ==> Spent(clients, CryptoKey(cfg, client)))
  }

  /** The reply that goes with the outcome of a datagram that passed screening. */
  ghost predicate DecisionOk(cfg: Config, request: Bytes, client: Client, w: World, o: Outcome, reply: Option<Bytes>)
    requires N.Decoding(request).Ok? && WorldOk(w)
  {
    match o
    case Served => reply.Some? && ServedOk(cfg, request, client, w, reply.value)
    case RateLimited => reply.Some? ==> KissOk(cfg, request, w, reply.value)
    case BadAuth =>
      && Unproven(cfg, request, client)
      && (reply.Some? ==> NakOk(cfg.ring, request, UsualPacket(request, w.moment), reply.value))
    case Malformed =>
      && reply.None? && Proven(cfg.ring, request).Some?
      && ExtensionOf(cfg, request, w, Proven(cfg.ring, request).value) == BadRequest
    case _ => false
  }

  /** Whatever the outcome, the reply is no longer than the request. */
  lemma NeverLonger(cfg: Config, request: Bytes, client: Client, w: World, o: Outcome, reply: Option<Bytes>)
    requires N.Decoding(request).Ok? && WorldOk(w) && DecisionOk(cfg, request, client, w, o, reply)
    ensures reply.Some? ==> |reply.value| <= |request|
  {
    hide N.Decoding, Proven, ExtensionOf, PacketFor, UsualPacket, W.Content, N.ParseHeader;
  }

  class Handler {
    const cfg: Config
    const limiter: R.Limiter
    var v4: Counters
    var v6: Counters
    var published: int

    ghost predicate Valid()
      reads this, limiter
    {
      && RingOk(cfg.ring) && limiter.Valid() && CountersOk(v4) && CountersOk(v6)
      && v4.detail.clients + v6.detail.clients == published
    }

    function Family(isV4: bool): Counters
      reads this
    {
      if isV4 then v4 else v6
    }

    constructor (cfg: Config, limiter: R.Limiter)
      requires RingOk(cfg.ring) && limiter.Valid()
      ensures Valid() && this.cfg == cfg && this.limiter == limiter
      ensures Requests(v4.tally) == Requests(v6.tally) == published == 0
    {
      this.cfg, this.limiter := cfg, limiter;
      var none := Counters(Tally(0, 0, 0, 0, 0, 0, 0, 0, 0), Detail(0, 0, [0, 0, 0, 0, 0, 0, 0, 0], [0, 0, 0, 0, 0], 0));
      v4, v6, published := none, none, 0;
      new;
      SumOfZeros(v4.detail.modes);
      SumOfZeros(v4.detail.versions);
    }

    method Put(isV4: bool, c: Counters)
      modifies this`v4, this`v6
      ensures Family(isV4) == c && Family(!isV4) == old(Family(!isV4))
    {
      if isV4 { v4 := c; } else { v6 := c; }
    }

    /** Folds the table's size into the shared gauge as a change since it was last published. */
    method Publish(isV4: bool)
      requires Valid()
      modifies this
      ensures Valid() && published == |limiter.clients|
      ensures Family(isV4).tally == old(Family(isV4).tally) && Family(!isV4) == old(Family(!isV4))
    {
      hide RingOk;
      var n := |limiter.clients|;
      var c := Family(isV4);
      Put(isV4, c.(detail := c.detail.(clients := c.detail.clients + (n - published))));
      published := n;
    }

    /** Adds to one outcome counter. */
    method Count(isV4: bool, o: Outcome)
      requires Valid() && o != Served && o != NonClient
      modifies this`v4, this`v6
      ensures Valid() && Family(isV4).tally == Add(old(Family(isV4).tally), o) && Family(!isV4) == old(Family(!isV4))
    {
      hide RingOk, CountersOk, Add;
      CountedOk(Family(isV4), o);
      Put(isV4, Counted(Family(isV4), o));
    }

    /**
     Decides whose request this is.  Only the address's crypto bucket is charged; a code that
     proves false earns a crypto-NAK only against a token of that bucket, and a request from
     an address that must authenticate passes only with the key required of it.
     */
    method Authenticate(request: Bytes, client: Client, w: World) returns (r: Access)
      requires Valid() && WorldOk(w) && N.Decoding(request).Ok?
      modifies this, limiter
      ensures Valid() && Family(client.isV4).tally == old(Family(client.isV4).tally)
      ensures Family(!client.isV4) == old(Family(!client.isV4))
      ensures Spared(limiter.clients, old(limiter.clients), {CryptoKey(cfg, client)})
      ensures r.Trusted? ==> Proven(cfg.ring, request) == Some(r.key)
      ensures r.Trusted? && cfg.required(client) != 0 ==> r.key == Some(cfg.required(client))
      ensures r.Refused? ==> r.outcome == BadAuth || (r.outcome == RateLimited && r.reply.None?)
      ensures r.Refused? && r.reply.Some? ==> NakOk(cfg.ring, request, UsualPacket(request, w.moment), r.reply.value)
      ensures r.Refused? && r.outcome == BadAuth ==> Unproven(cfg, request, client)
      ensures r.Refused? && old(limiter.Timely()) ==>
        RefusedFairly(cfg, request, client, w, r.outcome, r.reply, limiter.clients)
      ensures r.Refused? && r.reply.Some? && old(limiter.Timely()) ==>
        ChargedAt(limiter.log, CryptoKey(cfg, client), w.mono)
      ensures InTime(old(limiter.Timely()), old(limiter.latest), w.mono) ==>
        InTime(limiter.Timely(), limiter.latest, w.mono)
    {
      hide N.Decoding, Proven, NakOk, CryptoNak, UsualPacket, ExtensionOf, RingOk, CountersOk, R.InStep, R.ByUse, R.BucketsOk,
        R.Spend, R.Refill;
      var required := cfg.required(client);
      var proven := Proven(cfg.ring, request);
      if required == 0 && N.Decoding(request).mac.None? {
        NoTrailer(cfg.ring, request);
        return Trusted(None);
      }
      if required == 0 {
        var allowed, _ := Charge(CryptoKey(cfg, client), w.mono);
        if !allowed {
          Publish(client.isV4);
          return Refused(RateLimited, None);
        }
      }
      if proven.None? {
        if required != 0 {
          var allowed, _ := Charge(CryptoKey(cfg, client), w.mono);
          if !allowed { return Refused(BadAuth, None); }
        }
        NakIsOk(cfg.ring, request, w.moment);
        return Refused(BadAuth, CryptoNak(request, w.moment));
      }
      if required != 0 && proven.value != Some(required) { return Refused(BadAuth, None); }
      r := Trusted(proven.value);
    }

    /** The time in the reply, signed if the request's key was proven. */
    method Respond(request: Bytes, w: World, key: Option<nat>, refId: Bytes, special: bool, extension: Option<W.Message>)
      returns (reply: Bytes)
      requires RingOk(cfg.ring) && WorldOk(w) && N.Decoding(request).Ok? && Proven(cfg.ring, request) == Some(key)
      requires |refId| == 4
      requires extension.Some? ==>
        && W.Typed(extension.value) && W.Valid(extension.value) && key.Some?
        && N.HEADER_SIZE + W.FieldLength(extension.value) <= N.Decoding(request).macOffset
      ensures ReplyOk(cfg.ring, request, key, PacketFor(request, w.moment, refId, special), extension, reply)
    {
      hide N.Decoding, Proven, ReplyOk, Replies.Reply, W.Typed, W.Valid, W.FieldLength, ReplyPacket;
      var p := PacketFor(request, w.moment, refId, special);
      ReplyIsOk(cfg.ring, request, key, p, extension);
      reply := Replies.Reply(cfg.ring, p, extension, key);
    }

    /** The part of handling that follows authentication. */
    method Serve(request: Bytes, client: Client, w: World, key: Option<nat>)
      returns (reply: Option<Bytes>, ghost o: Outcome)
      requires Valid() && WorldOk(w) && N.Decoding(request).Ok? && Proven(cfg.ring, request) == Some(key)
      requires cfg.required(client) != 0 ==> key == Some(cfg.required(client))
      modifies this, limiter
      ensures Valid() && Family(client.isV4).tally == Add(old(Family(client.isV4).tally), o)
      ensures Family(!client.isV4) == old(Family(!client.isV4)) && published == |limiter.clients|
      ensures DecisionOk(cfg, request, client, w, o, reply) && o != BadAuth
      ensures Spared(limiter.clients, old(limiter.clients), {ServiceKey(cfg, client, key)})
      ensures o == Served && old(limiter.Timely()) ==> ChargedAt(limiter.log, ServiceKey(cfg, client, key), w.mono)
      ensures old(limiter.Timely()) ==> RefusedFairly(cfg, request, client, w, o, reply, limiter.clients)
      ensures InTime(old(limiter.Timely()), old(limiter.latest), w.mono) ==>
        KissedFairly(cfg, request, client, w, key, o, reply, old(limiter.log))
    {
      hide N.Decoding, Proven, ReplyOk, NakOk, RingOk, CountersOk, Add, ExtensionOf, PacketFor, R.InStep, R.ByUse, R.BucketsOk,
        R.Refill, KissedBefore, Spent, ChargedAt;
      var isV4 := client.isV4;
      var allowed, sendKoD := Charge(ServiceKey(cfg, client, key), w.mono);
      Publish(isV4);
      if !allowed {
        o := RateLimited;
        if !cfg.kod || !sendKoD {
          Count(isV4, RateLimited);
          return None, o;
        }
        CountedKissOk(Family(isV4));
        Put(isV4, CountedKiss(Family(isV4)));
        var kiss := Respond(request, w, key, KISS_RATE, true, None);
        return Some(kiss), o;
      }
      var e := ExtensionOf(cfg, request, w, key);
      if !e.Answer? {
        o := if e.BadRequest? then Malformed else RateLimited;
        Count(isV4, if e.BadRequest? then Malformed else RateLimited);
        return None, o;
      }
      ExtensionFits(cfg, request, w, key);
      o := Served;
      DecodedTyped(request);
      SizesOf(Family(isV4));
      var st := w.moment.status;
      CountedServedOk(Family(isV4), N.Decoding(request).packet.version, st.synced);
      Put(isV4, CountedServed(Family(isV4), N.Decoding(request).packet.version, st.synced));
      var answer := Respond(request, w, key, RefIdOf(st), !st.synced, e.extension);
      reply := Some(answer);
    }

    /**
     Handles one datagram.  Exactly one outcome counter of its family goes up, by one; a reply is
     never longer than the request, answers it, and is signed only under the key the
     request proved; a client that must authenticate is served only with its key; and
     only its own address's buckets are charged, an authenticated one only by a request
     that proved that key.
     */
    method Handle(request: Bytes, client: Client, w: World) returns (reply: Option<Bytes>, ghost o: Outcome)
      requires Valid() && WorldOk(w)
      modifies this, limiter
      ensures Valid() && Family(client.isV4).tally == Add(old(Family(client.isV4).tally), o)
      ensures Family(!client.isV4) == old(Family(!client.isV4))
      ensures reply.Some? ==> |reply.value| <= |request|
      ensures var s := Screened(cfg, N.Decoding(request), client);
        if s.Some? then o == s.value && reply.None? && limiter.clients == old(limiter.clients)
        else
          && N.Decoding(request).Ok? && DecisionOk(cfg, request, client, w, o, reply)
          && var k := Proven(cfg.ring, request);
             Spared(limiter.clients, old(limiter.clients), Touched(cfg, client, if k.Some? then k.value else None))
      ensures InTime(old(limiter.Timely()), old(limiter.latest), w.mono) ==>
        && (o == Served ==> ServiceCharged(cfg, request, client, limiter.log, w.mono))
        && (o == BadAuth && reply.Some? ==> ChargedAt(limiter.log, CryptoKey(cfg, client), w.mono))
        && (Screened(cfg, N.Decoding(request), client).None? ==>
              RefusedFairly(cfg, request, client, w, o, reply, limiter.clients))
    {
      hide N.Decoding, Proven, ServedOk, KissOk, NakOk, UsualPacket, ExtensionOf, RingOk, CountersOk, Add, R.InStep, R.ByUse,
        R.BucketsOk, R.Refill;
      var d := N.Decode(request);
      if d.Failed? {
        o := if d.error == N.BadVersion then BadVersion else Malformed;
        Count(client.isV4, if d.error == N.BadVersion then BadVersion else Malformed);
        return None, o;
      }
      if !IsClientRequest(d.packet) {
        o := NonClient;
        DecodedTyped(request);
        SizesOf(Family(client.isV4));
        CountedNonClientOk(Family(client.isV4), d.packet.mode);
        Put(client.isV4, CountedNonClient(Family(client.isV4), d.packet.mode));
        return None, o;
      }
      if cfg.martian(client) {
        o := Martian;
        Count(client.isV4, Martian);
        return None, o;
      }
      if !cfg.permitted(client) {
        o := Denied;
        Count(client.isV4, Denied);
        return None, o;
      }
      var a := Authenticate(request, client, w);
      if a.Refused? {
        o := a.outcome;
        Count(client.isV4, a.outcome);
        NeverLonger(cfg, request, client, w, o, a.reply);
        return a.reply, o;
      }
      ghost var between := limiter.clients;
      reply, o := Serve(request, client, w, a.key);
      NeverLonger(cfg, request, client, w, o, reply);
      SparedTwice(limiter.clients, between, old(limiter.clients), {ServiceKey(cfg, client, a.key)}, {CryptoKey(cfg, client)});
    }

    method Charge(k: R.Key, now: real) returns (allowed: bool, sendKoD: bool)
      requires Valid()
      modifies limiter
      ensures Valid() && Spared(limiter.clients, old(limiter.clients), {k})
      ensures allowed && old(limiter.Timely()) ==> ChargedAt(limiter.log, k, now)
      ensures !allowed && old(limiter.Timely()) ==> Spent(limiter.clients, k)
      ensures InTime(old(limiter.Timely()), old(limiter.latest), now) ==> InTime(limiter.Timely(), limiter.latest, now)
      ensures InTime(old(limiter.Timely()), old(limiter.latest), now) && !allowed && !sendKoD ==> KissedBefore(old(limiter.log), k, now)
    {
      hide R.ByUse, R.BucketsOk, R.Refill;
      allowed, sendKoD := limiter.Allow(k, now);
    }

    /**
     Reads datagrams one after another: each adds one to the counters of its family, under its own
     outcome, and none brings back more than it carried.
     */
    method Listen(arrivals: seq<Arrival>) returns (replies: seq<Option<Bytes>>, ghost outcomes: seq<Outcome>)
      requires Valid() && forall i :: 0 <= i < |arrivals| ==> WorldOk(arrivals[i].world)
      modifies this, limiter
      ensures Valid() && |replies| == |outcomes| == |arrivals|
      ensures v4.tally == Tallied(old(v4.tally), arrivals, outcomes, true) && v6.tally == Tallied(old(v6.tally), arrivals, outcomes, false)
      ensures Requests(v4.tally) + Requests(v6.tally) == old(Requests(v4.tally) + Requests(v6.tally)) + |arrivals|
      ensures forall i :: 0 <= i < |arrivals| ==> HeardAs(arrivals[i], outcomes[i], replies[i])
    {
      hide RingOk, CountersOk, Requests, N.Decoding, Proven, WorldOk, DecisionOk, Screened, Add, R.InStep, R.ByUse, R.BucketsOk;
      replies, outcomes := [], [];
      for i := 0 to |arrivals|
        invariant Valid() && |replies| == |outcomes| == i
        invariant v4.tally == Tallied(old(v4.tally), arrivals[..i], outcomes, true)
        invariant v6.tally == Tallied(old(v6.tally), arrivals[..i], outcomes, false)
        invariant forall j :: 0 <= j < i ==> HeardAs(arrivals[j], outcomes[j], replies[j])
      {
        var a := arrivals[i];
        ghost var o;
        var reply: Option<Bytes> := None;
        if a.oversize {
          o := Oversize;
          Count(a.client.isV4, Oversize);
        } else if a.misdirected {
          o := Martian;
          Count(a.client.isV4, Martian);
        } else {
          reply, o := Handle(a.datagram, a.client, a.world);
          NeverOversize(cfg, a.datagram, a.client, a.world, o, reply);
        }
        TalliedPush(old(v4.tally), arrivals[..i], outcomes, true, a, o);
        TalliedPush(old(v6.tally), arrivals[..i], outcomes, false, a, o);
        assert arrivals[..i + 1] == arrivals[..i] + [a];
        replies, outcomes := replies + [reply], outcomes + [o];
      }
      assert arrivals[..|arrivals|] == arrivals;
      TalliedAll(old(v4.tally), old(v6.tally), arrivals, outcomes);
    }
  }

  /** An arrival as the listener takes it: too long, not for this host alone, or handled. */
  ghost predicate HeardAs(a: Arrival, o: Outcome, reply: Option<Bytes>) {
    && (a.oversize <==> o == Oversize) && (!a.oversize && a.misdirected ==> o == Martian)
    && (a.oversize || a.misdirected ==> reply.None?) && (reply.Some? ==> |reply.value| <= |a.datagram|)
  }

  /** A family's counters after these arrivals with these outcomes. */
  ghost function Tallied(t: Tally, arrivals: seq<Arrival>, outcomes: seq<Outcome>, isV4: bool): Tally
    requires |outcomes| == |arrivals|
  {
    if arrivals == [] then t
    else
      var n := |arrivals| - 1;
      var u := Tallied(t, arrivals[..n], outcomes[..n], isV4);
      if arrivals[n].client.isV4 == isV4 then Add(u, outcomes[n]) else u
  }

  lemma {:induction false} TalliedPush(t: Tally, arrivals: seq<Arrival>, outcomes: seq<Outcome>, isV4: bool, a: Arrival, o: Outcome)
    requires |outcomes| == |arrivals|
    ensures var u := Tallied(t, arrivals, outcomes, isV4);
      Tallied(t, arrivals + [a], outcomes + [o], isV4) == if a.client.isV4 == isV4 then Add(u, o) else u
  {
    assert (arrivals + [a])[..|arrivals|] == arrivals && (outcomes + [o])[..|outcomes|] == outcomes;
  }

  lemma {:induction false} TalliedAll(t: Tally, u: Tally, arrivals: seq<Arrival>, outcomes: seq<Outcome>)
    requires |outcomes| == |arrivals|
    ensures Requests(Tallied(t, arrivals, outcomes, true)) + Requests(Tallied(u, arrivals, outcomes, false)) ==
      Requests(t) + Requests(u) + |arrivals|
  {
    hide Add, Requests;
    if arrivals != [] {
      var n := |arrivals| - 1;
      TalliedAll(t, u, arrivals[..n], outcomes[..n]);
      var four := arrivals[n].client.isV4;
      AddCountsOne(Tallied(if four then t else u, arrivals[..n], outcomes[..n], four), outcomes[n]);
    }
  }

  lemma NeverOversize(cfg: Config, request: Bytes, client: Client, w: World, o: Outcome, reply: Option<Bytes>)
    requires WorldOk(w)
    requires var s := Screened(cfg, N.Decoding(request), client);
      if s.Some? then o == s.value else N.Decoding(request).Ok? && DecisionOk(cfg, request, client, w, o, reply)
    ensures o != Oversize
  {
    hide N.Decoding, Proven;
  }

  lemma SizesOf(c: Counters)
    requires CountersOk(c)
    ensures |c.detail.modes| == 8 && |c.detail.versions| == N.VERSION + 1
  {
  }

  lemma CountedKissOk(c: Counters)
    requires CountersOk(c)
    ensures CountersOk(CountedKiss(c))
  {
  }

  lemma NoTrailer(ring: Ring, request: Bytes)
    requires N.Decoding(request).Ok? && N.Decoding(request).mac.None?
    ensures Proven(ring, request) == Some(None)
  {
    hide N.Decoding;
  }

  lemma {:induction false} SumOfZeros(s: seq<nat>)
    requires forall i :: 0 <= i < |s| ==> s[i] == 0
    ensures Sum(s) == 0
  {
    if s != [] { SumOfZeros(s[1..]); }
  }
}
