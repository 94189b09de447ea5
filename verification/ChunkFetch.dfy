/**
 Fetching a leap-second file from a distributor: a probe for its manifest, then one exchange
 for each chunk.  Dates are seconds since 1900 and `now` is in nanoseconds from there; zero is
 the unset time.
 */
module ChunkFetch {
  import opened Basics
  import opened Bytes
  import opened LeapTable
  import opened ClpsWire
  import N = NtpPacket

  const TRANSFER_BOUND: nat := 1800 * SECOND
  const MAX_SPACING: nat := 4 * SECOND

  datatype Failure = Timeout | Missing | Refused(reason: Reason) | RateBound | Changed | BadFile | Digest

  datatype Gathered = Broken(failure: Failure) | Whole(data: Bytes)

  datatype Fetched = Failed(failure: Failure) | Unchanged | Got(obj: Object)

  /** What each exchange brings back for a request, if anything. */
  type Network = (nat, Message) -> Option<Message>

  // ----- the advertised dates

  function CheckManifest(cached: Option<Object>, f: Manifest, now: int): Verdict {
    var u, e := f.updated * SECOND, f.expires * SECOND;
    if !ManifestValid(f) then Rejected(Metadata)
    else if now == 0 then Rejected(TimeUnknown)
    else if now >= e then Rejected(Expired)
    else if u > now + FUTURE_SLACK || e > now + MAX_COVERAGE then Rejected(Date)
    else if cached.Some? && f != cached.value.manifest then
      if f.updated < cached.value.manifest.updated || f.expires < cached.value.manifest.expires then Rejected(Rollback)
      else if f.updated == cached.value.manifest.updated && f.expires == cached.value.manifest.expires then Rejected(Conflict)
      else Accepted
    else Accepted
  }

  /** The manifest's dates are those of the table. */
  ghost predicate Dated(o: Object) {
    o.table.updated == o.manifest.updated * SECOND && o.table.expiry == o.manifest.expires * SECOND
  }

  /**
   The early check comes to what the full check of the file will come to, reason included, save
   what only the file's records show: a changed history, or a baseline still to come.
   */
  lemma AdvertisedDecides(cached: Option<Object>, next: Object, now: int)
    requires ObjectOk(next) && Dated(next) && (cached.Some? ==> Dated(cached.value))
    ensures var early, full := CheckManifest(cached, next.manifest, now), CheckUpdate(cached, next, now);
      && (full == Accepted ==> early == Accepted)
      && (now == 0 || now >= next.table.baseline ==> early == if full == Rejected(History) then Accepted else full)
  {
  }

  // ----- the exchanges

  /** What an exchange returns: the answer, or nothing once every attempt has timed out. */
  function Exchange(net: Network, i: nat, req: Message): Option<Message> {
    var m := net(i, req);
    if m.Some? && Answers(req, m.value) then m else None
  }

  function ProbeFor(id: Bytes, cached: Option<Object>): Message {
    Message(PROBE, OK, id, if cached.None? then NO_MANIFEST else cached.value.manifest, 0, 0, [])
  }

  /** The same network with every answer dropped that does not belong to its request. */
  ghost function Relevant(net: Network): Network {
    (i: nat, req: Message) => if net(i, req).Some? && Answers(req, net(i, req).value) then net(i, req) else None
  }

  /** Stray answers, to another request or for another chunk, have no effect on a transfer. */
  lemma {:induction false} StraysAreIgnored(net: Network, ids: nat -> Bytes, read: Reader, cached: Option<Object>, now: int, spacing: nat)
    ensures Fetch(Relevant(net), ids, read, cached, now, spacing) == Fetch(net, ids, read, cached, now, spacing)
  {
    hide CheckManifest, Gather, Answers;
    var probe := Exchange(net, 0, ProbeFor(ids(0), cached));
    if probe.Some? { GatherIgnores(net, ids, probe.value.manifest, 0); }
  }

  lemma {:induction false} GatherIgnores(net: Network, ids: nat -> Bytes, f: Manifest, offset: nat)
    ensures Gather(Relevant(net), ids, f, offset) == Gather(net, ids, f, offset)
    decreases f.size - offset
  {
    hide Answers, Turn, GetFor;
    if offset < f.size { GatherIgnores(net, ids, f, offset + CHUNK_SIZE); }
  }

  function GetFor(id: Bytes, f: Manifest, offset: nat): Message {
    Message(GET, OK, id, f, offset, CHUNK_SIZE, [])
  }

  /** The exchange that asks for the chunk at an offset; the probe is number zero. */
  function Turn(offset: nat): nat {
    1 + offset / CHUNK_SIZE
  }

  /** The bytes from an offset on, chunk after chunk. */
  function Gather(net: Network, ids: nat -> Bytes, f: Manifest, offset: nat): Gathered
    decreases f.size - offset
  {
    if offset >= f.size then Whole([])
    else
      var m := Exchange(net, Turn(offset), GetFor(ids(Turn(offset)), f, offset));
      if m.None? then Broken(Timeout)
      else if m.value.result != OK then Broken(Changed)
      else Prefixed(m.value.data, Gather(net, ids, f, offset + CHUNK_SIZE))
  }

  function Prefixed(data: Bytes, g: Gathered): Gathered {
    if g.Broken? then g else Whole(data + g.data)
  }

  lemma PrefixedTwice(a: Bytes, b: Bytes, g: Gathered)
    ensures Prefixed(a, Prefixed(b, g)) == Prefixed(a + b, g)
  {
    if g.Whole? { assert a + (b + g.data) == a + b + g.data; }
  }

  lemma PrefixedNone(g: Gathered)
    ensures Prefixed([], g) == g
  {
    if g.Whole? { assert [] + g.data == g.data; }
  }

  /** Asks for one chunk after another and appends what comes. */
  method Collect(net: Network, ids: nat -> Bytes, f: Manifest) returns (g: Gathered)
    ensures g == Gather(net, ids, f, 0)
  {
    hide Exchange, GetFor, Prefixed;
    var data: Bytes := [];
    var offset := 0;
    PrefixedNone(Gather(net, ids, f, 0));
    while offset < f.size
      invariant Gather(net, ids, f, 0) == Prefixed(data, Gather(net, ids, f, offset))
    {
      var m := Exchange(net, Turn(offset), GetFor(ids(Turn(offset)), f, offset));
      PrefixedBroken(data, Timeout);
      PrefixedBroken(data, Changed);
      if m.None? { return Broken(Timeout); }
      if m.value.result != OK { return Broken(Changed); }
      PrefixedTwice(data, m.value.data, Gather(net, ids, f, offset + CHUNK_SIZE));
      data := data + m.value.data;
      offset := offset + CHUNK_SIZE;
    }
    PrefixedAll(data);
    g := Whole(data);
  }

  lemma PrefixedBroken(a: Bytes, e: Failure)
    ensures Prefixed(a, Broken(e)) == Broken(e)
  {
  }

  lemma PrefixedAll(a: Bytes)
    ensures Prefixed(a, Whole([])) == Whole(a)
  {
    assert a + [] == a;
  }

  // ----- the whole transfer

  /** Reads a file into an object; None where the file is refused. */
  type Reader = Bytes -> Option<Object>

  function Fetch(net: Network, ids: nat -> Bytes, read: Reader, cached: Option<Object>, now: int, spacing: nat): Fetched {
    var probe := Exchange(net, 0, ProbeFor(ids(0), cached));
    if probe.None? then Failed(Timeout)
    else if probe.value.result == NO_TABLE then Failed(Missing)
    else
      var f := probe.value.manifest;
      if CheckManifest(cached, f, now) != Accepted then Failed(Refused(CheckManifest(cached, f, now).reason))
      else if cached.Some? && f == cached.value.manifest then Unchanged
      else if Chunks(f) * MinInt(spacing, MAX_SPACING) >= TRANSFER_BOUND then Failed(RateBound)
      else Assembled(Gather(net, ids, f, 0), read, f)
  }

  function Chunks(f: Manifest): nat {
    (f.size + CHUNK_SIZE - 1) / CHUNK_SIZE
  }

  /** That many requests, and no fewer, reach to the end of the file; each has its own number. */
  lemma ChunksCover(f: Manifest, i: nat, j: nat)
    requires f.size > 0 && i < j
    ensures (Chunks(f) - 1) * CHUNK_SIZE < f.size <= Chunks(f) * CHUNK_SIZE
    ensures 0 < Turn(i * CHUNK_SIZE) < Turn(j * CHUNK_SIZE)
  {
  }

  function Assembled(g: Gathered, read: Reader, f: Manifest): Fetched {
    if g.Broken? then Failed(g.failure)
    else if read(g.data).None? then Failed(BadFile)
    else if read(g.data).value.manifest != f then Failed(Digest)
    else Got(read(g.data).value)
  }

  /** With the spacing capped after a good probe, no object a manifest may describe is too large for the bound. */
  lemma RateBoundIsIdle(f: Manifest, spacing: nat)
    requires ManifestValid(f)
    ensures Chunks(f) * MinInt(spacing, MAX_SPACING) < TRANSFER_BOUND
  {
    var s := MinInt(spacing, MAX_SPACING);
    assert Chunks(f) <= 256;
    Grows(Chunks(f), 256, s, MAX_SPACING);
  }

  lemma Grows(a: nat, b: nat, x: nat, y: nat)
    requires a <= b && x <= y
    ensures a * x <= b * y
  {
    assert (b - a) * x >= 0 && b * (y - x) >= 0;
  }

  // ----- results

  /** A reader keeps the bytes, describes them, and no two files share a manifest. */
  ghost predicate Reads(read: Reader) {
    && (forall d :: read(d).Some? ==> read(d).value.data == d && ObjectOk(read(d).value))
    && (forall d, e :: read(d).Some? && read(e).Some? && read(d).value.manifest == read(e).value.manifest ==> d == e)
  }

  /**
   Whatever the network brought back, a fetched object is the file the probe advertised: if
   some object carries that manifest, it is that object, byte for byte.
   */
  lemma FetchedIsAdvertised(net: Network, ids: nat -> Bytes, read: Reader, cached: Option<Object>, now: int,
                            spacing: nat, advertised: Object)
    requires Reads(read) && read(advertised.data) == Some(advertised)
    requires Fetch(net, ids, read, cached, now, spacing).Got?
    requires Exchange(net, 0, ProbeFor(ids(0), cached)).value.manifest == advertised.manifest
    ensures Fetch(net, ids, read, cached, now, spacing).obj == advertised
  {
    hide Exchange, CheckManifest, ProbeFor, Gather, ObjectOk;
    var g := Gather(net, ids, advertised.manifest, 0);
    assert read(g.data).value.data == g.data;
  }

  /** The object held at each exchange. */
  type Holding = nat -> Option<Object>

  ghost predicate HoldsObjects(hold: Holding) {
    forall i :: hold(i).Some? ==> ObjectOk(hold(i).value)
  }

  /** A region carrying one message, and what is read from it. */
  function Carried(m: Message): Option<Message>
    requires Typed(m) && Valid(m)
  {
    var c := Content(Field(m));
    if c.Found? then Some(c.message) else None
  }

  /** A request framed, read, answered from the object held, and the answer framed and read. */
  function Served(req: Message, obj: Option<Object>): Option<Message>
    requires Typed(req) && Valid(req) && (obj.Some? ==> ObjectOk(obj.value))
  {
    CarriedWhole(req);
    var q := Carried(req).value;
    ReplyFits(q, obj);
    var r := Reply(q, obj);
    if r.None? then None else Carried(r.value)
  }

  lemma CarriedWhole(m: Message)
    requires Typed(m) && Valid(m)
    ensures Carried(m) == Some(m)
  {
    hide Field, Content, Valid;
    FramedIsFound(m, [], []);
    assert [] + [Field(m)] + [] == [Field(m)];
    assert N.Concat([Field(m)][1..]) == [];
    assert N.Concat([Field(m)]) == Field(m);
  }

  lemma ServedIsReply(req: Message, obj: Option<Object>)
    requires Typed(req) && Valid(req) && (obj.Some? ==> ObjectOk(obj.value))
    ensures Served(req, obj) == Reply(req, obj)
  {
    hide Carried, Valid, Typed, Reply;
    CarriedWhole(req);
    ReplyFits(req, obj);
    if Reply(req, obj).Some? { CarriedWhole(Reply(req, obj).value); }
  }

  /** The distributor answers every valid request from whatever it holds at that moment. */
  ghost predicate Honest(net: Network, hold: Holding) {
    && HoldsObjects(hold)
    && forall i, req :: Typed(req) && Valid(req) ==> net(i, req) == Served(req, hold(i))
  }

  ghost predicate IdsOk(ids: nat -> Bytes) {
    forall i :: |ids(i)| == 16 && !AllZero(ids(i))
  }

  /** At that exchange the distributor still holds the object of this manifest. */
  ghost predicate Holds(hold: Holding, i: nat, f: Manifest) {
    hold(i).Some? && hold(i).value.manifest == f
  }

  ghost predicate HoldsFrom(hold: Holding, f: Manifest, offset: nat) {
    forall k: nat :: offset <= k < f.size && k % CHUNK_SIZE == 0 ==> Holds(hold, Turn(k), f)
  }

  lemma GetIsValid(id: Bytes, f: Manifest, offset: nat)
    requires ManifestTyped(f) && ManifestValid(f) && offset < f.size && offset % CHUNK_SIZE == 0
    requires |id| == 16 && !AllZero(id)
    ensures Typed(GetFor(id, f, offset)) && Valid(GetFor(id, f, offset))
  {
    assert f != NO_MANIFEST;
  }

  /** These are the bytes of the object that a chunk at the offset holds. */
  ghost predicate ChunkOf(o: Object, offset: nat, data: Bytes)
    requires offset <= o.manifest.size
  {
    var end := offset + ChunkLength(o.manifest.size, offset);
    end <= |o.data| && data == o.data[offset..end]
  }

  /** One chunk from an honest distributor: its bytes, or the news that the object is gone. */
  lemma ChunkComes(net: Network, ids: nat -> Bytes, hold: Holding, f: Manifest, offset: nat)
    requires Honest(net, hold) && IdsOk(ids) && ManifestTyped(f) && ManifestValid(f)
    requires offset < f.size && offset % CHUNK_SIZE == 0
    ensures var i := Turn(offset);
      var m := Exchange(net, i, GetFor(ids(i), f, offset));
      && m.Some? && (m.value.result == OK <==> Holds(hold, i, f))
      && (Holds(hold, i, f) ==> ChunkOf(hold(i).value, offset, m.value.data))
  {
    hide Typed, Valid, ManifestTyped, ManifestValid;
    var i := Turn(offset);
    var req := GetFor(ids(i), f, offset);
    GetIsValid(ids(i), f, offset);
    ReplyFits(req, hold(i));
    ServedIsReply(req, hold(i));
  }

  /**
   However the distributor's object changes during the transfer, the bytes arrive exactly
   when it held the advertised object at every chunk; otherwise the transfer ends as changed.
   */
  lemma {:induction false} GatheredExactly(net: Network, ids: nat -> Bytes, hold: Holding, f: Manifest, offset: nat)
    requires Honest(net, hold) && IdsOk(ids) && ManifestTyped(f) && ManifestValid(f) && offset % CHUNK_SIZE == 0
    ensures Gather(net, ids, f, offset).Whole? <==> HoldsFrom(hold, f, offset)
    ensures !HoldsFrom(hold, f, offset) ==> Gather(net, ids, f, offset) == Broken(Changed)
    decreases f.size - offset
  {
    hide Honest, IdsOk, ManifestTyped, ManifestValid, Exchange, GetFor, Holds;
    if offset < f.size {
      ChunkComes(net, ids, hold, f, offset);
      GatheredExactly(net, ids, hold, f, offset + CHUNK_SIZE);
      HoldsStep(hold, f, offset);
    }
  }

  lemma HoldsStep(hold: Holding, f: Manifest, offset: nat)
    requires offset < f.size && offset % CHUNK_SIZE == 0
    ensures HoldsFrom(hold, f, offset) <==> Holds(hold, Turn(offset), f) && HoldsFrom(hold, f, offset + CHUNK_SIZE)
  {
    hide Holds, Turn;
    if Holds(hold, Turn(offset), f) && HoldsFrom(hold, f, offset + CHUNK_SIZE) {
      forall k: nat | offset <= k < f.size && k % CHUNK_SIZE == 0 ensures Holds(hold, Turn(k), f) {
        assert k == offset || k >= offset + CHUNK_SIZE;
      }
    }
  }

  /** The bytes that arrive are those of the object, whichever exchanges they came from. */
  lemma {:induction false} GatheredIsObject(net: Network, ids: nat -> Bytes, hold: Holding, o: Object, offset: nat)
    requires Honest(net, hold) && IdsOk(ids) && ObjectOk(o) && offset % CHUNK_SIZE == 0
    requires HoldsFrom(hold, o.manifest, offset)
    requires forall i :: hold(i).Some? && hold(i).value.manifest == o.manifest ==> hold(i).value.data == o.data
    ensures Gather(net, ids, o.manifest, offset) == Whole(if offset < |o.data| then o.data[offset..] else [])
    decreases o.manifest.size - offset
  {
    hide Honest, IdsOk, ManifestTyped, ManifestValid, Exchange, GetFor;
    var f := o.manifest;
    if offset < f.size {
      ChunkComes(net, ids, hold, f, offset);
      HoldsStep(hold, f, offset);
      GatheredIsObject(net, ids, hold, o, offset + CHUNK_SIZE);
      var n := ChunkLength(f.size, offset);
      if offset + CHUNK_SIZE < f.size {
        assert o.data[offset..offset + n] + o.data[offset + n..] == o.data[offset..];
      } else {
        assert o.data[offset..offset + n] + [] == o.data[offset..];
      }
    }
  }

  /**
   Against an honest distributor, in every case: nothing where it holds nothing, the refusal of
   dates that do not fit, no transfer of what we have, and otherwise exactly the advertised object
   if that is held throughout, and the report of a change if not; it never yields a mixture.
   */
  lemma {:induction false} FetchFromHonest(net: Network, ids: nat -> Bytes, read: Reader, hold: Holding,
                                           cached: Option<Object>, now: int, spacing: nat)
    requires Honest(net, hold) && IdsOk(ids) && Reads(read) && (cached.Some? ==> ObjectOk(cached.value))
    requires forall i :: hold(i).Some? ==> read(hold(i).value.data) == hold(i)
    ensures Fetch(net, ids, read, cached, now, spacing) ==
      if hold(0).None? then Failed(Missing)
      else
        var f := hold(0).value.manifest;
        match CheckManifest(cached, f, now)
        case Rejected(reason) => Failed(Refused(reason))
        case Accepted =>
          if cached.Some? && cached.value.manifest == f then Unchanged
          else if HoldsFrom(hold, f, 0) then Got(hold(0).value)
          else Failed(Changed)
  {
    hide Gather, CheckManifest, Chunks, Honest, IdsOk, Exchange, ProbeFor, HoldsFrom, ManifestValid, ManifestTyped, Reads;
    ProbeComes(net, ids, hold, cached);
    if hold(0).Some? && CheckManifest(cached, hold(0).value.manifest, now) == Accepted {
      ManifestAccepted(cached, hold(0).value.manifest, now);
      AcceptedComes(net, ids, read, hold, spacing);
    }
  }

  lemma {:induction false} AcceptedComes(net: Network, ids: nat -> Bytes, read: Reader, hold: Holding, spacing: nat)
    requires Honest(net, hold) && IdsOk(ids) && Reads(read) && hold(0).Some? && ManifestValid(hold(0).value.manifest)
    requires forall i :: hold(i).Some? ==> read(hold(i).value.data) == hold(i)
    ensures var f := hold(0).value.manifest;
      && Chunks(f) * MinInt(spacing, MAX_SPACING) < TRANSFER_BOUND
      && Assembled(Gather(net, ids, f, 0), read, f) == if HoldsFrom(hold, f, 0) then Got(hold(0).value) else Failed(Changed)
  {
    hide Gather, CheckManifest, Chunks, Honest, IdsOk, Exchange, ProbeFor, HoldsFrom, ManifestValid, ManifestTyped, Reads;
    var o := hold(0).value;
    var f := o.manifest;
    HeldOk(net, hold);
    RateBoundIsIdle(f, spacing);
    GatheredExactly(net, ids, hold, f, 0);
    if HoldsFrom(hold, f, 0) {
      SameBytes(read, hold, o);
      GatheredIsObject(net, ids, hold, o, 0);
      assert o.data[0..] == o.data;
    }
  }

  lemma HeldOk(net: Network, hold: Holding)
    requires Honest(net, hold) && hold(0).Some?
    ensures ObjectOk(hold(0).value)
  {
  }

  lemma SameBytes(read: Reader, hold: Holding, o: Object)
    requires Reads(read) && read(o.data) == Some(o)
    requires forall i :: hold(i).Some? ==> read(hold(i).value.data) == hold(i)
    ensures forall i :: hold(i).Some? && hold(i).value.manifest == o.manifest ==> hold(i).value.data == o.data
  {
  }

  lemma ManifestAccepted(cached: Option<Object>, f: Manifest, now: int)
    requires CheckManifest(cached, f, now) == Accepted
    ensures ManifestValid(f)
  {
  }

  lemma ProbeComes(net: Network, ids: nat -> Bytes, hold: Holding, cached: Option<Object>)
    requires Honest(net, hold) && IdsOk(ids) && (cached.Some? ==> ObjectOk(cached.value))
    ensures var m := Exchange(net, 0, ProbeFor(ids(0), cached));
      && m.Some? && (m.value.result == NO_TABLE <==> hold(0).None?)
      && (hold(0).Some? ==> m.value.manifest == hold(0).value.manifest)
  {
    hide ManifestValid;
    var req := ProbeFor(ids(0), cached);
    assert Typed(req) && Valid(req);
    ReplyFits(req, hold(0));
    ServedIsReply(req, hold(0));
  }

  /** The receiver's side of a transfer. */
  method Receive(net: Network, ids: nat -> Bytes, read: Reader, cached: Option<Object>, now: int, spacing: nat)
    returns (r: Fetched)
    ensures r == Fetch(net, ids, read, cached, now, spacing)
  {
    hide Exchange, CheckManifest, Gather;
    var probe := Exchange(net, 0, ProbeFor(ids(0), cached));
    if probe.None? { return Failed(Timeout); }
    if probe.value.result == NO_TABLE { return Failed(Missing); }
    var f := probe.value.manifest;
    var v := CheckManifest(cached, f, now);
    if v != Accepted { return Failed(Refused(v.reason)); }
    if cached.Some? && f == cached.value.manifest { return Unchanged; }
    if Chunks(f) * MinInt(spacing, MAX_SPACING) >= TRANSFER_BOUND { return Failed(RateBound); }
    var g := Collect(net, ids, f);
    if g.Broken? { return Failed(g.failure); }
    var o := read(g.data);
    if o.None? { return Failed(BadFile); }
    if o.value.manifest != f { return Failed(Digest); }
    r := Got(o.value);
  }
}
