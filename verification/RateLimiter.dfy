/**
 The per-client token buckets of one listener: a bounded table kept in step with a list of its
 keys, most recently used first.  Times are monotonic seconds.
 */
module RateLimiter {
  import opened Basics

  const IDLE_EXPIRY: real := 60.0
  const KOD_INTERVAL: real := 4.0

  /** Which budget of an address a bucket belongs to. */
  datatype Keyspace = Service | Crypto

  /** A client address masked to its bucket prefix, the verified key id or zero, and the budget. */
  datatype Key = Key(addr: nat, keyId: nat, space: Keyspace)

  datatype Bucket = Bucket(tokens: real, updated: real, lastSeen: real, lastKoD: Option<real>)

  datatype Limits = Limits(rate: real, burst: real)

  // ----- one bucket

  function Fresh(c: Limits, now: real): Bucket {
    Bucket(c.burst, now, now, None)
  }

  function Refill(c: Limits, b: Bucket, now: real): Bucket {
    var elapsed := now - b.updated;
    var tokens := if elapsed > 0.0 then
                    (if b.tokens + elapsed * c.rate < c.burst then b.tokens + elapsed * c.rate else c.burst)
                  else b.tokens;
    b.(tokens := tokens, updated := now, lastSeen := now)
  }

  datatype Verdict = Verdict(bucket: Bucket, allowed: bool, sendKoD: bool)

  function Spend(b: Bucket, now: real): Verdict {
    if b.tokens >= 1.0 then
      Verdict(b.(tokens := b.tokens - 1.0), true, false)
    else if b.lastKoD.None? || now - b.lastKoD.value >= KOD_INTERVAL then
      Verdict(b.(lastKoD := Some(now)), false, true)
    else
      Verdict(b, false, false)
  }

  /** When a bucket accepted a request, and when it sent a kiss packet, since it was created. */
  datatype History = History(accepts: seq<real>, kisses: seq<real>)

  ghost function Extend(h: History, v: Verdict, now: real): History {
    History(if v.allowed then h.accepts + [now] else h.accepts, if v.sendKoD then h.kisses + [now] else h.kisses)
  }

  /** The requests accepted from the i-th to the j-th fit the burst plus what that time refills. */
  ghost predicate WindowOk(c: Limits, a: seq<real>, i: nat, j: nat)
    requires i <= j < |a|
  {
    (j - i + 1) as real <= c.burst + c.rate * (a[j] - a[i])
  }

  /** What the tokens in hand still owe to the stretch that began with the i-th acceptance. */
  ghost predicate Funded(c: Limits, b: Bucket, a: seq<real>, i: nat)
    requires i < |a|
  {
    a[i] <= b.updated && (|a| - i) as real + b.tokens <= c.burst + c.rate * (b.updated - a[i])
  }

  /** The stretch that began with the i-th acceptance has used up all it was owed but the tokens in hand. */
  ghost predicate Tight(c: Limits, b: Bucket, a: seq<real>, i: nat) {
    i < |a| && (|a| - i) as real + b.tokens == c.burst + c.rate * (b.updated - a[i])
  }

  /** No token was withheld: the bucket is full, or some stretch accounts for what is missing. */
  ghost predicate Exact(c: Limits, b: Bucket, a: seq<real>) {
    b.tokens == c.burst || exists i: nat :: Tight(c, b, a, i)
  }

  ghost predicate BucketOk(c: Limits, b: Bucket, h: History) {
    && 0.0 <= b.tokens <= c.burst && b.updated == b.lastSeen
    && Exact(c, b, h.accepts) && (forall i: nat :: i < |h.accepts| ==> Funded(c, b, h.accepts, i))
    && (forall i: nat, j: nat :: i <= j < |h.accepts| ==> WindowOk(c, h.accepts, i, j))
    && (forall i: nat, j: nat :: i < j < |h.kisses| ==> h.kisses[j] - h.kisses[i] >= KOD_INTERVAL)
    && b.lastKoD == if h.kisses == [] then None else Some(h.kisses[|h.kisses| - 1])
  }

  ghost predicate LimitsOk(c: Limits) {
    c.rate > 0.0 && c.burst >= 1.0
  }

  lemma FreshOk(c: Limits, now: real)
    requires LimitsOk(c)
    ensures BucketOk(c, Fresh(c, now), History([], []))
  {
  }

  lemma {:induction false} RefillKeepsFunded(c: Limits, b: Bucket, a: seq<real>, i: nat, now: real)
    requires LimitsOk(c) && i < |a| && Funded(c, b, a, i) && b.tokens <= c.burst && now >= b.updated
    ensures Funded(c, Refill(c, b, now), a, i)
  {
    RefillGain(c, b, now);
    Distribute(c.rate, b.updated - a[i], now - b.updated);
    assert b.updated - a[i] + (now - b.updated) == now - a[i];
  }

  /** A refill gains at most the elapsed time's worth of tokens and loses none. */
  lemma RefillGain(c: Limits, b: Bucket, now: real)
    requires LimitsOk(c) && b.tokens <= c.burst && now >= b.updated
    ensures b.tokens <= Refill(c, b, now).tokens <= c.burst
    ensures Refill(c, b, now).tokens <= b.tokens + c.rate * (now - b.updated)
  {
    assert (now - b.updated) * c.rate == c.rate * (now - b.updated) >= 0.0;
  }

  lemma Distribute(k: real, x: real, y: real)
    ensures k * (x + y) == k * x + k * y
  {
  }

  lemma {:induction false} RefillOk(c: Limits, b: Bucket, h: History, now: real)
    requires LimitsOk(c) && BucketOk(c, b, h) && now >= b.updated
    ensures BucketOk(c, Refill(c, b, now), h)
  {
    hide WindowOk, Funded, Tight;
    RefillGain(c, b, now);
    RefillExact(c, b, h.accepts, now);
    forall i: nat | i < |h.accepts| ensures Funded(c, Refill(c, b, now), h.accepts, i) {
      RefillKeepsFunded(c, b, h.accepts, i, now);
    }
  }

  lemma {:induction false} RefillExact(c: Limits, b: Bucket, a: seq<real>, now: real)
    requires LimitsOk(c) && Exact(c, b, a) && b.tokens <= c.burst && now >= b.updated
    ensures Exact(c, Refill(c, b, now), a)
  {
    var f := Refill(c, b, now);
    RefillGain(c, b, now);
    assert (now - b.updated) * c.rate == c.rate * (now - b.updated);
    if f.tokens != c.burst {
      var i: nat :| Tight(c, b, a, i);
      Distribute(c.rate, b.updated - a[i], now - b.updated);
      assert b.updated - a[i] + (now - b.updated) == now - a[i];
      assert Tight(c, f, a, i);
    }
  }

  /** A spent token starts a stretch or lengthens the one that accounts for the rest. */
  lemma {:induction false} SpendExact(c: Limits, b: Bucket, a: seq<real>)
    requires Exact(c, b, a)
    ensures Exact(c, b.(tokens := b.tokens - 1.0), a + [b.updated])
  {
    var d, e := b.(tokens := b.tokens - 1.0), a + [b.updated];
    if b.tokens == c.burst {
      assert c.rate * (b.updated - e[|a|]) == 0.0;
      assert Tight(c, d, e, |a|);
    } else {
      var i: nat :| Tight(c, b, a, i);
      assert Tight(c, d, e, i);
    }
  }

  lemma ExactAlike(c: Limits, b: Bucket, b': Bucket, a: seq<real>)
    requires Exact(c, b, a) && b'.tokens == b.tokens && b'.updated == b.updated
    ensures Exact(c, b', a)
  {
    if b.tokens != c.burst {
      var i: nat :| Tight(c, b, a, i);
      assert Tight(c, b', a, i);
    }
  }

  /** A refusal is forced: accepting this request too would break the bound for some stretch that ends with it. */
  lemma {:induction false} RefusalIsForced(c: Limits, b: Bucket, h: History)
    requires LimitsOk(c) && BucketOk(c, b, h) && b.tokens < 1.0
    ensures exists i: nat :: i < |h.accepts| && !WindowOk(c, h.accepts + [b.updated], i, |h.accepts|)
  {
    var i: nat :| Tight(c, b, h.accepts, i);
    assert !WindowOk(c, h.accepts + [b.updated], i, |h.accepts|);
  }

  /** Accepting a request at the bucket's own time closes every stretch within its bound. */
  lemma {:induction false} SpendKeepsFunded(c: Limits, b: Bucket, a: seq<real>, i: nat)
    requires i <= |a| && 1.0 <= b.tokens <= c.burst && (i < |a| ==> Funded(c, b, a, i))
    ensures Funded(c, b.(tokens := b.tokens - 1.0), a + [b.updated], i)
    ensures WindowOk(c, a + [b.updated], i, |a|)
  {
  }

  lemma {:induction false} SpendOk(c: Limits, b: Bucket, h: History)
    requires BucketOk(c, b, h)
    ensures var v := Spend(b, b.updated); BucketOk(c, v.bucket, Extend(h, v, b.updated))
  {
    hide WindowOk, Funded, Exact;
    var v, now := Spend(b, b.updated), b.updated;
    var h' := Extend(h, v, now);
    if v.allowed {
      SpendExact(c, b, h.accepts);
      forall i: nat | i < |h'.accepts|
        ensures Funded(c, v.bucket, h'.accepts, i) && WindowOk(c, h'.accepts, i, |h.accepts|)
      {
        SpendKeepsFunded(c, b, h.accepts, i);
      }
      forall i: nat, j: nat | i <= j < |h'.accepts| ensures WindowOk(c, h'.accepts, i, j) {
        if j < |h.accepts| { WindowPrefix(c, h.accepts, now, i, j); }
      }
    } else {
      KoDSpaced(b, h);
      ExactAlike(c, b, v.bucket, h.accepts);
      forall i: nat | i < |h.accepts| ensures Funded(c, v.bucket, h.accepts, i) {
        FundedAlike(c, b, v.bucket, h.accepts, i);
      }
    }
  }

  lemma FundedAlike(c: Limits, b: Bucket, b': Bucket, a: seq<real>, i: nat)
    requires i < |a| && Funded(c, b, a, i) && b'.tokens == b.tokens && b'.updated == b.updated
    ensures Funded(c, b', a, i)
  {
  }

  lemma WindowPrefix(c: Limits, a: seq<real>, x: real, i: nat, j: nat)
    requires i <= j < |a| && WindowOk(c, a, i, j)
    ensures WindowOk(c, a + [x], i, j)
  {
  }

  lemma KoDSpaced(b: Bucket, h: History)
    requires forall i: nat, j: nat :: i < j < |h.kisses| ==> h.kisses[j] - h.kisses[i] >= KOD_INTERVAL
    requires b.lastKoD == if h.kisses == [] then None else Some(h.kisses[|h.kisses| - 1])
    requires b.tokens < 1.0
    ensures var v := Spend(b, b.updated); var k := Extend(h, v, b.updated).kisses;
      && (forall i: nat, j: nat :: i < j < |k| ==> k[j] - k[i] >= KOD_INTERVAL)
      && v.bucket.lastKoD == if k == [] then None else Some(k[|k| - 1])
  {
  }

  /** The request just decided, by the bucket's history after it. */
  ghost predicate Decided(c: Limits, h: History, allowed: bool, sendKoD: bool, now: real) {
    && (allowed ==> h.accepts != [] && h.accepts[|h.accepts| - 1] == now && !sendKoD)
    && (!allowed ==> exists i: nat :: i < |h.accepts| && !WindowOk(c, h.accepts + [now], i, |h.accepts|))
    && (!allowed ==> h.kisses != [] && now - h.kisses[|h.kisses| - 1] < KOD_INTERVAL)
    && (sendKoD ==> h.kisses != [] && h.kisses[|h.kisses| - 1] == now)
  }

  lemma {:induction false} DecidedBy(c: Limits, b: Bucket, h: History, b': Bucket, h': History, allowed: bool, sendKoD: bool, now: real)
    requires LimitsOk(c) && BucketOk(c, b', h') && b.updated == now
    requires Verdict(b', allowed, sendKoD) == Spend(b, now) && h' == Extend(h, Verdict(b', allowed, sendKoD), now)
    ensures Decided(c, h', allowed, sendKoD, now)
  {
    if !allowed { RefusalIsForced(c, b', h'); }
  }

  // ----- the list of keys

  ghost predicate NoRepeats(s: seq<Key>) {
    forall i, j :: 0 <= i < j < |s| ==> s[i] != s[j]
  }

  function IndexOf(s: seq<Key>, k: Key): (i: nat)
    requires k in s
    ensures i < |s| && s[i] == k
  {
    if s[0] == k then 0 else 1 + IndexOf(s[1..], k)
  }

  function Without(s: seq<Key>, k: Key): seq<Key>
    requires k in s
  {
    var i := IndexOf(s, k);
    s[..i] + s[i + 1..]
  }

  lemma {:induction false} WithoutOk(s: seq<Key>, k: Key)
    requires NoRepeats(s) && k in s
    ensures NoRepeats(Without(s, k)) && |Without(s, k)| == |s| - 1
    ensures forall x :: x in Without(s, k) <==> x in s && x != k
    ensures s[|s| - 1] == k ==> Without(s, k) == s[..|s| - 1]
  {
    var i, r := IndexOf(s, k), Without(s, k);
    forall x | x in s && x != k ensures x in r {
      var j :| 0 <= j < |s| && s[j] == x;
      assert r[if j < i then j else j - 1] == x;
    }
  }

  /** Least recently used last. */
  ghost predicate ByUse(s: seq<Key>, m: map<Key, Bucket>) {
    && (forall k :: k in s ==> k in m)
    && forall i, j :: 0 <= i < j < |s| ==> m[s[i]].lastSeen >= m[s[j]].lastSeen
  }

  lemma {:induction false} WithoutByUse(s: seq<Key>, k: Key, m: map<Key, Bucket>)
    requires NoRepeats(s) && k in s && ByUse(s, m)
    ensures ByUse(Without(s, k), m)
  {
    WithoutOk(s, k);
  }

  predicate Idle(b: Bucket, now: real) {
    now - b.lastSeen > IDLE_EXPIRY
  }

  /** The table and the list hold the same keys, each once, and no more than the bound. */
  ghost predicate InStep(s: seq<Key>, m: map<Key, Bucket>, log: map<Key, History>, bound: nat) {
    && NoRepeats(s) && |s| <= bound
    && (forall k :: k in m <==> k in s)
    && log.Keys == m.Keys
  }

  ghost predicate BucketsOk(c: Limits, m: map<Key, Bucket>, log: map<Key, History>, latest: real) {
    && log.Keys == m.Keys
    && forall k :: k in m ==> BucketOk(c, m[k], log[k]) && m[k].lastSeen <= latest
  }

  /** Every bucket of the smaller table is, with its history, one of the larger. */
  ghost predicate PartOf(m: map<Key, Bucket>, log: map<Key, History>, m0: map<Key, Bucket>, log0: map<Key, History>) {
    forall k :: k in m ==> k in m0 && m[k] == m0[k] && k in log && k in log0 && log[k] == log0[k]
  }

  lemma {:induction false} RemoveKeeps(s: seq<Key>, m: map<Key, Bucket>, log: map<Key, History>, bound: nat, k: Key)
    requires InStep(s, m, log, bound) && k in m
    ensures InStep(Without(s, k), m - {k}, log - {k}, bound)
    ensures ByUse(s, m) ==> ByUse(Without(s, k), m - {k})
  {
    WithoutOk(s, k);
    if ByUse(s, m) { WithoutByUse(s, k, m); }
  }

  lemma {:induction false} RemoveBuckets(c: Limits, m: map<Key, Bucket>, log: map<Key, History>, latest: real, k: Key)
    requires BucketsOk(c, m, log, latest)
    ensures BucketsOk(c, m - {k}, log - {k}, latest)
  {
    hide BucketOk;
    assert (log - {k}).Keys == (m - {k}).Keys;
  }

  lemma {:induction false} TouchKeeps(s: seq<Key>, m: map<Key, Bucket>, log: map<Key, History>, bound: nat,
                                      k: Key, b: Bucket, h: History)
    requires InStep(s, m, log, bound) && k in m
    ensures InStep([k] + Without(s, k), m[k := b], log[k := h], bound)
    ensures ByUse(s, m) && (forall x :: x in m ==> b.lastSeen >= m[x].lastSeen) ==>
      ByUse([k] + Without(s, k), m[k := b])
  {
    WithoutOk(s, k);
    if ByUse(s, m) { WithoutByUse(s, k, m); }
  }

  lemma {:induction false} PushKeeps(s: seq<Key>, m: map<Key, Bucket>, log: map<Key, History>, bound: nat,
                                     k: Key, b: Bucket, h: History)
    requires InStep(s, m, log, bound) && k !in m && |s| < bound
    ensures InStep([k] + s, m[k := b], log[k := h], bound)
    ensures ByUse(s, m) && (forall x :: x in m ==> b.lastSeen >= m[x].lastSeen) ==> ByUse([k] + s, m[k := b])
  {
  }

  lemma {:induction false} PutBucket(c: Limits, m: map<Key, Bucket>, log: map<Key, History>, latest: real,
                                     k: Key, b: Bucket, h: History)
    requires BucketsOk(c, m, log, latest) && BucketOk(c, b, h) && b.lastSeen >= latest
    ensures BucketsOk(c, m[k := b], log[k := h], b.lastSeen)
  {
    hide BucketOk;
  }

  /** In order of use, a list whose back is not idle holds no idle bucket. */
  lemma {:induction false} BackDecides(s: seq<Key>, m: map<Key, Bucket>, now: real, k: Key)
    requires ByUse(s, m) && k in s && !Idle(m[s[|s| - 1]], now)
    ensures !Idle(m[k], now)
  {
    var i :| 0 <= i < |s| && s[i] == k;
    assert i < |s| - 1 ==> m[s[i]].lastSeen >= m[s[|s| - 1]].lastSeen;
  }

  class Limiter {
    const limits: Limits
    const maxClients: nat
    var clients: map<Key, Bucket>
    var lru: seq<Key>
    ghost var log: map<Key, History>
    ghost var latest: real

    ghost predicate Valid()
      reads this
    {
      LimitsOk(limits) && maxClients >= 1 && InStep(lru, clients, log, maxClients)
    }

    /** What holds besides while the times presented never go back. */
    ghost predicate Timely()
      reads this
    {
      Valid() && ByUse(lru, clients) && BucketsOk(limits, clients, log, latest)
    }

    constructor (limits: Limits, maxClients: nat, ghost start: real)
      requires LimitsOk(limits) && maxClients >= 1
      ensures Timely() && clients == map[] && latest == start
      ensures this.limits == limits && this.maxClients == maxClients
    {
      this.limits, this.maxClients := limits, maxClients;
      clients, lru, log, latest := map[], [], map[], start;
    }

    method Remove(k: Key)
      requires Valid() && k in clients
      modifies this`clients, this`lru, this`log
      ensures Valid() && clients == old(clients) - {k} && log == old(log) - {k} && lru == Without(old(lru), k)
      ensures old(Timely()) ==> Timely()
    {
      hide InStep, ByUse, BucketsOk;
      RemoveKeeps(lru, clients, log, maxClients, k);
      if BucketsOk(limits, clients, log, latest) { RemoveBuckets(limits, clients, log, latest, k); }
      assert k in lru;
      clients, lru, log := clients - {k}, Without(lru, k), log - {k};
    }

    /**
     Drops buckets from the back of the list while they are idle.  Only idle ones go; and when
     the list is in order of use, all of them do.
     */
    method Expire(now: real)
      requires Valid()
      modifies this`clients, this`lru, this`log
      ensures Valid() && (old(Timely()) ==> Timely())
      ensures PartOf(clients, log, old(clients), old(log))
      ensures forall k :: k in old(clients) && k !in clients ==> Idle(old(clients)[k], now)
      ensures old(Timely()) ==> forall k :: k in clients ==> !Idle(clients[k], now)
    {
      hide BucketsOk;
      while lru != [] && now - clients[lru[|lru| - 1]].lastSeen > IDLE_EXPIRY
        invariant Valid() && (old(Timely()) ==> Timely())
        invariant PartOf(clients, log, old(clients), old(log))
        invariant forall k :: k in old(clients) && k !in clients ==> Idle(old(clients)[k], now)
        decreases |lru|
      {
        var k := lru[|lru| - 1];
        WithoutOk(lru, k);
        Remove(k);
      }
      if ByUse(lru, clients) {
        forall k | k in clients ensures !Idle(clients[k], now) {
          BackDecides(lru, clients, now, k);
        }
      }
    }

    /** The least recently used bucket goes. */
    method EvictOldest()
      requires Valid()
      modifies this`clients, this`lru, this`log
      ensures Valid() && (old(Timely()) ==> Timely())
      ensures old(lru) == [] ==> unchanged(this)
      ensures old(lru) != [] ==>
        var k := old(lru)[|old(lru)| - 1];
        && lru == old(lru)[..|old(lru)| - 1] && clients == old(clients) - {k} && log == old(log) - {k}
        && (old(Timely()) ==> forall x :: x in old(clients) ==> old(clients)[k].lastSeen <= old(clients)[x].lastSeen)
    {
      hide BucketsOk;
      if lru != [] {
        var k := lru[|lru| - 1];
        WithoutOk(lru, k);
        if ByUse(lru, clients) {
          forall x | x in clients ensures clients[k].lastSeen <= clients[x].lastSeen {
            var i :| 0 <= i < |lru| && lru[i] == x;
          }
        }
        Remove(k);
      }
    }

    /** The bucket a request at time now is charged to, before it is charged. */
    ghost function Charged(k: Key, now: real): Bucket
      reads this
    {
      if k in clients then Refill(limits, clients[k], now) else Fresh(limits, now)
    }

    ghost function HistoryOf(k: Key): History
      reads this
      requires Valid()
    {
      if k in clients then log[k] else History([], [])
    }

    /** Charges the bucket of k, creating it if need be, and moves it to the front. */
    method Charge(k: Key, now: real) returns (allowed: bool, sendKoD: bool)
      requires Valid() && (k in clients ==> k in lru) && (k !in clients ==> |lru| < maxClients)
      modifies this
      ensures Valid() && (old(Timely()) && now >= old(latest) ==> Timely()) && latest == now
      ensures var v := Spend(old(Charged(k, now)), now);
        && clients == old(clients)[k := v.bucket] && allowed == v.allowed && sendKoD == v.sendKoD
        && log == old(log)[k := Extend(old(HistoryOf(k)), v, now)]
      ensures lru == [k] + if k in old(clients) then Without(old(lru), k) else old(lru)
    {
      hide InStep, ByUse, BucketOk, BucketsOk;
      ghost var h, timely := HistoryOf(k), Timely() && now >= latest;
      ghost var m0, log0 := clients, log;
      var b: Bucket;
      if k !in clients {
        b := Bucket(limits.burst, now, now, None);
        lru := [k] + lru;
      } else {
        b := clients[k];
        var elapsed := now - b.updated;
        if elapsed > 0.0 {
          var filled := b.tokens + elapsed * limits.rate;
          b := b.(tokens := if filled < limits.burst then filled else limits.burst);
        }
        b := b.(updated := now, lastSeen := now);
        lru := [k] + Without(lru, k);
      }
      assert b == old(Charged(k, now));
      if b.tokens >= 1.0 {
        b, allowed, sendKoD := b.(tokens := b.tokens - 1.0), true, false;
      } else if b.lastKoD.None? || now - b.lastKoD.value >= KOD_INTERVAL {
        b, allowed, sendKoD := b.(lastKoD := Some(now)), false, true;
      } else {
        allowed, sendKoD := false, false;
      }
      ghost var v := Spend(old(Charged(k, now)), now);
      assert v == Verdict(b, allowed, sendKoD);
      clients, log, latest := clients[k := b], log[k := Extend(h, v, now)], now;
      assert Valid() by {
        if k in m0 { TouchKeeps(old(lru), m0, log0, maxClients, k, b, log[k]); }
        else { PushKeeps(old(lru), m0, log0, maxClients, k, b, log[k]); }
      }
      if timely {
        ChargeKeepsBuckets(limits, m0, log0, old(latest), k, now);
        assert forall x :: x in m0 ==> b.lastSeen >= m0[x].lastSeen by { LastSeenBound(limits, m0, log0, old(latest)); }
        if k in m0 { TouchKeeps(old(lru), m0, log0, maxClients, k, b, log[k]); }
        else { PushKeeps(old(lru), m0, log0, maxClients, k, b, log[k]); }
      }
    }

    /** Expires idle buckets, and evicts the oldest if k needs a place in a full table. */
    method MakeRoom(k: Key, now: real)
      requires Valid()
      modifies this`clients, this`lru, this`log
      ensures Valid() && (old(Timely()) ==> Timely())
      ensures (k in clients ==> k in lru) && (k !in clients ==> |lru| < maxClients)
      ensures PartOf(clients, log, old(clients), old(log))
      ensures old(Timely()) ==> (k in clients <==> k in old(clients) && !Idle(old(clients)[k], now))
      ensures old(Timely()) ==> forall x :: x in clients ==> !Idle(clients[x], now)
      ensures old(Timely()) && k in clients ==>
        forall x :: x in old(clients) && !Idle(old(clients)[x], now) ==> x in clients
    {
      hide InStep, ByUse, BucketOk, BucketsOk;
      Expire(now);
      InStepFacts(lru, clients, log, maxClients, k);
      if k !in clients && |clients| >= maxClients {
        EvictOldest();
        InStepFacts(lru, clients, log, maxClients, k);
      }
    }

    /**
     Decides one request.  With times that never go back, the idle buckets are gone, the
     least recently used one made room if the table was full, and every bucket left
     keeps its bound.
     */
    method Allow(k: Key, now: real) returns (allowed: bool, sendKoD: bool)
      requires Valid()
      modifies this
      ensures Valid() && (old(Timely()) && now >= old(latest) ==> Timely()) && latest == now
      ensures k in clients && k in log && lru != [] && lru[0] == k
      ensures PartOf(clients - {k}, log - {k}, old(clients), old(log))
      ensures old(Timely()) ==>
        var kept := k in old(clients) && !Idle(old(clients)[k], now);
        var v := Spend(if kept then Refill(limits, old(clients)[k], now) else Fresh(limits, now), now);
        && Verdict(clients[k], allowed, sendKoD) == v
        && log[k] == Extend(if kept then old(log)[k] else History([], []), v, now)
      ensures old(Timely()) && now >= old(latest) ==> Decided(limits, log[k], allowed, sendKoD, now)
      ensures old(Timely()) ==> forall x :: x in clients && x != k ==> !Idle(clients[x], now)
      ensures old(Timely()) && k in old(clients) && !Idle(old(clients)[k], now) ==>
        forall x :: x in old(clients) && !Idle(old(clients)[x], now) ==> x in clients
    {
      hide InStep, ByUse, BucketOk, BucketsOk, Refill, Spend;
      MakeRoom(k, now);
      ghost var b, h := Charged(k, now), HistoryOf(k);
      assert b.updated == now by { if k in clients { RefilledNow(limits, clients[k], now); } }
      allowed, sendKoD := Charge(k, now);
      if old(Timely()) && now >= old(latest) {
        assert BucketOk(limits, clients[k], log[k]) by { OneBucket(limits, clients, log, latest, k); }
        DecidedBy(limits, b, h, clients[k], log[k], allowed, sendKoD, now);
      }
    }
  }

  /** A bucket that stays in the table accepts at most burst plus rate times T requests in any time T. */
  lemma {:induction false} AcceptedWithin(l: Limiter, k: Key, i: nat, j: nat, t: real)
    requires l.Timely() && k in l.clients && i <= j < |l.log[k].accepts|
    requires l.log[k].accepts[j] - l.log[k].accepts[i] <= t
    ensures (j - i + 1) as real <= l.limits.burst + l.limits.rate * t
  {
    hide InStep, ByUse, Exact, Funded;
    var a := l.log[k].accepts;
    assert BucketOk(l.limits, l.clients[k], l.log[k]);
    assert WindowOk(l.limits, a, i, j);
    WindowWithin(l.limits, a[j] - a[i], t, j - i + 1);
  }

  lemma WindowWithin(c: Limits, span: real, t: real, n: int)
    requires c.rate >= 0.0 && span <= t && n as real <= c.burst + c.rate * span
    ensures n as real <= c.burst + c.rate * t
  {
    Distribute(c.rate, span, t - span);
    assert c.rate * (t - span) >= 0.0;
  }

  lemma {:induction false} SizeMatches(s: seq<Key>, keys: set<Key>)
    requires NoRepeats(s) && forall k :: k in keys <==> k in s
    ensures |keys| == |s|
  {
    if s != [] {
      var last := s[|s| - 1];
      SizeMatches(s[..|s| - 1], keys - {last});
    } else {
      assert keys == {};
    }
  }

  lemma {:induction false} InStepFacts(s: seq<Key>, m: map<Key, Bucket>, log: map<Key, History>, bound: nat, k: Key)
    requires InStep(s, m, log, bound)
    ensures (k in m <==> k in s) && |m| == |s| <= bound && log.Keys == m.Keys
  {
    SizeMatches(s, m.Keys);
  }

  lemma RefilledNow(c: Limits, b: Bucket, now: real)
    ensures Refill(c, b, now).updated == now
  {
  }

  lemma OneBucket(c: Limits, m: map<Key, Bucket>, log: map<Key, History>, latest: real, k: Key)
    requires BucketsOk(c, m, log, latest) && k in m
    ensures k in log && BucketOk(c, m[k], log[k])
  {
  }

  lemma LastSeenBound(c: Limits, m: map<Key, Bucket>, log: map<Key, History>, latest: real)
    requires BucketsOk(c, m, log, latest)
    ensures forall x :: x in m ==> m[x].lastSeen <= latest
  {
  }

  lemma {:induction false} ChargeKeepsBuckets(c: Limits, m: map<Key, Bucket>, log: map<Key, History>, latest: real,
                                              k: Key, now: real)
    requires LimitsOk(c) && BucketsOk(c, m, log, latest) && now >= latest
    ensures var b := if k in m then Refill(c, m[k], now) else Fresh(c, now);
      var h := if k in m then log[k] else History([], []);
      var v := Spend(b, now);
      BucketsOk(c, m[k := v.bucket], log[k := Extend(h, v, now)], now)
  {
    var b := if k in m then Refill(c, m[k], now) else Fresh(c, now);
    var h := if k in m then log[k] else History([], []);
    if k in m { RefillOk(c, m[k], log[k], now); } else { FreshOk(c, now); }
    SpendOk(c, b, h);
    var v := Spend(b, now);
    PutBucket(c, m, log, latest, k, v.bucket, Extend(h, v, now));
  }
}
