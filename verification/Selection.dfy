/**
 Selection as a whole (RFC 5905 section 11.2): which sources may be candidates, the intersection
 and clustering of those that can number seconds, the pulses these vouch for, the source that
 drives the clock, and the offset combined from the survivors.
 */
module Selection {
  import opened Basics
  import opened Bytes
  import I = Intersection
  import C = Clustering
  import F = ClockFilter
  import L = PhaseLoop

  type Name = string

  const MIN_DISPERSION: real := 0.001
  const PPS_GUARD: real := 0.4
  const AGREEMENT_FLOOR: real := 0.001
  const MIN_POLL: int := 2
  const MAX_POLL: int := 17
  const REACH_BITS: real := 8.0
  const MIN_FRESHNESS: real := 64.0

  datatype Options = Options(prefer: bool, noSelect: bool, numbering: bool, pps: bool)

  /** What a source measured and what its server said of itself. */
  datatype Estimate = Estimate(
    at: real, offset: real, delay: real, dispersion: real, jitter: real,
    unsync: bool, stratum: nat, refId: Bytes, sourceRefId: Bytes, rootDelay: real, rootDisp: real)

  ghost predicate EstimateOk(e: Estimate) {
    e.dispersion >= 0.0 && e.jitter >= 0.0 && e.rootDisp >= 0.0
  }

  /** A registered source.  `usedAt` is the sample the loop last used, `sinceStep` counts estimates since the last step. */
  datatype Peer = Peer(
    options: Options, reach: nat, poll: int, valid: bool, updated: real, est: Estimate, usedAt: real, sinceStep: nat)

  /** The sources in order of registration, each one's offset carried to now, and the rules of this selection. */
  datatype Context = Context(peers: seq<Peer>, current: seq<real>, now: real, local: set<Bytes>, minSurvivors: int)

  ghost predicate ContextOk(c: Context) {
    |c.current| == |c.peers| && forall i :: 0 <= i < |c.peers| ==> EstimateOk(c.peers[i].est)
  }

  // ----- screening

  datatype Refusal = Unreachable | NoSelect | Invalid

  function RootDistance(p: Peer, now: real): (d: real)
    ensures EstimateOk(p.est) ==> d >= MIN_DISPERSION / 2.0
  {
    var age := Max(0.0, now - p.updated);
    Max(MIN_DISPERSION, p.est.rootDelay + p.est.delay) / 2.0 + p.est.rootDisp + p.est.dispersion + F.PHI * age + p.est.jitter
  }

  /** How long an estimate may stand: eight polls, and at least 64 seconds. */
  function FreshnessDeadline(poll: int): (d: real)
    ensures d >= MIN_FRESHNESS
  {
    Max(MIN_FRESHNESS, REACH_BITS * L.Pow2(MaxInt(MIN_POLL, MinInt(MAX_POLL, poll))))
  }

  predicate Stale(p: Peer, now: real) {
    p.valid && now - p.updated > FreshnessDeadline(p.poll)
  }

  /** A textual identifier is never an address. */
  predicate IsText(id: Bytes) {
    forall i :: 0 <= i < |id| ==> 0x20 <= id[i] <= 0x7e
  }

  /** The source is this host, or is synchronized to it. */
  predicate TimingLoop(e: Estimate, local: set<Bytes>) {
    (!IsText(e.sourceRefId) && e.sourceRefId in local) || (e.stratum > 1 && !IsText(e.refId) && e.refId in local)
  }

  /** Why a source is no candidate. */
  function Screen(p: Peer, now: real, local: set<Bytes>): Option<Refusal> {
    if p.reach == 0 then Some(Unreachable)
    else if p.options.noSelect then Some(NoSelect)
    else if Stale(p, now) then Some(Unreachable)
    else if !p.valid || p.est.unsync || p.est.stratum >= 16 || RootDistance(p, now) >= F.MAX_DISTANCE then Some(Invalid)
    else if TimingLoop(p.est, local) then Some(Invalid)
    else None
  }

  predicate Eligible(c: Context, i: nat) {
    i < |c.peers| && Screen(c.peers[i], c.now, c.local).None?
  }

  predicate IsPulse(c: Context, i: nat) {
    i < |c.peers| && c.peers[i].options.pps
  }

  function AsSource(c: Context, i: nat): I.Source
    requires i < |c.peers| == |c.current|
  {
    I.Source(i, c.current[i], RootDistance(c.peers[i], c.now), c.peers[i].est.jitter)
  }

  /** Candidates for the intersection, in order: none of them a pulse, each once. */
  ghost predicate Listed(c: Context, s: seq<I.Source>)
    requires ContextOk(c)
  {
    && (forall k :: 0 <= k < |s| ==> Eligible(c, s[k].id) && !IsPulse(c, s[k].id) && s[k] == AsSource(c, s[k].id))
    && forall k, m :: 0 <= k < m < |s| ==> s[k].id < s[m].id
  }

  /** s lists exactly the candidates among the first n sources. */
  ghost predicate Gathered(c: Context, s: seq<I.Source>, pulses: seq<nat>, n: nat)
    requires ContextOk(c) && n <= |c.peers|
  {
    && Listed(c, s) && (forall k :: 0 <= k < |s| ==> s[k].id < n)
    && (forall i: nat :: i < n && Eligible(c, i) && !IsPulse(c, i) ==> AsSource(c, i) in s)
    && (forall k, m :: 0 <= k < m < |pulses| ==> pulses[k] < pulses[m])
    && (forall i: nat :: i in pulses <==> i < n && Eligible(c, i) && IsPulse(c, i))
  }

  method Gather(c: Context) returns (cands: seq<I.Source>, pulses: seq<nat>)
    requires ContextOk(c)
    ensures Gathered(c, cands, pulses, |c.peers|)
  {
    hide Screen, RootDistance, EstimateOk;
    cands, pulses := [], [];
    for i := 0 to |c.peers|
      invariant Gathered(c, cands, pulses, i)
    {
      assert forall k :: 0 <= k < |pulses| ==> pulses[k] in pulses;
      if Screen(c.peers[i], c.now, c.local).None? {
        if c.peers[i].options.pps {
          pulses := pulses + [i];
        } else {
          cands := cands + [AsSource(c, i)];
        }
      }
    }
  }

  lemma ListedIsSound(c: Context, s: seq<I.Source>)
    requires ContextOk(c) && Listed(c, s)
    ensures I.NonNegative(s) && forall i :: 0 <= i < |s| ==> s[i].jitter >= 0.0
  {
  }

  lemma {:induction false} ListedFront(c: Context, x: I.Source, s: seq<I.Source>)
    requires ContextOk(c) && Listed(c, s) && Listed(c, [x]) && forall k :: 0 <= k < |s| ==> x.id < s[k].id
    ensures Listed(c, [x] + s)
  {
    hide Eligible, AsSource, IsPulse;
    assert [x][0] == x;
  }

  lemma {:induction false} ListedSplit(c: Context, s: seq<I.Source>)
    requires ContextOk(c) && Listed(c, s) && s != []
    ensures Listed(c, s[1..]) && Listed(c, [s[0]]) && forall k :: 0 < k < |s| ==> s[0].id < s[k].id
  {
    hide Eligible, AsSource, IsPulse;
  }

  lemma {:induction false} OverlappingListed(c: Context, s: seq<I.Source>, low: real, high: real)
    requires ContextOk(c) && Listed(c, s)
    ensures Listed(c, I.Overlapping(s, low, high)) && forall x :: x in I.Overlapping(s, low, high) ==> x in s
  {
    hide Listed, ContextOk, I.Overlaps;
    if s != [] {
      ListedSplit(c, s);
      OverlappingListed(c, s[1..], low, high);
      var rest := I.Overlapping(s[1..], low, high);
      forall k | 0 <= k < |rest| ensures s[0].id < rest[k].id {
        assert rest[k] in s[1..];
      }
      ListedFront(c, s[0], rest);
      assert [] + rest == rest;
    }
  }

  lemma {:induction false} ClusteredListed(c: Context, s: seq<I.Source>)
    requires ContextOk(c) && Listed(c, s)
    ensures Listed(c, C.Clustered(s))
  {
    var at := C.ClusteredOrder(s);
  }

  // ----- pulses

  /** A surviving numbering source puts the clock within the guard and agrees with the pulse. */
  predicate Vouches(c: Context, s: I.Source, p: nat)
    requires ContextOk(c) && p < |c.peers|
  {
    && s.id < |c.peers| && c.peers[s.id].options.numbering && Abs(s.current) < PPS_GUARD
    && Abs(s.current - c.current[p]) <= s.distance + Max(4.0 * s.jitter, AGREEMENT_FLOOR)
  }

  ghost predicate Vouched(c: Context, kept: seq<I.Source>, p: nat)
    requires ContextOk(c) && p < |c.peers|
  {
    exists k :: 0 <= k < |kept| && Vouches(c, kept[k], p)
  }

  method Numbering(c: Context, kept: seq<I.Source>) returns (r: seq<I.Source>)
    requires ContextOk(c)
    ensures forall s :: s in r <==> s in kept && s.id < |c.peers| && c.peers[s.id].options.numbering && Abs(s.current) < PPS_GUARD
  {
    r := [];
    for i := 0 to |kept|
      invariant forall s :: s in r <==>
        s in kept[..i] && s.id < |c.peers| && c.peers[s.id].options.numbering && Abs(s.current) < PPS_GUARD
    {
      var s := kept[i];
      if s.id < |c.peers| && c.peers[s.id].options.numbering && Abs(s.current) < PPS_GUARD {
        r := r + [s];
      }
    }
    assert kept[..|kept|] == kept;
  }

  method Agrees(c: Context, kept: seq<I.Source>, numbering: seq<I.Source>, p: nat) returns (ok: bool)
    requires ContextOk(c) && p < |c.peers|
    requires forall s :: s in numbering <==>
      s in kept && s.id < |c.peers| && c.peers[s.id].options.numbering && Abs(s.current) < PPS_GUARD
    ensures ok <==> Vouched(c, kept, p)
  {
    for i := 0 to |numbering|
      invariant forall k :: 0 <= k < i ==> !Vouches(c, numbering[k], p)
    {
      var s := numbering[i];
      assert s in numbering;
      if Abs(s.current - c.current[p]) <= s.distance + Max(4.0 * s.jitter, AGREEMENT_FLOOR) {
        assert Vouches(c, s, p);
        return true;
      }
    }
    forall k | 0 <= k < |kept| ensures !Vouches(c, kept[k], p) {
      if kept[k] in numbering {
        var j :| 0 <= j < |numbering| && numbering[j] == kept[k];
      }
    }
    ok := false;
  }

  /** The pulses that may be used, in order. */
  method Qualify(c: Context, kept: seq<I.Source>, pulses: seq<nat>) returns (r: seq<nat>)
    requires ContextOk(c) && (forall k :: 0 <= k < |pulses| ==> pulses[k] < |c.peers|)
    requires forall k, m :: 0 <= k < m < |pulses| ==> pulses[k] < pulses[m]
    ensures forall i: nat :: i in r <==> i in pulses && Vouched(c, kept, i)
    ensures forall k, m :: 0 <= k < m < |r| ==> r[k] < r[m]
  {
    hide Vouched, ContextOk;
    var numbering := Numbering(c, kept);
    r := [];
    for i := 0 to |pulses|
      invariant forall x: nat :: x in r <==> x in pulses[..i] && Vouched(c, kept, x)
      invariant forall k, m :: 0 <= k < m < |r| ==> r[k] < r[m]
    {
      var ok := Agrees(c, kept, numbering, pulses[i]);
      assert forall k :: 0 <= k < |r| ==> r[k] in pulses[..i];
      if ok { r := r + [pulses[i]]; }
    }
    assert pulses[..|pulses|] == pulses;
  }

  // ----- ranking

  /** The key survivors are sorted by: stratum first, then distance. */
  function Synch(c: Context, i: nat): real
    requires i < |c.peers|
  {
    c.peers[i].est.stratum as real * F.MAX_DISTANCE + RootDistance(c.peers[i], c.now)
  }

  /** Lower stratum first, then smaller distance; among equals pulses last, and then in order of registration. */
  predicate Ranks(c: Context, a: nat, b: nat)
    requires a < |c.peers| && b < |c.peers|
  {
    var p, q := c.peers[a], c.peers[b];
    var dp, dq := RootDistance(p, c.now), RootDistance(q, c.now);
    || p.est.stratum < q.est.stratum
    || (p.est.stratum == q.est.stratum && (dp < dq || (dp == dq && Earlier(c, a, b))))
  }

  /** The order in which survivors are listed before they are sorted. */
  predicate Earlier(c: Context, a: nat, b: nat) {
    if IsPulse(c, a) == IsPulse(c, b) then a < b else IsPulse(c, b)
  }

  ghost predicate Within(c: Context, s: seq<nat>) {
    forall k :: 0 <= k < |s| ==> s[k] < |c.peers|
  }

  ghost predicate Ranked(c: Context, s: seq<nat>) {
    Within(c, s) && forall k, m :: 0 <= k < m < |s| ==> Ranks(c, s[k], s[m])
  }

  /** For eligible sources the one real key orders by stratum first: no distance reaches a whole stratum's worth. */
  lemma {:induction false} SynchIsLexicographic(c: Context, a: nat, b: nat)
    requires ContextOk(c) && Eligible(c, a) && Eligible(c, b)
    ensures Synch(c, a) < Synch(c, b) <==>
      var p, q := c.peers[a], c.peers[b];
      || p.est.stratum < q.est.stratum
      || (p.est.stratum == q.est.stratum && RootDistance(p, c.now) < RootDistance(q, c.now))
  {
    hide RootDistance;
    StratumDominates(c.peers[a].est.stratum, c.peers[b].est.stratum, RootDistance(c.peers[a], c.now), RootDistance(c.peers[b], c.now));
  }

  lemma StratumDominates(s: nat, t: nat, d: real, e: real)
    requires 0.0 <= d < F.MAX_DISTANCE && 0.0 <= e < F.MAX_DISTANCE
    ensures s as real * F.MAX_DISTANCE + d < t as real * F.MAX_DISTANCE + e <==> s < t || (s == t && d < e)
  {
    if s < t {
      assert (s + 1) as real <= t as real;
    } else if t < s {
      assert (t + 1) as real <= s as real;
    }
  }

  lemma {:induction false} SynchDecides(c: Context, y: nat, x: nat)
    requires ContextOk(c) && Eligible(c, x) && Eligible(c, y) && Earlier(c, y, x)
    ensures if Synch(c, x) < Synch(c, y) then Ranks(c, x, y) else Ranks(c, y, x)
  {
    hide RootDistance, Screen, Synch;
    SynchIsLexicographic(c, x, y);
    SynchIsLexicographic(c, y, x);
    SynchTotal(c, x, y);
  }

  lemma SynchTotal(c: Context, x: nat, y: nat)
    requires x < |c.peers| && y < |c.peers|
    ensures Synch(c, x) < Synch(c, y) ==> !(Synch(c, y) < Synch(c, x))
  {
  }

  lemma {:induction false} RanksTransitive(c: Context, a: nat, b: nat, d: nat)
    requires a < |c.peers| && b < |c.peers| && d < |c.peers| && Ranks(c, a, b) && Ranks(c, b, d)
    ensures Ranks(c, a, d)
  {
    hide RootDistance;
  }

  /** Stable insertion by the key alone. */
  method Sort(c: Context, s: seq<nat>) returns (r: seq<nat>)
    requires ContextOk(c) && (forall k :: 0 <= k < |s| ==> Eligible(c, s[k]))
    requires forall k, m :: 0 <= k < m < |s| ==> Earlier(c, s[k], s[m])
    ensures Ranked(c, r) && forall i: nat :: i in r <==> i in s
  {
    hide ContextOk, Ranks, Synch, Earlier, Screen;
    r := [];
    for k := 0 to |s|
      invariant Ranked(c, r) && forall i: nat :: i in r <==> i in s[..k]
    {
      var x, p := s[k], 0;
      while p < |r| && !(Synch(c, x) < Synch(c, r[p]))
        invariant 0 <= p <= |r|
        invariant forall j :: 0 <= j < p ==> Ranks(c, r[j], x)
      {
        assert r[p] in s[..k];
        SynchDecides(c, r[p], x);
        p := p + 1;
      }
      if p < |r| {
        assert r[p] in s[..k];
        SynchDecides(c, r[p], x);
      }
      InsertRanked(c, r, x, p);
      r := r[..p] + [x] + r[p..];
    }
    assert s[..|s|] == s;
  }

  lemma {:induction false} InsertRanked(c: Context, r: seq<nat>, x: nat, p: nat)
    requires Ranked(c, r) && x < |c.peers| && p <= |r|
    requires forall j :: 0 <= j < p ==> Ranks(c, r[j], x)
    requires p < |r| ==> Ranks(c, x, r[p])
    ensures Ranked(c, r[..p] + [x] + r[p..]) && forall i: nat :: i in r[..p] + [x] + r[p..] <==> i == x || i in r
  {
    hide Ranks;
    var t := r[..p] + [x] + r[p..];
    forall j | p < j < |r| ensures Ranks(c, x, r[j]) {
      RanksTransitive(c, x, r[p], r[j]);
    }
    assert r == r[..p] + r[p..];
  }

  // ----- the system source

  /** A preferred pulse comes before any other preferred source, and that before the rest. */
  function Class(c: Context, i: nat): nat
    requires i < |c.peers|
  {
    if !c.peers[i].options.prefer then 0 else if c.peers[i].options.pps then 2 else 1
  }

  /** The best-ranked survivor of the best class there is. */
  ghost predicate Leads(c: Context, s: seq<nat>, k: nat)
    requires Within(c, s)
  {
    && k in s
    && forall m :: 0 <= m < |s| && s[m] != k ==>
         Class(c, k) > Class(c, s[m]) || (Class(c, k) == Class(c, s[m]) && Ranks(c, k, s[m]))
  }

  method First(c: Context, s: seq<nat>, least: nat) returns (r: Option<nat>)
    requires Ranked(c, s)
    ensures r.None? ==> forall m :: 0 <= m < |s| ==> Class(c, s[m]) < least
    ensures r.Some? ==> r.value in s && Class(c, r.value) >= least
    ensures r.Some? ==> forall m :: 0 <= m < |s| && s[m] != r.value && Class(c, s[m]) >= least ==> Ranks(c, r.value, s[m])
  {
    hide Ranks, Class;
    for i := 0 to |s|
      invariant forall m :: 0 <= m < i ==> Class(c, s[m]) < least
    {
      if Class(c, s[i]) >= least { return Some(s[i]); }
    }
    r := None;
  }

  /** A preferred pulse, else a preferred source, else the best-ranked. */
  method Lead(c: Context, s: seq<nat>) returns (k: nat)
    requires Ranked(c, s) && s != []
    ensures k < |c.peers| && Leads(c, s, k)
  {
    hide Ranks;
    var p := First(c, s, 2);
    if p.None? {
      p := First(c, s, 1);
      if p.None? {
        k := s[0];
        return;
      }
    }
    k := p.value;
  }

  // ----- combining

  datatype Weighted = Weighted(w: real, x: real)

  ghost function Mass(v: seq<Weighted>): real {
    if v == [] then 0.0 else Mass(v[..|v| - 1]) + v[|v| - 1].w
  }

  ghost function Moment(v: seq<Weighted>): real {
    if v == [] then 0.0 else Moment(v[..|v| - 1]) + Torque(v[|v| - 1])
  }

  ghost function Torque(e: Weighted): real {
    e.w * e.x
  }

  /** The weighted sum of squared distances from x. */
  ghost function Spread(v: seq<Weighted>, x: real): real {
    if v == [] then 0.0 else Spread(v[..|v| - 1], x) + Pull(v[|v| - 1], x)
  }

  ghost function Pull(e: Weighted, x: real): real {
    Squared(e.w, e.x - x)
  }

  ghost function Squared(w: real, b: real): real {
    w * C.Sq(b)
  }

  ghost predicate Positive(v: seq<Weighted>) {
    forall i :: 0 <= i < |v| ==> v[i].w > 0.0
  }

  lemma {:induction false} MassPositive(v: seq<Weighted>)
    requires Positive(v)
    ensures Mass(v) >= 0.0 && (v != [] ==> Mass(v) > 0.0)
  {
    if v != [] { MassPositive(v[..|v| - 1]); }
  }

  ghost function Mean(v: seq<Weighted>): real
    requires Positive(v) && v != []
  {
    MassPositive(v);
    Moment(v) / Mass(v)
  }

  /** A sum of products with this mass is what values between lo and hi can give. */
  ghost predicate Bounded(lo: real, hi: real, mass: real, sum: real) {
    lo * mass <= sum <= hi * mass
  }

  lemma {:induction false} MomentWithin(v: seq<Weighted>, lo: real, hi: real)
    requires Positive(v) && forall i :: 0 <= i < |v| ==> lo <= v[i].x <= hi
    ensures Bounded(lo, hi, Mass(v), Moment(v))
  {
    hide Bounded, Torque;
    if v == [] {
      BoundedAtZero(lo, hi);
    } else {
      var h, e := v[..|v| - 1], v[|v| - 1];
      MomentWithin(h, lo, hi);
      AddBounded(lo, hi, Mass(h), Moment(h), e);
      assert Mass(v) == Mass(h) + e.w && Moment(v) == Moment(h) + Torque(e);
    }
  }

  lemma BoundedAtZero(lo: real, hi: real)
    ensures Bounded(lo, hi, 0.0, 0.0)
  {
  }

  lemma AddBounded(lo: real, hi: real, m: real, sum: real, e: Weighted)
    requires Bounded(lo, hi, m, sum) && e.w > 0.0 && lo <= e.x <= hi
    ensures Bounded(lo, hi, m + e.w, sum + Torque(e))
  {
    AddAbove(lo, m, sum, e.w, e.x);
    AddBelow(hi, m, sum, e.w, e.x);
  }

  lemma AddAbove(lo: real, m: real, sum: real, w: real, x: real)
    requires lo * m <= sum && w > 0.0 && lo <= x
    ensures lo * (m + w) <= sum + w * x
  {
    assert lo * (m + w) == lo * m + w * lo;
    assert w * (x - lo) >= 0.0;
    assert w * (x - lo) == w * x - w * lo;
  }

  lemma AddBelow(hi: real, m: real, sum: real, w: real, x: real)
    requires sum <= hi * m && w > 0.0 && x <= hi
    ensures sum + w * x <= hi * (m + w)
  {
    assert hi * (m + w) == hi * m + w * hi;
    assert w * (hi - x) >= 0.0;
    assert w * (hi - x) == w * hi - w * x;
  }

  /** The combined offset lies among the survivors' own. */
  lemma {:induction false} MeanWithin(v: seq<Weighted>, lo: real, hi: real)
    requires Positive(v) && v != [] && forall i :: 0 <= i < |v| ==> lo <= v[i].x <= hi
    ensures lo <= Mean(v) <= hi
  {
    MomentWithin(v, lo, hi);
    MassPositive(v);
    Quotient(Moment(v), Mass(v), lo, hi);
  }

  lemma Quotient(m: real, k: real, lo: real, hi: real)
    requires k > 0.0 && lo * k <= m <= hi * k
    ensures lo <= m / k <= hi
  {
    var q := m / k;
    assert m == q * k;
    assert (q - lo) * k >= 0.0 && (hi - q) * k >= 0.0;
  }

  /** What moving the reference point from m to x adds for a mass k with moment p. */
  ghost function Shifted(p: real, k: real, m: real, x: real): real {
    2.0 * (m - x) * (p - m * k) + (m - x) * (m - x) * k
  }

  lemma {:induction false} SpreadShift(v: seq<Weighted>, m: real, x: real)
    ensures Spread(v, x) == Spread(v, m) + Shifted(Moment(v), Mass(v), m, x)
  {
    hide Shifted, Pull;
    if v == [] {
      ShiftNone(m, x);
    } else {
      var h, e := v[..|v| - 1], v[|v| - 1];
      SpreadShift(h, m, x);
      ShiftOne(e, m, x);
      ShiftAdds(Moment(h), Mass(h), e.w * e.x, e.w, m, x);
      assert Moment(v) == Moment(h) + e.w * e.x && Mass(v) == Mass(h) + e.w;
    }
  }

  lemma ShiftNone(m: real, x: real)
    ensures Shifted(0.0, 0.0, m, x) == 0.0
  {
  }

  lemma ShiftOne(e: Weighted, m: real, x: real)
    ensures Pull(e, x) == Pull(e, m) + Shifted(e.w * e.x, e.w, m, x)
  {
    var w, a, b := e.w, e.x - m, m - x;
    assert e.x - x == a + b;
    assert w * (a + b) * (a + b) == w * a * a + 2.0 * b * (w * a) + b * b * w;
    assert w * a == w * e.x - m * w;
  }

  lemma ShiftAdds(p: real, k: real, q: real, w: real, m: real, x: real)
    ensures Shifted(p + q, k + w, m, x) == Shifted(p, k, m, x) + Shifted(q, w, m, x)
  {
    var b := m - x;
    assert p + q - m * (k + w) == (p - m * k) + (q - m * w);
    assert 2.0 * b * ((p - m * k) + (q - m * w)) == 2.0 * b * (p - m * k) + 2.0 * b * (q - m * w);
    assert b * b * (k + w) == b * b * k + b * b * w;
  }

  /** Every other single value fits the weighted ones worse. */
  lemma {:induction false} MeanFitsBest(v: seq<Weighted>, x: real)
    requires Positive(v) && v != []
    ensures if x == Mean(v) then Spread(v, x) == Spread(v, Mean(v)) else Spread(v, Mean(v)) < Spread(v, x)
  {
    hide Spread, Shifted;
    MassPositive(v);
    SpreadShift(v, Mean(v), x);
    ShiftFromMean(Moment(v), Mass(v), x);
  }

  lemma ShiftFromMean(p: real, k: real, x: real)
    requires k > 0.0
    ensures x != p / k ==> Shifted(p, k, p / k, x) > 0.0
  {
    hide Shifted, Pull;
    var m := p / k;
    assert p - m * k == 0.0;
    ShiftWithoutMoment(p, k, m, x);
    if m != x { PullPositive(Weighted(k, m), x); }
  }

  lemma ShiftWithoutMoment(p: real, k: real, m: real, x: real)
    requires p - m * k == 0.0
    ensures Shifted(p, k, m, x) == Pull(Weighted(k, m), x)
  {
    assert 2.0 * (m - x) * (p - m * k) == 0.0;
    assert (m - x) * (m - x) * k == k * (m - x) * (m - x);
  }

  lemma PullPositive(e: Weighted, x: real)
    requires e.w > 0.0 && e.x != x
    ensures Pull(e, x) > 0.0
  {
    hide Squared;
    SquaredScale(e.w, e.x - x);
  }

  lemma SquaredScale(w: real, b: real)
    requires w > 0.0 && b != 0.0
    ensures Squared(w, b) > 0.0
  {
    SquarePositive(b);
    ProductPositive(w, C.Sq(b), Squared(w, b));
  }

  lemma SquarePositive(b: real)
    requires b != 0.0
    ensures C.Sq(b) > 0.0
  {
    if b > 0.0 { ProductPositive(b, b, C.Sq(b)); } else { ProductPositive(-b, -b, C.Sq(b)); }
  }

  lemma ProductPositive(a: real, b: real, q: real)
    requires a > 0.0 && b > 0.0 && q == a * b
    ensures q > 0.0
  {
  }

  function Weight(c: Context, i: nat): (w: real)
    requires i < |c.peers|
    ensures w > 0.0
  {
    1.0 / Max(RootDistance(c.peers[i], c.now), MIN_DISPERSION / 2.0)
  }

  /** The survivors' offsets, each with its weight. */
  ghost function Votes(c: Context, s: seq<nat>): (v: seq<Weighted>)
    requires Within(c, s) && |c.current| == |c.peers|
    ensures |v| == |s| && Positive(v) && forall i :: 0 <= i < |v| ==> v[i] == Weighted(Weight(c, s[i]), c.current[s[i]])
  {
    seq(|s|, i requires 0 <= i < |s| => Weighted(Weight(c, s[i]), c.current[s[i]]))
  }

  method WeightedMean(c: Context, s: seq<nat>) returns (mean: real, mass: real)
    requires Within(c, s) && |c.current| == |c.peers| && s != []
    ensures mean == Mean(Votes(c, s)) && mass == Mass(Votes(c, s)) && mass > 0.0
  {
    hide Weight;
    ghost var v := Votes(c, s);
    var sumW, sumWO := 0.0, 0.0;
    for i := 0 to |s|
      invariant sumW == Mass(v[..i]) && sumWO == Moment(v[..i])
    {
      assert v[..i + 1][..i] == v[..i];
      var w := Weight(c, s[i]);
      sumW, sumWO := sumW + w, sumWO + w * c.current[s[i]];
    }
    assert v[..|s|] == v;
    MassPositive(v);
    mean, mass := sumWO / sumW, sumW;
  }

  method SpreadOf(c: Context, s: seq<nat>, x: real) returns (r: real)
    requires Within(c, s) && |c.current| == |c.peers|
    ensures r == Spread(Votes(c, s), x)
  {
    hide Weight;
    ghost var v := Votes(c, s);
    r := 0.0;
    for i := 0 to |s|
      invariant r == Spread(v[..i], x)
    {
      assert v[..i + 1][..i] == v[..i];
      var d := c.current[s[i]] - x;
      r := r + Weight(c, s[i]) * d * d;
    }
    assert v[..|s|] == v;
  }

  // ----- the whole

  /** The survivors in rank order and, when there are enough, the system source with the combined offset and jitter. */
  datatype Outcome = Outcome(survivors: seq<nat>, choice: Option<Choice>)

  datatype Choice = Choice(system: nat, offset: real, jitterSq: real)

  /** The source is one clustering left, or a pulse that one of those vouches for. */
  ghost predicate Survives(c: Context, kept: seq<I.Source>, i: nat)
    requires ContextOk(c)
  {
    Eligible(c, i) && if IsPulse(c, i) then Vouched(c, kept, i) else AsSource(c, i) in kept
  }

  /** kept is what intersection and clustering leave of the candidates. */
  ghost predicate Keeps(c: Context, kept: seq<I.Source>, cands: seq<I.Source>, o: I.Outcome)
    requires ContextOk(c)
  {
    && (exists pulses :: Gathered(c, cands, pulses, |c.peers|)) && I.Selects(cands, o)
    && kept == C.Clustered(if o.Found? then I.Overlapping(cands, o.low, o.high) else [])
    && Listed(c, kept)
  }

  ghost predicate ChoiceOk(c: Context, s: seq<nat>, k: Choice)
    requires ContextOk(c) && Within(c, s)
  {
    && s != [] && k.system < |c.peers| && Leads(c, s, k.system)
    && var v := Votes(c, s);
       && k.offset == (if c.peers[k.system].options.prefer then c.current[k.system] else Mean(v))
       && Mass(v) > 0.0
       && k.jitterSq == C.Sq(c.peers[k.system].est.jitter) + Spread(v, k.offset) / Mass(v)
  }

  ghost predicate OutcomeOk(c: Context, r: Outcome, kept: seq<I.Source>)
    requires ContextOk(c)
  {
    && Ranked(c, r.survivors) && (forall i: nat :: i in r.survivors <==> Survives(c, kept, i))
    && (r.choice.None? <==> r.survivors == [] || |r.survivors| < c.minSurvivors)
    && (r.choice.Some? ==> ChoiceOk(c, r.survivors, r.choice.value))
  }

  method Select(c: Context) returns (r: Outcome, ghost kept: seq<I.Source>, ghost cands: seq<I.Source>, ghost o: I.Outcome)
    requires ContextOk(c)
    ensures Keeps(c, kept, cands, o) && OutcomeOk(c, r, kept)
  {
    hide ContextOk, Listed, Ranks, Survives, ChoiceOk, I.Selects, Vouched;
    var all, pulses := Gather(c);
    assert forall k :: 0 <= k < |pulses| ==> pulses[k] in pulses;
    cands := all;
    var left;
    left, o := Thin(c, all);
    kept := left;
    var qualified := Qualify(c, left, pulses);
    var joined := Join(c, left, qualified, pulses);
    var survivors := Sort(c, joined);
    if survivors == [] || |survivors| < c.minSurvivors {
      r := Outcome(survivors, None);
      return;
    }
    var choice := Choose(c, survivors);
    r := Outcome(survivors, Some(choice));
  }

  /** Intersection, then clustering. */
  method Thin(c: Context, cands: seq<I.Source>) returns (kept: seq<I.Source>, ghost o: I.Outcome)
    requires ContextOk(c) && Listed(c, cands)
    ensures I.Selects(cands, o) && Listed(c, kept)
    ensures kept == C.Clustered(if o.Found? then I.Overlapping(cands, o.low, o.high) else [])
  {
    hide ContextOk, Listed, I.Selects, C.Clustered;
    ListedIsSound(c, cands);
    var outcome, band := I.Intersect(cands);
    o := outcome;
    if o.Found? { OverlappingListed(c, cands, o.low, o.high); } else { EmptyListed(c); }
    ListedIsSound(c, band);
    kept := C.Cluster(band);
    ClusteredListed(c, band);
  }

  lemma EmptyListed(c: Context)
    requires ContextOk(c)
    ensures Listed(c, [])
  {
  }

  /** The survivors before they are sorted: those clustering left, then the pulses. */
  method Join(c: Context, kept: seq<I.Source>, qualified: seq<nat>, ghost pulses: seq<nat>) returns (r: seq<nat>)
    requires ContextOk(c) && Listed(c, kept)
    requires forall i: nat :: i in pulses <==> i < |c.peers| && Eligible(c, i) && IsPulse(c, i)
    requires (forall i: nat :: i in qualified ==> i < |c.peers|) && forall i: nat :: i in qualified <==> i in pulses && Vouched(c, kept, i)
    requires forall k, m :: 0 <= k < m < |qualified| ==> qualified[k] < qualified[m]
    ensures forall k :: 0 <= k < |r| ==> Eligible(c, r[k])
    ensures forall k, m :: 0 <= k < m < |r| ==> Earlier(c, r[k], r[m])
    ensures forall i: nat :: i in r <==> Survives(c, kept, i)
  {
    hide Vouched, Screen;
    var ids := seq(|kept|, i requires 0 <= i < |kept| => kept[i].id);
    r := ids + qualified;
    forall k | 0 <= k < |r| ensures Eligible(c, r[k]) && (IsPulse(c, r[k]) <==> k >= |ids|) {
      if k >= |ids| { assert r[k] in qualified; }
    }
    forall i: nat ensures i in r <==> Survives(c, kept, i) {
      if i in ids {
        var k :| 0 <= k < |ids| && ids[k] == i;
        assert kept[k] == AsSource(c, i);
      }
      if Survives(c, kept, i) && !IsPulse(c, i) {
        var k :| 0 <= k < |kept| && kept[k] == AsSource(c, i);
        assert ids[k] == i;
      }
    }
  }

  /** The system source and the combined offset: a preferred source's as it is, otherwise the weighted mean. */
  method Choose(c: Context, s: seq<nat>) returns (k: Choice)
    requires ContextOk(c) && Ranked(c, s) && s != []
    ensures ChoiceOk(c, s, k)
  {
    hide Ranks, Votes, Leads;
    var system := Lead(c, s);
    var mean, mass := WeightedMean(c, s);
    var offset := if c.peers[system].options.prefer then c.current[system] else mean;
    var spread := SpreadOf(c, s, offset);
    k := Choice(system, offset, C.Sq(c.peers[system].est.jitter) + spread / mass);
  }

  // ----- results

  /** Every survivor passed the screen, so it has a current estimate closer than the maximum distance. */
  lemma {:induction false} SurvivorsAreFit(c: Context, r: Outcome, kept: seq<I.Source>, i: nat)
    requires ContextOk(c) && OutcomeOk(c, r, kept) && i in r.survivors
    ensures Eligible(c, i) && c.peers[i].valid && RootDistance(c.peers[i], c.now) < F.MAX_DISTANCE
    ensures c.now - c.peers[i].updated <= FreshnessDeadline(c.peers[i].poll)
  {
    hide RootDistance, FreshnessDeadline;
    assert Survives(c, kept, i);
  }

  /** Eight polls of the source's own, within the range of polls, and at least 64 seconds. */
  lemma {:induction false} DeadlineIsEightPolls(poll: int)
    ensures MIN_POLL <= poll <= MAX_POLL ==> FreshnessDeadline(poll) == Max(64.0, 8.0 * L.Pow2(poll))
    ensures poll < MIN_POLL ==> FreshnessDeadline(poll) == FreshnessDeadline(MIN_POLL)
    ensures poll > MAX_POLL ==> FreshnessDeadline(poll) == FreshnessDeadline(MAX_POLL)
  {
    hide L.Pow2;
  }

  /** A source is caught in a loop exactly when some address of this host is its own, or is what it follows from a stratum above one. */
  lemma {:induction false} LoopExactly(e: Estimate, local: set<Bytes>)
    ensures TimingLoop(e, local) <==> exists h :: h in local && !IsText(h) && (h == e.sourceRefId || (h == e.refId && e.stratum >= 2))
  {
    hide IsText;
  }

  /** What a source must be to be a candidate, and why one is not. */
  lemma {:induction false} ScreenExactly(p: Peer, now: real, local: set<Bytes>)
    ensures var current := !p.valid || now - p.updated <= FreshnessDeadline(p.poll);
      && (Screen(p, now, local).None? <==>
            && p.reach > 0 && !p.options.noSelect && p.valid && current && !p.est.unsync && p.est.stratum <= 15
            && RootDistance(p, now) < 1.5 && !TimingLoop(p.est, local))
      && (Screen(p, now, local) == Some(Unreachable) <==> p.reach == 0 || (!p.options.noSelect && !current))
      && (Screen(p, now, local) == Some(NoSelect) <==> p.reach > 0 && p.options.noSelect)
  {
    hide RootDistance, FreshnessDeadline, TimingLoop;
  }

  /**
   A host whose addresses are known never follows itself, nor a server that follows it.  A reference
   that is text names no host, and a server of stratum one follows none.
   */
  lemma {:induction false} NeverFollowsItself(c: Context, r: Outcome, kept: seq<I.Source>, i: nat)
    requires ContextOk(c) && OutcomeOk(c, r, kept) && i in r.survivors
    ensures var e := c.peers[i].est;
      && (e.sourceRefId in c.local ==> IsText(e.sourceRefId))
      && (e.refId in c.local ==> e.stratum <= 1 || IsText(e.refId))
  {
    hide RootDistance, IsText;
    assert Survives(c, kept, i);
  }

  /** A preferred pulse drives the clock if one survives, else a preferred source if one does; the best-ranked such. */
  lemma {:induction false} PreferenceDecides(c: Context, r: Outcome, kept: seq<I.Source>, i: nat)
    requires ContextOk(c) && OutcomeOk(c, r, kept) && r.choice.Some? && i in r.survivors && i != r.choice.value.system
    ensures var k := r.choice.value.system; var p, q := c.peers[k].options, c.peers[i].options;
      && (q.prefer && q.pps ==> p.prefer && p.pps)
      && (q.prefer ==> p.prefer)
      && (p.prefer == q.prefer && (p.prefer ==> p.pps == q.pps) ==> Ranks(c, k, i))
  {
    hide Ranks, Survives;
    assert exists m :: 0 <= m < |r.survivors| && r.survivors[m] == i;
  }

  // ----- how far a source may be out

  /** The errors behind a source's offset, each within what is said of it: its server's, the exchange's, the clock's since, and noise. */
  ghost predicate Plausible(p: Peer, now: real, server: real, exchange: real, drift: real, noise: real) {
    && Abs(server) <= p.est.rootDelay / 2.0 + p.est.rootDisp && Abs(exchange) <= p.est.delay / 2.0 + p.est.dispersion
    && Abs(drift) <= F.PHI * Max(0.0, now - p.updated) && Abs(noise) <= p.est.jitter
  }

  /** The distance bounds them all together, and nothing smaller does. */
  lemma {:induction false} DistanceBoundsError(p: Peer, now: real, d: real)
    requires EstimateOk(p.est) && p.est.rootDelay >= 0.0 && p.est.delay >= 0.0
    ensures forall s, x, t, n :: Plausible(p, now, s, x, t, n) ==> Abs(s + x + t + n) <= RootDistance(p, now)
    ensures p.est.rootDelay + p.est.delay >= MIN_DISPERSION && d < RootDistance(p, now) ==>
      exists s, x, t, n :: Plausible(p, now, s, x, t, n) && Abs(s + x + t + n) > d
  {
    var s, x := p.est.rootDelay / 2.0 + p.est.rootDisp, p.est.delay / 2.0 + p.est.dispersion;
    var t, n := F.PHI * Max(0.0, now - p.updated), p.est.jitter;
    assert t >= 0.0;
    assert Plausible(p, now, s, x, t, n);
  }

  /** A pulse never drives the clock alone: some surviving numbering source agrees with it on the second. */
  lemma {:induction false} PulsesAreNumbered(c: Context, r: Outcome, kept: seq<I.Source>, p: nat) returns (n: nat)
    requires ContextOk(c) && Listed(c, kept) && OutcomeOk(c, r, kept) && p in r.survivors && IsPulse(c, p)
    ensures n in r.survivors && n < |c.peers| && !IsPulse(c, n) && c.peers[n].options.numbering && Abs(c.current[n]) < PPS_GUARD
    ensures Abs(c.current[n] - c.current[p]) <=
      RootDistance(c.peers[n], c.now) + Max(4.0 * c.peers[n].est.jitter, AGREEMENT_FLOOR)
  {
    assert Survives(c, kept, p);
    var k :| 0 <= k < |kept| && Vouches(c, kept[k], p);
    n := kept[k].id;
    assert Survives(c, kept, n);
  }

  /** The combined offset lies within any range that holds every survivor's. */
  lemma {:induction false} OffsetWithin(c: Context, r: Outcome, kept: seq<I.Source>, lo: real, hi: real)
    requires ContextOk(c) && OutcomeOk(c, r, kept) && r.choice.Some?
    requires forall k :: 0 <= k < |r.survivors| ==> lo <= c.current[r.survivors[k]] <= hi
    ensures lo <= r.choice.value.offset <= hi
  {
    hide Ranks, Survives;
    MeanWithin(Votes(c, r.survivors), lo, hi);
  }

  /** How far a source may be out, and at least half a millisecond. */
  ghost function Reach(c: Context, i: nat): (d: real)
    requires i < |c.peers|
    ensures d > 0.0
  {
    Max(RootDistance(c.peers[i], c.now), 0.0005)
  }

  /** How badly x fits the survivors: each one's squared difference, in proportion to how little it may be out. */
  ghost function Misfit(c: Context, s: seq<nat>, x: real): real
    requires Within(c, s) && |c.current| == |c.peers|
  {
    if s == [] then 0.0
    else
      var i := s[|s| - 1];
      Misfit(c, s[..|s| - 1], x) + C.Sq(c.current[i] - x) / Reach(c, i)
  }

  lemma {:induction false} MisfitIsSpread(c: Context, s: seq<nat>, x: real)
    requires Within(c, s) && |c.current| == |c.peers|
    ensures Misfit(c, s, x) == Spread(Votes(c, s), x)
  {
    hide RootDistance, Reach, Weight, C.Sq;
    if s != [] {
      var h, i := s[..|s| - 1], s[|s| - 1];
      MisfitIsSpread(c, h, x);
      assert Votes(c, s)[..|s| - 1] == Votes(c, h);
      PullIsQuotient(c, i, x);
    }
  }

  lemma PullIsQuotient(c: Context, i: nat, x: real)
    requires i < |c.peers| == |c.current|
    ensures Pull(Weighted(Weight(c, i), c.current[i]), x) == C.Sq(c.current[i] - x) / Reach(c, i)
  {
    hide RootDistance;
    Reciprocal(c.current[i] - x, Reach(c, i));
  }

  lemma Reciprocal(a: real, d: real)
    requires d > 0.0
    ensures 1.0 / d * a * a == a * a / d
  {
    var q := 1.0 / d;
    assert q * d == 1.0;
    assert q * a * a * d == q * d * (a * a) == a * a;
  }

  /**
   The combined offset is the one value that fits the survivors best when each counts the more the
   less it may be out; a preferred system source's offset is taken as it is.
   */
  lemma {:induction false} OffsetFitsBest(c: Context, r: Outcome, kept: seq<I.Source>, x: real)
    requires ContextOk(c) && OutcomeOk(c, r, kept) && r.choice.Some?
    ensures var k := r.choice.value;
      if c.peers[k.system].options.prefer then k.offset == c.current[k.system]
      else x != k.offset ==> Misfit(c, r.survivors, k.offset) < Misfit(c, r.survivors, x)
  {
    hide Ranks, Survives, Votes, Mean, Spread, Misfit;
    var k := r.choice.value;
    MisfitIsSpread(c, r.survivors, k.offset);
    MisfitIsSpread(c, r.survivors, x);
    MeanFitsBest(Votes(c, r.survivors), x);
  }

  /** Of two survivors the one that may be out less holds the offset closer, in that proportion. */
  lemma {:induction false} TwoSurvivorsBalance(c: Context, r: Outcome, kept: seq<I.Source>)
    requires ContextOk(c) && OutcomeOk(c, r, kept) && r.choice.Some? && |r.survivors| == 2
    requires !c.peers[r.choice.value.system].options.prefer
    ensures var a, b, x := r.survivors[0], r.survivors[1], r.choice.value.offset;
      (x - c.current[a]) * Reach(c, b) == (c.current[b] - x) * Reach(c, a)
  {
    hide Ranks, Survives, RootDistance, Mean, Mass, Spread;
    MeanOfTwo(Votes(c, r.survivors), Reach(c, r.survivors[0]), Reach(c, r.survivors[1]));
  }

  lemma {:induction false} MeanOfTwo(v: seq<Weighted>, d: real, e: real)
    requires |v| == 2 && Positive(v) && d > 0.0 && e > 0.0 && v[0].w == 1.0 / d && v[1].w == 1.0 / e
    ensures (Mean(v) - v[0].x) * e == (v[1].x - Mean(v)) * d
  {
    assert v[..1] == [v[0]] && v[..1][..0] == [];
    assert Mass(v[..1]) == v[0].w && Moment(v[..1]) == Torque(v[0]);
    Balance(v[0].x, v[1].x, d, e);
  }

  lemma Balance(a: real, b: real, d: real, e: real)
    requires d > 0.0 && e > 0.0
    ensures 1.0 / d + 1.0 / e > 0.0
    ensures var x := (1.0 / d * a + 1.0 / e * b) / (1.0 / d + 1.0 / e); (x - a) * e == (b - x) * d
  {
    var p, q := 1.0 / d, 1.0 / e;
    assert p * d == 1.0 && q * e == 1.0 && p > 0.0 && q > 0.0;
    var x := (p * a + q * b) / (p + q);
    assert x * (p + q) == p * a + q * b;
    assert p * (x - a) == q * (b - x);
    assert p * (x - a) * d * e == q * (b - x) * d * e;
    assert p * (x - a) * d * e == p * d * ((x - a) * e);
    assert q * (b - x) * d * e == q * e * ((b - x) * d);
  }

  /** No survivor is named twice. */
  lemma {:induction false} SurvivorsDiffer(c: Context, s: seq<nat>, k: nat, m: nat)
    requires Ranked(c, s) && k < m < |s|
    ensures s[k] != s[m]
  {
    assert Ranks(c, s[k], s[m]);
  }

  /** The sources determine the outcome. */
  lemma {:induction false} SelectsOnce(
    c: Context, r: Outcome, kept: seq<I.Source>, cands: seq<I.Source>, o: I.Outcome,
    q: Outcome, kept': seq<I.Source>, cands': seq<I.Source>, o': I.Outcome)
    requires ContextOk(c) && Keeps(c, kept, cands, o) && Keeps(c, kept', cands', o')
    requires OutcomeOk(c, r, kept) && OutcomeOk(c, q, kept')
    ensures r == q
  {
    hide ContextOk, Listed, Ranks, Survives, Votes, Spread, Mass, Mean, I.Selects, C.Clustered;
    KeptOnce(c, kept, cands, o, kept', cands', o');
    RankedOnce(c, r.survivors, q.survivors);
    if r.choice.Some? { LeadsOnce(c, r.survivors, r.choice.value.system, q.choice.value.system); }
  }

  lemma {:induction false} KeptOnce(
    c: Context, kept: seq<I.Source>, cands: seq<I.Source>, o: I.Outcome, kept': seq<I.Source>, cands': seq<I.Source>, o': I.Outcome)
    requires ContextOk(c) && Keeps(c, kept, cands, o) && Keeps(c, kept', cands', o')
    ensures kept == kept'
  {
    hide Eligible, IsPulse, AsSource, ContextOk, I.Selects, C.Clustered;
    var p :| Gathered(c, cands, p, |c.peers|);
    var p' :| Gathered(c, cands', p', |c.peers|);
    RisingOnce(cands, cands');
    I.SelectsOnce(cands, o, o');
  }

  ghost predicate Rising(s: seq<I.Source>) {
    forall k, m :: 0 <= k < m < |s| ==> s[k].id < s[m].id
  }

  lemma RisingTail(s: seq<I.Source>, x: I.Source)
    requires Rising(s) && s != []
    ensures Rising(s[1..]) && (x in s ==> s[0].id <= x.id) && (x in s[1..] <==> x in s && x != s[0])
  {
  }

  /** Two rising lists with the same members are the same. */
  lemma {:induction false} RisingOnce(s: seq<I.Source>, t: seq<I.Source>)
    requires Rising(s) && Rising(t) && forall x: I.Source :: x in s <==> x in t
    ensures s == t
  {
    hide Rising;
    assert t == [] || t[0] in t;
    if s != [] {
      assert s[0] in t && t != [] && t[0] in s;
      RisingTail(s, t[0]);
      RisingTail(t, s[0]);
      FirstOnce(t, s[0]);
      forall x: I.Source ensures x in s[1..] <==> x in t[1..] {
        RisingTail(s, x);
        RisingTail(t, x);
      }
      RisingOnce(s[1..], t[1..]);
      assert s == [s[0]] + s[1..] && t == [t[0]] + t[1..];
    }
  }

  lemma FirstOnce(t: seq<I.Source>, x: I.Source)
    requires Rising(t) && t != [] && x in t && x.id <= t[0].id
    ensures x == t[0]
  {
  }

  lemma {:induction false} LeadsOnce(c: Context, s: seq<nat>, a: nat, b: nat)
    requires Ranked(c, s) && Leads(c, s, a) && Leads(c, s, b)
    ensures a == b
  {
    hide RootDistance;
  }

  lemma {:induction false} RankedOnce(c: Context, s: seq<nat>, t: seq<nat>)
    requires Ranked(c, s) && Ranked(c, t) && forall i: nat :: i in s <==> i in t
    ensures s == t
  {
    hide Ranks;
    assert t == [] || t[0] in t;
    if s != [] {
      assert s[0] in t && t != [] && t[0] in s;
      if s[0] != t[0] {
        Asymmetric(c, s[0], t[0]);
      }
      forall i: nat ensures i in s[1..] <==> i in t[1..] {
        TailMembers(c, s, i);
        TailMembers(c, t, i);
      }
      RankedOnce(c, s[1..], t[1..]);
      assert s == [s[0]] + s[1..] && t == [t[0]] + t[1..];
    }
  }

  lemma {:induction false} TailMembers(c: Context, s: seq<nat>, i: nat)
    requires Ranked(c, s) && s != []
    ensures i in s[1..] <==> i in s && i != s[0]
  {
    hide Ranks;
    if i in s[1..] {
      var k :| 0 < k < |s| && s[k] == i;
      assert Ranks(c, s[0], s[k]);
      Asymmetric(c, s[0], s[0]);
    }
  }

  lemma Asymmetric(c: Context, a: nat, b: nat)
    requires a < |c.peers| && b < |c.peers|
    ensures !(Ranks(c, a, b) && Ranks(c, b, a))
  {
  }
}
