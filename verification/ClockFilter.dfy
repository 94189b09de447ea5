/**
 The clock filter of RFC 5905 section 10 with this daemon's ranking by distance: an eight-stage
 ring of samples, aged on every call, ranked, and folded into one estimate.  Jitter is a root
 mean square and is kept here as its square.
 */
module ClockFilter {
  import opened Basics

  const PHI: real := 0.000015
  const MAX_DISPERSION: real := 16.0
  const MAX_DISTANCE: real := 1.5
  const ALLAN_INTERCEPT: real := 2048.0
  const STAGES: nat := 8
  const PRIMING_DISPERSION: real := 1.0

  datatype Sample = Sample(offset: real, delay: real, disp: real, t: real)

  datatype Output = Output(offset: real, delay: real, dispersion: real, jitterSq: real, at: real, samples: nat)

  const NO_OUTPUT := Output(0.0, 0.0, 0.0, 0.0, 0.0, 0)

  /** A sample as it stands at time now: its dispersion grown with age, and capped. */
  function Aged(s: Sample, now: real): Sample {
    s.(disp := Min(MAX_DISPERSION, s.disp + PHI * (now - s.t)))
  }

  /** The ranking key of an aged sample. */
  function Distance(s: Sample, now: real): real {
    if s.disp >= MAX_DISPERSION then MAX_DISPERSION
    else if now - s.t > ALLAN_INTERCEPT then MAX_DISTANCE + s.disp
    else s.delay / 2.0 + s.disp
  }

  // ----- ranking

  /** Nearer first; among equals the fresher, and then the lower slot. */
  predicate Precedes(cur: seq<Sample>, now: real, a: nat, b: nat)
    requires a < |cur| && b < |cur|
  {
    var da, db := Distance(cur[a], now), Distance(cur[b], now);
    da < db || (da == db && (cur[a].t > cur[b].t || (cur[a].t == cur[b].t && a < b)))
  }

  /** order lists the first k slots, each once, in rank order. */
  ghost predicate Ranks(order: seq<nat>, cur: seq<Sample>, now: real, k: nat) {
    && k <= |cur| && |order| == k
    && (forall i :: 0 <= i < k ==> order[i] < k)
    && (forall x: nat :: x < k ==> x in order)
    && (forall i, j :: 0 <= i < j < k ==> Precedes(cur, now, order[i], order[j]))
  }

  method Rank(cur: seq<Sample>, now: real) returns (order: seq<nat>)
    ensures Ranks(order, cur, now, |cur|)
  {
    order := [];
    for k := 0 to |cur|
      invariant Ranks(order, cur, now, k)
    {
      var p := 0;
      while p < |order| && !Precedes(cur, now, k, order[p])
        invariant 0 <= p <= |order|
        invariant forall i :: 0 <= i < p ==> !Precedes(cur, now, k, order[i])
      {
        p := p + 1;
      }
      InsertRanks(order, cur, now, k, p);
      order := order[..p] + [k] + order[p..];
    }
  }

  lemma {:induction false} InsertRanks(order: seq<nat>, cur: seq<Sample>, now: real, k: nat, p: nat)
    requires Ranks(order, cur, now, k) && k < |cur| && p <= k
    requires forall i :: 0 <= i < p ==> !Precedes(cur, now, k, order[i])
    requires p < k ==> Precedes(cur, now, k, order[p])
    ensures Ranks(order[..p] + [k] + order[p..], cur, now, k + 1)
  {
    hide Precedes;
    var r := order[..p] + [k] + order[p..];
    forall x: nat | x < k + 1 ensures x in r {
      if x == k {
        assert r[p] == k;
      } else {
        assert x in order;
        var i :| 0 <= i < k && order[i] == x;
        assert r[if i < p then i else i + 1] == x;
      }
    }
    forall i, j | 0 <= i < j < k + 1 ensures Precedes(cur, now, r[i], r[j]) {
      if i == p {
        if j > p + 1 { PrecedesTransitive(cur, now, k, order[p], order[j - 1]); }
      } else if j == p {
        PrecedesTotal(cur, now, k, order[i]);
      }
    }
  }

  lemma PrecedesTransitive(cur: seq<Sample>, now: real, a: nat, b: nat, c: nat)
    requires a < |cur| && b < |cur| && c < |cur| && Precedes(cur, now, a, b) && Precedes(cur, now, b, c)
    ensures Precedes(cur, now, a, c)
  {
  }

  lemma PrecedesTotal(cur: seq<Sample>, now: real, a: nat, b: nat)
    requires a < |cur| && b < |cur| && a != b
    ensures Precedes(cur, now, a, b) <==> !Precedes(cur, now, b, a)
  {
  }

  // ----- usable samples

  /** How many of the ranked distances count: none at MAX_DISPERSION, and none at MAX_DISTANCE once two do. */
  ghost predicate Usable(ds: seq<real>, m: nat) {
    && m <= |ds|
    && (forall i :: 0 <= i < m ==> ds[i] < MAX_DISPERSION && (i >= 2 ==> ds[i] < MAX_DISTANCE))
    && (m < |ds| ==> ds[m] >= MAX_DISPERSION || (m >= 2 && ds[m] >= MAX_DISTANCE))
  }

  ghost function Keys(order: seq<nat>, cur: seq<Sample>, now: real): seq<real>
    requires forall i :: 0 <= i < |order| ==> order[i] < |cur|
  {
    seq(|order|, i requires 0 <= i < |order| => Distance(cur[order[i]], now))
  }

  method CountUsable(order: seq<nat>, cur: seq<Sample>, now: real) returns (m: nat)
    requires forall i :: 0 <= i < |order| ==> order[i] < |cur|
    ensures Usable(Keys(order, cur, now), m)
  {
    m := 0;
    while m < |order|
      invariant m <= |order|
      invariant forall i :: 0 <= i < m ==>
        var d := Distance(cur[order[i]], now); d < MAX_DISPERSION && (i >= 2 ==> d < MAX_DISTANCE)
    {
      var d := Distance(cur[order[m]], now);
      if d >= MAX_DISPERSION || (m >= 2 && d >= MAX_DISTANCE) {
        break;
      }
      m := m + 1;
    }
  }

  // ----- dispersion and jitter

  /** Two to the minus k. */
  function Half(k: nat): (h: real)
    ensures h > 0.0
  {
    if k == 0 then 1.0 else 0.5 * Half(k - 1)
  }

  /** The rank-weighted sum of RFC 5905: the i-th ranked dispersion counts 2^-(i+1). */
  ghost function WeightedSum(es: seq<real>): real {
    if es == [] then 0.0 else WeightedSum(es[..|es| - 1]) + es[|es| - 1] * Half(|es|)
  }

  ghost function Dispersions(order: seq<nat>, cur: seq<Sample>): seq<real>
    requires forall i :: 0 <= i < |order| ==> order[i] < |cur|
  {
    seq(|order|, i requires 0 <= i < |order| => cur[order[i]].disp)
  }

  /** What the stages never filled add: 2^-n - 2^-8 of the priming dispersion. */
  ghost function Priming(n: nat): real {
    PRIMING_DISPERSION * (Half(n) - Half(STAGES))
  }

  /** The halving recurrence, run from the worst rank to the best. */
  ghost function Fold(es: seq<real>, d: real): real {
    if es == [] then d else Fold(es[..|es| - 1], 0.5 * (d + es[|es| - 1]))
  }

  lemma {:induction false} FoldIsWeightedSum(es: seq<real>, d: real)
    ensures Fold(es, d) == WeightedSum(es) + d * Half(|es|)
  {
    if es != [] {
      var e, h := es[|es| - 1], Half(|es| - 1);
      FoldIsWeightedSum(es[..|es| - 1], 0.5 * (d + e));
      assert 0.5 * (d + e) * h == d * (0.5 * h) + e * (0.5 * h);
    }
  }

  /** The recurrence's starting value, weighted by all n halvings, is the priming term. */
  lemma SeedIsPriming(n: nat, seed: real)
    requires n <= STAGES
    requires seed == if n < STAGES then PRIMING_DISPERSION * (1.0 - Half(STAGES - n)) else 0.0
    ensures seed * Half(n) == Priming(n)
  {
    HalfAdds(STAGES - n, n);
  }

  lemma {:induction false} HalfAdds(a: nat, b: nat)
    ensures Half(a) * Half(b) == Half(a + b)
  {
    if a > 0 {
      HalfAdds(a - 1, b);
      assert Half(a) * Half(b) == 0.5 * (Half(a - 1) * Half(b));
    }
  }

  method FoldDispersion(order: seq<nat>, cur: seq<Sample>) returns (d: real)
    requires |order| == |cur| <= STAGES && forall i :: 0 <= i < |order| ==> order[i] < |cur|
    ensures d == WeightedSum(Dispersions(order, cur)) + Priming(|cur|)
  {
    var n := |cur|;
    d := 0.0;
    if n < STAGES {
      d := PRIMING_DISPERSION * (1.0 - Half(STAGES - n));
    }
    ghost var es, seed := Dispersions(order, cur), d;
    SeedIsPriming(n, seed);
    FoldIsWeightedSum(es, seed);
    hide Half, WeightedSum, Priming;
    var i := n;
    assert es[..n] == es;
    while i > 0
      invariant 0 <= i <= n && Fold(es[..i], d) == Fold(es, seed)
    {
      i := i - 1;
      assert es[..i + 1][..i] == es[..i];
      d := 0.5 * (d + cur[order[i]].disp);
    }
  }

  /** The sum of squared differences of the ranked offsets from the chosen one. */
  ghost function SquareSum(os: seq<real>, best: real): real {
    if os == [] then 0.0 else SquareSum(os[..|os| - 1], best) + (os[|os| - 1] - best) * (os[|os| - 1] - best)
  }

  ghost function Offsets(order: seq<nat>, cur: seq<Sample>): seq<real>
    requires forall i :: 0 <= i < |order| ==> order[i] < |cur|
  {
    seq(|order|, i requires 0 <= i < |order| => cur[order[i]].offset)
  }

  ghost function JitterSq(os: seq<real>, m: nat, floor: real): real
    requires 0 < m <= |os|
  {
    var mean := if m > 1 then SquareSum(os[..m], os[0]) / (m - 1) as real else 0.0;
    if mean >= floor * floor then mean else floor * floor
  }

  method JitterOf(order: seq<nat>, cur: seq<Sample>, m: nat, floor: real) returns (j: real)
    requires 0 < m <= |order| && forall i :: 0 <= i < |order| ==> order[i] < |cur|
    ensures j == JitterSq(Offsets(order, cur), m, floor)
  {
    var best := cur[order[0]].offset;
    ghost var os := Offsets(order, cur);
    j := 0.0;
    assert os[..1][..0] == [];
    for i := 1 to m
      invariant j == SquareSum(os[..i], os[0])
    {
      assert os[..i + 1][..i] == os[..i];
      var d := cur[order[i]].offset - best;
      j := j + d * d;
    }
    if m > 1 { j := j / (m - 1) as real; }
    if j < floor * floor { j := floor * floor; }
  }

  // ----- the estimate

  /** The output that a ranking of the register makes. */
  ghost predicate EstimateOk(out: Output, order: seq<nat>, cur: seq<Sample>, now: real, floor: real)
    requires forall i :: 0 <= i < |order| ==> order[i] < |cur|
  {
    && Usable(Keys(order, cur, now), out.samples)
    && if out.samples == 0 then out == NO_OUTPUT
       else
         var best := cur[order[0]];
         && out.offset == best.offset && out.delay == best.delay && out.at == best.t
         && out.dispersion == WeightedSum(Dispersions(order, cur)) + Priming(|cur|)
         && out.jitterSq == JitterSq(Offsets(order, cur), out.samples, floor)
  }

  method Estimate(cur: seq<Sample>, now: real, floor: real) returns (order: seq<nat>, out: Output)
    requires |cur| <= STAGES
    ensures Ranks(order, cur, now, |cur|) && EstimateOk(out, order, cur, now, floor)
  {
    hide WeightedSum, Priming, JitterSq;
    order := Rank(cur, now);
    var m := CountUsable(order, cur, now);
    if m == 0 {
      out := NO_OUTPUT;
      return;
    }
    var dispersion := FoldDispersion(order, cur);
    var jitterSq := JitterOf(order, cur, m, floor);
    var best := cur[order[0]];
    out := Output(best.offset, best.delay, dispersion, jitterSq, best.t, m);
  }

  // ----- the register

  /** The first sample still in the register after h have been added. */
  function Oldest(h: nat): nat {
    if h <= STAGES then 0 else h - STAGES
  }

  ghost predicate InOrder(hist: seq<Sample>) {
    forall i, j :: 0 <= i < j < |hist| ==> hist[i].t <= hist[j].t
  }

  /** The ring holds the last eight samples, the j-th ever added in slot j mod 8, aged to now. */
  ghost predicate Holds(st: seq<Sample>, hist: seq<Sample>, now: real) {
    && |st| == STAGES
    && forall j :: Oldest(|hist|) <= j < |hist| ==> st[j % STAGES] == Aged(hist[j], now)
  }

  function Grown(s: Sample, aging: real): Sample {
    s.(disp := s.disp + aging)
  }

  function Capped(s: Sample): Sample {
    if s.disp >= MAX_DISPERSION then s.(disp := MAX_DISPERSION) else s
  }

  /** Ageing in steps, capped after each, is ageing at once. */
  lemma AgedTwice(s: Sample, u: real, now: real)
    requires s.t <= u <= now
    ensures Capped(Grown(Aged(s, u), PHI * (now - u))) == Aged(s, now)
  {
  }

  lemma SlotsDiffer(j: nat, h: nat)
    requires j < h < j + STAGES
    ensures j % STAGES != h % STAGES
  {
  }

  /** The slot i < n of a register that has taken h samples holds one of them. */
  lemma SlotOwner(h: nat, i: nat) returns (j: nat)
    requires i < STAGES && i < h
    ensures Oldest(h) <= j < h && j % STAGES == i
  {
    j := h - 1 - (h - 1 - i) % STAGES;
  }

  lemma NextSlot(h: nat)
    ensures (h % STAGES + 1) % STAGES == (h + 1) % STAGES
  {
  }

  lemma GrownByNothing()
    ensures forall s: Sample, x: real :: x == 0.0 ==> Grown(s, x) == s
  {
  }

  lemma {:induction false} InOrderPush(hist: seq<Sample>, s: Sample)
    requires InOrder(hist) && (hist != [] ==> hist[|hist| - 1].t <= s.t)
    ensures InOrder(hist + [s])
  {
  }

  lemma {:induction false} ShiftHolds(st: seq<Sample>, st': seq<Sample>, hist: seq<Sample>, s: Sample, u: real)
    requires Holds(st, hist, u) && InOrder(hist + [s]) && (hist != [] ==> u == hist[|hist| - 1].t)
    requires |st'| == STAGES && st'[|hist| % STAGES] == Capped(s)
    requires forall i :: 0 <= i < STAGES && i != |hist| % STAGES && i < |hist| ==>
      st'[i] == Capped(Grown(st[i], PHI * (s.t - u)))
    ensures Holds(st', hist + [s], s.t)
  {
    var h := |hist|;
    forall j | Oldest(h + 1) <= j < h + 1 ensures st'[j % STAGES] == Aged((hist + [s])[j], s.t) {
      if j < h {
        SlotsDiffer(j, h);
        assert (hist + [s])[j] == hist[j] && (hist + [s])[h] == s && (hist + [s])[h - 1] == hist[h - 1];
        assert hist[j].t <= u <= s.t;
        AgedTwice(hist[j], u, s.t);
      }
    }
  }

  ghost predicate StrictlyIncreasing(a: seq<real>) {
    forall i, j :: 0 <= i < j < |a| ==> a[i] < a[j]
  }

  class Filter {
    const floor: real
    const stages: array<Sample>
    var n: nat
    var next: nat
    var epoch: real
    var update: real
    ghost var hist: seq<Sample>
    ghost var reported: seq<real>

    ghost predicate Valid()
      reads this, stages
    {
      && stages.Length == STAGES
      && n == (if |hist| <= STAGES then |hist| else STAGES) && next == |hist| % STAGES
      && InOrder(hist) && (hist != [] ==> update == hist[|hist| - 1].t)
      && Holds(stages[..], hist, update)
      && StrictlyIncreasing(reported) && epoch == if reported == [] then 0.0 else reported[|reported| - 1]
    }

    /** An estimate from the register as it stands at time now. */
    ghost predicate EstimateOf(out: Output, order: seq<nat>, now: real)
      requires n <= stages.Length <= STAGES
      reads this, stages
    {
      Ranks(order, stages[..n], now, n) && EstimateOk(out, order, stages[..n], now, floor)
    }

    constructor (precision: real)
      ensures Valid() && floor == precision && hist == [] && reported == [] && fresh(stages)
    {
      floor := precision;
      stages := new Sample[STAGES](_ => Sample(0.0, 0.0, 0.0, 0.0));
      n, next, epoch, update, hist, reported := 0, 0, 0.0, 0.0, [], [];
    }

    method Reset()
      requires Valid()
      modifies this, stages
      ensures Valid() && hist == [] && reported == [] && epoch == 0.0
    {
      for i := 0 to STAGES
        invariant stages.Length == STAGES
      {
        stages[i] := Sample(0.0, 0.0, 0.0, 0.0);
      }
      n, next, epoch, update, hist, reported := 0, 0, 0.0, 0.0, [], [];
    }

    method AgeStages(aging: real)
      requires stages.Length == STAGES
      modifies stages
      ensures forall k :: 0 <= k < STAGES ==> stages[k] == Grown(old(stages[k]), aging)
    {
      for i := 0 to STAGES
        invariant forall k :: 0 <= k < STAGES ==> stages[k] == if k < i then Grown(old(stages[k]), aging) else old(stages[k])
      {
        stages[i] := stages[i].(disp := stages[i].disp + aging);
      }
    }

    method CapStages(k: nat)
      requires stages.Length == STAGES && k <= STAGES
      modifies stages
      ensures forall i :: 0 <= i < STAGES ==> stages[i] == if i < k then Capped(old(stages[i])) else old(stages[i])
    {
      for i := 0 to k
        invariant forall j :: 0 <= j < STAGES ==> stages[j] == if j < i then Capped(old(stages[j])) else old(stages[j])
      {
        if stages[i].disp >= MAX_DISPERSION {
          stages[i] := stages[i].(disp := MAX_DISPERSION);
        }
      }
    }

    /** Ages the register to the new sample's time and shifts it in. */
    method Shift(s: Sample)
      requires Valid() && (hist != [] ==> s.t >= update)
      modifies this`n, this`next, this`update, this`hist, stages
      ensures Valid() && hist == old(hist) + [s] && update == s.t
    {
      hide Capped, Aged, Grown, Holds, InOrder, StrictlyIncreasing;
      ghost var st, u := stages[..], update;
      NextSlot(|hist|);
      InOrderPush(hist, s);
      if n > 0 && s.t > update {
        AgeStages(PHI * (s.t - update));
      }
      assert n > 0 ==> forall k :: 0 <= k < STAGES ==> stages[k] == Grown(st[k], PHI * (s.t - u)) by {
        if n > 0 && s.t == u { GrownByNothing(); }
      }
      update := s.t;
      stages[next] := s;
      next := (next + 1) % STAGES;
      if n < STAGES { n := n + 1; }
      CapStages(n);
      hist := hist + [s];
      ShiftHolds(st, stages[..], old(hist), s, u);
    }

    /**
     Adds a sample and returns the estimate; `updated` is false when there is none or it has
     been reported before.  `order` is the ranking and `chosen` the index, among all samples
     added since the last reset, of the one the estimate rests on.
     */
    method Add(s: Sample) returns (out: Output, updated: bool, order: seq<nat>, ghost chosen: nat)
      requires Valid() && (hist != [] ==> s.t >= update)
      modifies this, stages
      ensures Valid() && hist == old(hist) + [s]
      ensures EstimateOf(out, order, s.t)
      ensures out.samples > 0 ==> Oldest(|hist|) <= chosen < |hist| && stages[order[0]] == Aged(hist[chosen], s.t)
      ensures updated <==> out.samples > 0 && out.at > old(epoch)
      ensures reported == old(reported) + if updated then [out.at] else []
      ensures Distance(Aged(s, s.t), s.t) < MAX_DISTANCE ==>
        out.samples > 0 && (hist[chosen].disp >= 0.0 ==> s.t - hist[chosen].t <= Advantage(hist[chosen], s) / PHI)
    {
      hide Ranks, EstimateOk, Distance, Aged, Advantage;
      Shift(s);
      order, out := Estimate(stages[..n], s.t, floor);
      updated, chosen := false, 0;
      if out.samples > 0 {
        FirstRanked(out, order, stages[..n], s.t, floor);
        chosen := SlotOwner(|hist|, order[0]);
        if out.at > epoch {
          epoch, updated := out.at, true;
          reported := reported + [out.at];
        }
      }
      NewSampleCounts(out, order, stages[..n], hist, s, floor, chosen);
    }
  }

  /** A slot nearer than the maximum distance makes an estimate, and what outranks it is no farther. */
  lemma {:induction false} NewestIsRanked(out: Output, order: seq<nat>, cur: seq<Sample>, now: real, floor: real, i: nat)
    requires Ranks(order, cur, now, |cur|) && EstimateOk(out, order, cur, now, floor) && i < |cur|
    ensures Distance(cur[i], now) < MAX_DISTANCE ==>
      out.samples > 0 && order[0] < |cur| && Distance(cur[order[0]], now) <= Distance(cur[i], now)
  {
    hide Distance;
    ChosenIsNearest(order, cur, now, i);
    assert Keys(order, cur, now)[0] == Distance(cur[order[0]], now);
  }

  /** What Add says of a new sample that is near enough, for the register it leaves. */
  lemma {:induction false} NewSampleCounts(out: Output, order: seq<nat>, cur: seq<Sample>, hist: seq<Sample>, s: Sample, floor: real, chosen: nat)
    requires hist != [] && hist[|hist| - 1] == s && InOrder(hist) && (|hist| - 1) % STAGES < |cur|
    requires cur[(|hist| - 1) % STAGES] == Aged(s, s.t)
    requires Ranks(order, cur, s.t, |cur|) && EstimateOk(out, order, cur, s.t, floor)
    requires out.samples > 0 ==> chosen < |hist| && order != [] && order[0] < |cur| && cur[order[0]] == Aged(hist[chosen], s.t)
    ensures Distance(Aged(s, s.t), s.t) < MAX_DISTANCE ==>
      out.samples > 0 && (hist[chosen].disp >= 0.0 ==> s.t - hist[chosen].t <= Advantage(hist[chosen], s) / PHI)
  {
    hide Ranks, EstimateOk, Distance, Aged, Advantage;
    NewestIsRanked(out, order, cur, s.t, floor, (|hist| - 1) % STAGES);
    if Distance(Aged(s, s.t), s.t) < MAX_DISTANCE && hist[chosen].disp >= 0.0 {
      ChosenAgeBound(hist[chosen], s, s.t);
    }
  }

  lemma FirstRanked(out: Output, order: seq<nat>, cur: seq<Sample>, now: real, floor: real)
    requires Ranks(order, cur, now, |cur|) && EstimateOk(out, order, cur, now, floor) && out.samples > 0
    ensures |order| == |cur| > 0 && order[0] < |cur| && out.at == cur[order[0]].t
  {
  }

  // ----- results

  /** The chosen sample has the least distance of all, and is the newest of those that share it. */
  lemma {:induction false} ChosenIsNearest(order: seq<nat>, cur: seq<Sample>, now: real, i: nat)
    requires Ranks(order, cur, now, |cur|) && i < |cur|
    ensures Distance(cur[order[0]], now) <= Distance(cur[i], now)
    ensures Distance(cur[order[0]], now) == Distance(cur[i], now) ==> cur[order[0]].t >= cur[i].t
  {
    assert i in order;
    var k :| 0 <= k < |order| && order[k] == i;
    if k > 0 { assert Precedes(cur, now, order[0], order[k]); }
  }

  /**
   While some sample within the intercept is near, none older than the intercept is chosen, however
   short its delay was.
   */
  lemma {:induction false} OldNeverDisplacesNear(order: seq<nat>, cur: seq<Sample>, now: real, i: nat)
    requires Ranks(order, cur, now, |cur|) && i < |cur| && forall k :: 0 <= k < |cur| ==> cur[k].disp >= 0.0
    requires now - cur[i].t <= 2048.0 && cur[i].delay / 2.0 + cur[i].disp < 1.5 && cur[i].disp < 16.0
    ensures now - cur[order[0]].t <= 2048.0
    ensures cur[order[0]].delay / 2.0 + cur[order[0]].disp <= cur[i].delay / 2.0 + cur[i].disp && cur[order[0]].disp < 16.0
  {
    ChosenIsNearest(order, cur, now, i);
  }

  /** By how much sample c, when it was new, was nearer than sample s. */
  function Advantage(c: Sample, s: Sample): real {
    (s.delay - c.delay) / 2.0 + s.disp - c.disp
  }

  /**
   However long updates are withheld, a sample that outranks a new one nearer than MAX_DISTANCE
   is no older than its half-delay and dispersion advantage, divided by PHI.
   */
  lemma ChosenAgeBound(c: Sample, s: Sample, now: real)
    requires c.disp >= 0.0 && c.t <= now && s.t == now
    requires Distance(Aged(s, now), now) < MAX_DISTANCE
    requires Distance(Aged(c, now), now) <= Distance(Aged(s, now), now)
    ensures now - c.t <= Advantage(c, s) / PHI
  {
    assert PHI * (now - c.t) <= Advantage(c, s);
  }
}
