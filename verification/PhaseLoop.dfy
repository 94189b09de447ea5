/**
 The clock discipline loop of RFC 5905 section 11.3: a frequency word for the kernel and, for
 phase, a transient on that word.  Two ghost histories say what the loop's bookkeeping means:
 the ledger of charges against the last accepted offset, and the full slew log.  The clock
 jitter is a root mean square and is kept here as its square.
 */
module PhaseLoop {
  import opened Basics
  import opened SlewLog

  const MAX_FREQUENCY: real := 500.0
  const ALLAN_INTERCEPT: real := 2048.0
  const SPIKE_GATE: real := 3.0
  const JITTER_AVERAGE: real := 8.0
  const DEFAULT_TIME_CONSTANT: real := 4.0
  const SNAP: real := 0.000000000001
  const TINY: real := 0.000000001

  datatype LoopConfig = LoopConfig(
    stepThreshold: real, stepLimit: int, panic: real, panicAtStartup: bool,
    maxSlewPPM: real, precision: real, timeConstant: real, freqMeasure: real)

  datatype Action = SetFrequency(ppm: real) | StepClock(seconds: real) | ResetFilters

  datatype Decision = Refused | Deferred | Stepped | Ignored | Accepted

  function ClampFreq(f: real): real {
    Max(-MAX_FREQUENCY, Min(MAX_FREQUENCY, f))
  }

  /** Two to the power of the poll exponent. */
  function Pow2(k: int): (r: real)
    ensures r > 0.0
    decreases if k < 0 then -k else k
  {
    if k == 0 then 1.0 else if k > 0 then 2.0 * Pow2(k - 1) else 0.5 * Pow2(k + 1)
  }

  // ----- policy

  /** Is a step still within the limit?  A negative limit is none at all; otherwise it counts updates. */
  predicate StepAllowed(cfg: LoopConfig, updates: nat) {
    cfg.stepLimit < 0 || updates < cfg.stepLimit
  }

  predicate IsSpike(jitterSq: real, lastOffset: real, offset: real, mu: real, poll: int) {
    (offset - lastOffset) * (offset - lastOffset) > SPIKE_GATE * SPIKE_GATE * jitterSq && mu < 2.0 * Pow2(poll)
  }

  /** What an update with this offset comes to.  `spike` is the popcorn test's answer. */
  function Decide(cfg: LoopConfig, updates: nat, offset: real, spike: bool, synced: bool, mayStep: bool): Decision {
    if Abs(offset) > cfg.panic then
      if !(updates == 0 && cfg.panicAtStartup) || !StepAllowed(cfg, updates) then Refused
      else if mayStep then Stepped else Deferred
    else if Abs(offset) > cfg.stepThreshold && StepAllowed(cfg, updates) then
      if mayStep then Stepped else Deferred
    else if synced && updates > 0 && spike then Ignored
    else Accepted
  }

  /** What each decision means, for every offset, limit and veto. */
  lemma PolicyExactly(cfg: LoopConfig, updates: nat, offset: real, spike: bool, synced: bool, mayStep: bool)
    ensures var d := Decide(cfg, updates, offset, spike, synced, mayStep);
      var spent, excused := 0 <= cfg.stepLimit <= updates, updates == 0 && cfg.panicAtStartup;
      && (d.Refused? <==> Abs(offset) > cfg.panic && (spent || !excused))
      && (d.Stepped? || d.Deferred? <==> !spent && if Abs(offset) > cfg.panic then excused else Abs(offset) > cfg.stepThreshold)
      && (d.Stepped? ==> mayStep) && (d.Deferred? ==> !mayStep)
      && (d.Ignored? ==> synced && spike && updates > 0)
      && (d.Accepted? ==> Abs(offset) <= cfg.panic && (spent || Abs(offset) <= cfg.stepThreshold) && !(synced && spike && updates > 0))
  {
  }

  /** The spike test in terms of the jitter itself. */
  lemma SpikeMeans(jitter: real, lastOffset: real, offset: real, mu: real, poll: int)
    requires jitter >= 0.0
    ensures IsSpike(jitter * jitter, lastOffset, offset, mu, poll) <==> Abs(offset - lastOffset) > SPIKE_GATE * jitter && mu < Pow2(poll + 1)
  {
    hide Pow2;
    PowersDouble(poll);
    var a, b := Abs(offset - lastOffset), SPIKE_GATE * jitter;
    assert a * a == (offset - lastOffset) * (offset - lastOffset);
    assert b * b == SPIKE_GATE * SPIKE_GATE * (jitter * jitter);
    SquaresOrder(a, b);
  }

  lemma SquaresOrder(a: real, b: real)
    requires a >= 0.0 && b >= 0.0
    ensures a * a > b * b <==> a > b
  {
    var d := (a - b) * (a + b);
    assert a * a - b * b == d;
    if a > b { Product(a - b, a + b, d); } else { SquaresGrow(a, b); }
  }

  lemma PowersDouble(k: int)
    ensures Pow2(k + 1) == 2.0 * Pow2(k) && Pow2(0) == 1.0
  {
  }

  // ----- the ledger of charges

  /** One accounting interval: the transient that ran, the phase it moved, and what snapping to zero dropped. */
  datatype Charged = Charged(from: real, to: real, rate: real, moved: real, snap: real)

  ghost predicate ChargedOk(c: Charged) {
    c.from <= c.to && c.moved == Run(c.rate, c.to - c.from) && -SNAP < c.snap < SNAP
  }

  /** The intervals follow one another without gap or overlap from a to b. */
  ghost predicate Tiles(l: seq<Charged>, a: real, b: real) {
    && (forall i :: 0 <= i < |l| ==> ChargedOk(l[i]))
    && (forall i :: 0 <= i < |l| - 1 ==> l[i].to == l[i + 1].from)
    && if l == [] then a == b else l[0].from == a && l[|l| - 1].to == b
  }

  ghost function Moved(l: seq<Charged>): real {
    if l == [] then 0.0 else Moved(l[..|l| - 1]) + l[|l| - 1].moved
  }

  ghost function Snapped(l: seq<Charged>): real {
    if l == [] then 0.0 else Snapped(l[..|l| - 1]) + l[|l| - 1].snap
  }

  /** The residual is the accepted offset less every charge since, and less what was snapped away. */
  ghost predicate LedgerOk(l: seq<Charged>, offset: real, since: real, now: real, pending: real) {
    Tiles(l, since, now) && pending == offset - Moved(l) - Snapped(l)
  }

  lemma {:induction false} LedgerPush(l: seq<Charged>, offset: real, since: real, now: real, pending: real, c: Charged)
    requires LedgerOk(l, offset, since, now, pending) && ChargedOk(c) && c.from == now
    ensures LedgerOk(l + [c], offset, since, c.to, pending - c.moved - c.snap)
  {
    assert (l + [c])[..|l|] == l;
  }

  /** All the snapping together is below one snap per interval. */
  lemma {:induction false} SnappedIsSmall(l: seq<Charged>)
    requires forall i :: 0 <= i < |l| ==> ChargedOk(l[i])
    ensures Abs(Snapped(l)) <= SNAP * |l| as real
  {
    if l != [] { SnappedIsSmall(l[..|l| - 1]); }
  }

  ghost function ChargedTime(l: seq<Charged>): real {
    if l == [] then 0.0 else ChargedTime(l[..|l| - 1]) + Charge(l[|l| - 1].to - l[|l| - 1].from)
  }

  /** When no interval was cut short, the time charged is exactly the time since the offset was accepted. */
  lemma {:induction false} ChargedOnce(l: seq<Charged>, a: real, b: real)
    requires Tiles(l, a, b) && forall i :: 0 <= i < |l| ==> l[i].to - l[i].from <= MAX_TICK_INTERVAL
    ensures ChargedTime(l) == b - a
  {
    if l != [] {
      var h := l[..|l| - 1];
      if h != [] { assert h[|h| - 1].to == l[|h| - 1 + 1].from; }
      ChargedOnce(h, a, l[|l| - 1].from);
    }
  }

  // ----- the slew log

  ghost predicate LogState(log: seq<Point>, kept: seq<SlewPoint>, dropped: nat, cum: real, now: real, rate: real) {
    && LogOk(log) && Prunes(kept, log, dropped)
    && (log != [] ==> kept != [] && log[|log| - 1] == Point(now, cum, rate))
    && (log == [] ==> cum == 0.0 && rate == 0.0 && dropped == 0)
    && (dropped > 0 ==> kept[0].at <= now - SLEW_LOG_SPAN)
  }

  lemma {:induction false} LogPush(log: seq<Point>, p: Point)
    requires LogOk(log) && (log != [] ==> Linked(log[|log| - 1], p)) && (log == [] ==> p.cum == 0.0)
    ensures LogOk(log + [p])
  {
    hide Linked;
    var r := log + [p];
    if log != [] { assert log[|log| - 1].at <= p.at by { LinkedOrder(log[|log| - 1], p); } }
    forall i | 0 <= i < |r| - 1 ensures Linked(r[i], r[i + 1]) {
      if i < |log| - 1 { assert Linked(log[i], log[i + 1]); }
    }
  }

  lemma {:induction false} PrunesPush(kept: seq<SlewPoint>, log: seq<Point>, dropped: nat, p: Point)
    requires Prunes(kept, log, dropped)
    ensures Prunes(kept + [SlewPoint(p.at, p.cum)], log + [p], dropped)
  {
  }

  lemma {:induction false} PrunesDrop(kept: seq<SlewPoint>, log: seq<Point>, dropped: nat, k: nat)
    requires Prunes(kept, log, dropped) && k <= |kept|
    ensures Prunes(kept[k..], log, dropped + k)
  {
  }

  lemma LinkedOrder(p: Point, q: Point)
    requires Linked(p, q)
    ensures p.at <= q.at
  {
  }

  /** Only the last point's transient may still change: nothing depends on it yet. */
  lemma {:induction false} LogRetune(log: seq<Point>, rate: real)
    requires LogOk(log) && log != []
    ensures LogOk(log[|log| - 1 := log[|log| - 1].(rate := rate)])
  {
    hide Linked;
    var r := log[|log| - 1 := log[|log| - 1].(rate := rate)];
    forall i | 0 <= i < |r| - 1 ensures Linked(r[i], r[i + 1]) {
      assert Linked(log[i], log[i + 1]);
      if i + 1 == |r| - 1 { LinkedIgnoresRate(log[i], log[i + 1], rate); }
    }
  }

  lemma LinkedIgnoresRate(p: Point, q: Point, rate: real)
    requires Linked(p, q)
    ensures Linked(p, q.(rate := rate))
  {
  }

  // ----- the slew that a tick asks for

  /** The transient for a residual phase, in seconds per second. */
  function Slew(cfg: LoopConfig, pending: real, tau: real): real
    requires tau > 0.0
  {
    if Abs(pending) < TINY then pending
    else
      var maxSlew := cfg.maxSlewPPM * 0.000001;
      Max(-maxSlew, Min(maxSlew, pending / tau))
  }

  /** a is on the same side of zero as b and no farther from it. */
  predicate Within(a: real, b: real) {
    if b >= 0.0 then 0.0 <= a <= b else b <= a <= 0.0
  }

  lemma SlewWithin(cfg: LoopConfig, pending: real, tau: real)
    requires tau >= 1.0 && cfg.maxSlewPPM >= 0.0
    ensures Within(Slew(cfg, pending, tau), pending)
    ensures Abs(Slew(cfg, pending, tau)) <= Max(cfg.maxSlewPPM * 0.000001, TINY)
  {
    DivShrinks(pending, tau);
  }

  lemma DivShrinks(x: real, tau: real)
    requires tau >= 1.0
    ensures Within(x / tau, x)
  {
    var q := x / tau;
    assert x == q * tau;
  }

  /** Clamping the word can only shorten the transient. */
  lemma ClampWithin(freq: real, adj: real)
    requires -MAX_FREQUENCY <= freq <= MAX_FREQUENCY
    ensures Within((ClampFreq(freq + adj * 1000000.0) - freq) * 0.000001, adj)
  {
  }

  lemma WithinTransitive(a: real, b: real, c: real)
    requires Within(a, b) && Within(b, c)
    ensures Within(a, c)
  {
  }

  /** A transient within the residual cannot, in at most two seconds, make it larger. */
  lemma ChargeShrinks(pending: real, rate: real, dt: real)
    requires Within(rate, pending) && 0.0 <= dt <= MAX_TICK_INTERVAL
    ensures Abs(pending - rate * dt) <= Abs(pending)
  {
    if pending >= 0.0 {
      ProductBound(rate, dt);
    } else {
      ProductBound(-rate, dt);
      var m := rate * dt;
      assert (-rate) * dt == -m;
      assert 2.0 * pending <= 2.0 * rate <= m <= 0.0;
    }
  }

  lemma DebitShrinks(pending: real, rate: real, dt: real, moved: real, snap: real)
    requires Within(rate, pending) && 0.0 <= dt <= MAX_TICK_INTERVAL && moved == rate * dt
    requires snap != 0.0 ==> pending - moved - snap == 0.0
    ensures Abs(pending - moved - snap) <= Abs(pending)
  {
    ChargeShrinks(pending, rate, dt);
  }

  /** The transient a tick issues for a residual. */
  ghost function Issued(cfg: LoopConfig, freq: real, pending: real, tau: real): real
    requires tau > 0.0
  {
    (ClampFreq(freq + Slew(cfg, pending, tau) * 1000000.0) - freq) * 0.000001
  }

  /** What the slew limit, the time constant and the kernel's range leave of the transient at the least. */
  ghost function Pace(cfg: LoopConfig, freq: real, tau: real): real
    requires tau > 0.0
  {
    Min(Min(cfg.maxSlewPPM * 0.000001, TINY / tau), (MAX_FREQUENCY - Abs(freq)) * 0.000001)
  }

  /** What an interval of `step` seconds takes off at that pace, and n of them. */
  ghost function Share(cfg: LoopConfig, freq: real, tau: real, step: real): real
    requires tau > 0.0
  {
    Pace(cfg, freq, tau) * step
  }

  ghost function Worked(n: nat, share: real): real {
    n as real * share
  }

  /** A residual that counts is worked off at that pace or faster, and not past zero within a time constant. */
  lemma {:induction false} IssuedKeepsPace(cfg: LoopConfig, freq: real, pending: real, tau: real)
    requires tau >= 2.0 && cfg.maxSlewPPM >= 0.0 && -MAX_FREQUENCY <= freq <= MAX_FREQUENCY && Abs(pending) >= TINY
    ensures var t := Issued(cfg, freq, pending, tau); Within(t, pending / tau) && 0.0 <= Pace(cfg, freq, tau) <= Abs(t)
  {
    QuotientGrows(Abs(pending), TINY, tau);
    assert Abs(pending / tau) == Abs(pending) / tau by { DivShrinks(pending, tau); }
    SlewKeepsPace(cfg, pending, tau);
    IssuedKeeps(freq, Slew(cfg, pending, tau), Min(cfg.maxSlewPPM * 0.000001, TINY / tau));
    WithinTransitive(Issued(cfg, freq, pending, tau), Slew(cfg, pending, tau), pending / tau);
  }

  lemma QuotientGrows(a: real, b: real, tau: real)
    requires 0.0 <= b <= a && tau > 0.0
    ensures 0.0 <= b / tau <= a / tau
  {
    var x, y := a / tau, b / tau;
    assert (x - y) * tau == a - b && y * tau == b;
  }

  lemma SlewKeepsPace(cfg: LoopConfig, pending: real, tau: real)
    requires tau >= 2.0 && cfg.maxSlewPPM >= 0.0 && Abs(pending) >= TINY
    requires 0.0 <= TINY / tau <= Abs(pending / tau)
    ensures Within(Slew(cfg, pending, tau), pending / tau)
    ensures Abs(Slew(cfg, pending, tau)) >= Min(cfg.maxSlewPPM * 0.000001, TINY / tau)
  {
    DivShrinks(pending, tau);
  }

  lemma IssuedKeeps(freq: real, adj: real, pace: real)
    requires -MAX_FREQUENCY <= freq <= MAX_FREQUENCY && 0.0 <= pace <= Abs(adj)
    ensures var t := (ClampFreq(freq + adj * 1000000.0) - freq) * 0.000001;
      Within(t, adj) && Abs(t) >= Min(pace, (MAX_FREQUENCY - Abs(freq)) * 0.000001)
  {
    ClampWithin(freq, adj);
  }

  /** One interval of at least `step` and at most two seconds takes its share off the residual. */
  lemma {:induction false} IntervalDrains(pending: real, tau: real, rate: real, pace: real, dt: real, step: real, moved: real, snap: real)
    requires tau >= 2.0 && Within(rate, pending / tau) && 0.0 <= pace <= Abs(rate)
    requires 0.0 <= step <= dt <= MAX_TICK_INTERVAL && moved == rate * dt && (snap != 0.0 ==> pending - moved - snap == 0.0)
    ensures Abs(pending - moved - snap) <= Abs(pending) - pace * step
  {
    DivShrinks(pending, tau);
    var q := pending / tau;
    assert q * tau == pending;
    if pending >= 0.0 {
      Drains(pending, tau, q, rate, pace, dt, step, moved);
    } else {
      Drains(-pending, tau, -q, -rate, pace, dt, step, -moved);
    }
  }

  lemma Drains(p: real, tau: real, q: real, rate: real, pace: real, dt: real, step: real, moved: real)
    requires p >= 0.0 && tau >= 2.0 && p == q * tau && 0.0 <= pace <= rate <= q && 0.0 <= step <= dt <= 2.0 && moved == rate * dt
    ensures pace * step <= moved <= p
  {
    assert rate * (dt - step) >= 0.0 && (rate - pace) * step >= 0.0;
    assert (q - rate) * dt >= 0.0 && q * (tau - dt) >= 0.0;
  }

  /** Below the nanosecond a tick asks for the whole residual in one second, so that ticks two seconds apart turn it over for ever. */
  lemma TinyResidualSwings(cfg: LoopConfig, pending: real, tau: real)
    requires tau > 0.0 && Abs(pending) < TINY
    ensures Issued(cfg, 0.0, pending, tau) == pending && pending - Run(pending, MAX_TICK_INTERVAL) == -pending
  {
  }

  lemma ProductBound(r: real, dt: real)
    requires r >= 0.0 && 0.0 <= dt <= 2.0
    ensures 0.0 <= r * dt <= 2.0 * r
  {
  }

  // ----- the loop

  /** The estimate after the offset has been integrated over mu seconds. */
  function Integrated(freq: real, offset: real, mu: real, tau: real): real
    requires tau > 0.0
  {
    ClampFreq(freq + Correction(offset, Min(mu, ALLAN_INTERCEPT), tau))
  }

  /** The part of a frequency error that an offset shows, in ppm. */
  function Correction(offset: real, mu: real, tau: real): real
    requires tau > 0.0
  {
    offset * mu / (4.0 * tau * tau) * 1000000.0
  }

  /** The estimate after a measurement window: how fast the offset moved, as if nothing had been slewed. */
  function Measured(freq: real, w: Window, offset: real, elapsed: real): real
    requires elapsed > 0.0
  {
    ClampFreq(freq + Ppm(offset - w.offset + w.slewed, elapsed))
  }

  /** A change over a time, in ppm. */
  function Ppm(change: real, elapsed: real): real
    requires elapsed > 0.0
  {
    change / elapsed * 1000000.0
  }

  /** The frequency estimate after an accepted update, and whether it is known. */
  function NextFreq(cfg: LoopConfig, freq: real, known: bool, updates: nat, w: Window,
                    offset: real, mu: real, tau: real, now: real): (r: (real, bool))
    requires tau > 0.0 && cfg.freqMeasure >= 0.0
    ensures r.0 == freq || -MAX_FREQUENCY <= r.0 <= MAX_FREQUENCY
  {
    if updates == 0 then (freq, known)
    else if !known && cfg.freqMeasure > 0.0 then
      if now - w.time >= cfg.freqMeasure then (Measured(freq, w, offset, now - w.time), true) else (freq, known)
    else if Abs(offset) > cfg.maxSlewPPM * 0.000001 * tau then
      // A saturated slew would only wind the integrator up.
      (freq, known)
    else
      (Integrated(freq, offset, mu, tau), true)
  }

  function NextJitterSq(cfg: LoopConfig, jitterSq: real, updates: nat, last: Previous, offset: real): real {
    var d := Max(Abs(offset - last.offset), cfg.precision);
    if updates == 0 then Max(cfg.precision * cfg.precision, d * d / JITTER_AVERAGE)
    else if last.skipJitter then jitterSq
    else jitterSq + (d * d - jitterSq) / JITTER_AVERAGE
  }

  /**
   The squared jitter: never below the squared precision, started from an eighth of the first
   change, left alone by the update after a step, and otherwise drawn an eighth of the way
   towards the square of the newest change.
   */
  lemma JitterAverages(cfg: LoopConfig, jitterSq: real, updates: nat, last: Previous, offset: real)
    requires cfg.precision >= 0.0 && jitterSq >= cfg.precision * cfg.precision
    ensures var next, change := NextJitterSq(cfg, jitterSq, updates, last, offset), Max(Abs(offset - last.offset), cfg.precision);
      && next >= cfg.precision * cfg.precision
      && (updates == 0 ==> 8.0 * next >= change * change && (next == cfg.precision * cfg.precision || 8.0 * next == change * change))
      && (updates > 0 && last.skipJitter ==> next == jitterSq)
      && (updates > 0 && !last.skipJitter ==> 8.0 * (next - change * change) == 7.0 * (jitterSq - change * change))
  {
    var change := Max(Abs(offset - last.offset), cfg.precision);
    SquaresGrow(cfg.precision, change);
  }

  lemma SquaresGrow(a: real, b: real)
    requires 0.0 <= a <= b
    ensures a * a <= b * b
  {
    assert b * b - a * a == (b - a) * (b + a);
  }

  // ----- what the frequency estimate does

  /** The offset that builds up in mu seconds on a clock that needs e ppm and is given freq. */
  ghost function Drifted(e: real, freq: real, mu: real): real {
    (e - freq) * mu * 0.000001
  }

  /**
   An oscillator that needs a frequency of e: while the slew is not saturated and updates come
   within two time constants, the estimate moves towards e, never past it, and stops only there
   or at the limit of what the kernel takes.
   */
  lemma {:induction false} FrequencyConverges(cfg: LoopConfig, freq: real, known: bool, updates: nat, w: Window,
                                              e: real, mu: real, tau: real, now: real)
    requires tau > 0.0 && cfg.freqMeasure >= 0.0 && -MAX_FREQUENCY <= freq <= MAX_FREQUENCY
    requires updates > 0 && (known || cfg.freqMeasure == 0.0) && 0.0 <= mu <= 2.0 * tau
    requires Abs(Drifted(e, freq, mu)) <= cfg.maxSlewPPM * 0.000001 * tau
    ensures var f := NextFreq(cfg, freq, known, updates, w, Drifted(e, freq, mu), mu, tau, now);
      && f.1 && Within(f.0 - freq, e - freq) && Abs(f.0 - e) <= Abs(freq - e)
      && (mu > 0.0 && freq != ClampFreq(e) ==> Abs(f.0 - e) < Abs(freq - e))
      && (mu <= ALLAN_INTERCEPT && -MAX_FREQUENCY <= e <= MAX_FREQUENCY ==> f.0 - e == Left(freq - e, mu / (2.0 * tau)))
  {
    hide Drifted, Integrated, Left;
    IntegratedTowards(freq, e, mu, tau);
  }

  /** What is left of an error after an update that comes the fraction r of two time constants after the last. */
  ghost function Left(error: real, r: real): real {
    error * (1.0 - r * r)
  }

  lemma {:induction false} IntegratedTowards(freq: real, e: real, mu: real, tau: real)
    requires tau > 0.0 && -MAX_FREQUENCY <= freq <= MAX_FREQUENCY && 0.0 <= mu <= 2.0 * tau
    ensures var f := Integrated(freq, Drifted(e, freq, mu), mu, tau);
      && Within(f - freq, e - freq) && (mu > 0.0 && freq != ClampFreq(e) ==> f != freq)
      && (mu <= ALLAN_INTERCEPT && -MAX_FREQUENCY <= e <= MAX_FREQUENCY ==> f - e == Left(freq - e, mu / (2.0 * tau)))
  {
    hide Drifted, Correction, Left;
    var g := CorrectionIsPart(e, freq, mu, Min(mu, ALLAN_INTERCEPT), tau);
    var delta := Correction(Drifted(e, freq, mu), Min(mu, ALLAN_INTERCEPT), tau);
    PartOfTheWay(freq, e, g, delta);
    if mu <= ALLAN_INTERCEPT && -MAX_FREQUENCY <= e <= MAX_FREQUENCY {
      PartWithin(e - freq, g, delta);
      LeftIsRest(freq - e, g, mu / (2.0 * tau), delta);
    }
  }

  lemma LeftIsRest(error: real, g: real, r: real, delta: real)
    requires g == r * r && delta == -error * g
    ensures error + delta == Left(error, r)
  {
  }

  lemma CorrectionIsPart(e: real, freq: real, mu: real, m: real, tau: real) returns (g: real)
    requires tau > 0.0 && 0.0 <= mu <= 2.0 * tau && m == Min(mu, ALLAN_INTERCEPT)
    ensures 0.0 <= g <= 1.0 && (mu > 0.0 ==> g > 0.0) && Correction(Drifted(e, freq, mu), m, tau) == (e - freq) * g
    ensures mu <= ALLAN_INTERCEPT ==> g == (mu / (2.0 * tau)) * (mu / (2.0 * tau))
  {
    hide Drifted;
    var q := 4.0 * tau * tau;
    GainBound(mu, m, tau, q);
    g := mu * m / q;
    DriftTimesGain(e, freq, mu, m, q);
    if mu <= ALLAN_INTERCEPT { GainIsSquare(mu, tau, q, g); }
  }

  lemma GainIsSquare(mu: real, tau: real, q: real, g: real)
    requires tau > 0.0 && q == 4.0 * tau * tau && q > 0.0 && g == mu * mu / q
    ensures g == (mu / (2.0 * tau)) * (mu / (2.0 * tau))
  {
    var r, t := mu / (2.0 * tau), 2.0 * tau;
    assert r * t == mu && q == t * t;
    assert (r * r) * (t * t) == (r * t) * (r * t);
    SameFactor(g, r * r, q);
  }

  lemma PartOfTheWay(freq: real, e: real, g: real, delta: real)
    requires -MAX_FREQUENCY <= freq <= MAX_FREQUENCY && 0.0 <= g <= 1.0 && delta == (e - freq) * g
    ensures Within(ClampFreq(freq + delta) - freq, e - freq)
    ensures g > 0.0 && freq != ClampFreq(e) ==> ClampFreq(freq + delta) != freq
  {
    PartWithin(e - freq, g, delta);
    ClampMoves(freq, delta);
    WithinTransitive(ClampFreq(freq + delta) - freq, delta, e - freq);
    if g > 0.0 && freq != ClampFreq(e) { ClampMovesAtAll(freq, e, g, delta); }
  }

  lemma GainBound(mu: real, m: real, tau: real, q: real)
    requires tau > 0.0 && 0.0 <= mu <= 2.0 * tau && m == Min(mu, ALLAN_INTERCEPT) && q == 4.0 * tau * tau
    ensures q > 0.0 && 0.0 <= mu * m / q <= 1.0
    ensures mu > 0.0 ==> mu * m / q > 0.0
  {
    var u, t := mu * m, 2.0 * tau;
    assert q == t * t;
    Product(tau, tau, tau * tau);
    if mu > 0.0 { Product(mu, m, u); }
    assert u <= mu * t by { assert mu * (t - m) >= 0.0; }
    assert mu * t <= t * t by { assert (t - mu) * t >= 0.0; }
    QuotientWithin(u, q);
  }

  lemma Product(a: real, b: real, p: real)
    requires a > 0.0 && b > 0.0 && p == a * b
    ensures p > 0.0
  {
  }

  lemma QuotientWithin(u: real, q: real)
    requires 0.0 <= u <= q && q > 0.0
    ensures 0.0 <= u / q <= 1.0 && (u > 0.0 ==> u / q > 0.0)
  {
    var x := u / q;
    assert x * q == u;
  }

  lemma DriftTimesGain(e: real, freq: real, mu: real, m: real, q: real)
    requires q > 0.0
    ensures Drifted(e, freq, mu) * m / q * 1000000.0 == (e - freq) * (mu * m / q)
  {
    var d, u := e - freq, mu * m;
    assert d * mu * 0.000001 * m == d * u * 0.000001;
    assert d * u * 0.000001 / q * 1000000.0 == d * u / q;
    assert d * u / q == d * (u / q) by {
      var x := u / q;
      assert u == x * q;
      assert d * (x * q) == d * x * q;
    }
  }

  lemma PartWithin(d: real, g: real, p: real)
    requires 0.0 <= g <= 1.0 && p == d * g
    ensures Within(p, d)
  {
    if d >= 0.0 { PartBelow(d, g, p); } else { PartBelow(-d, g, -p); }
  }

  lemma PartBelow(d: real, g: real, p: real)
    requires d >= 0.0 && 0.0 <= g <= 1.0 && p == d * g
    ensures 0.0 <= p <= d
  {
    assert d - p == d * (1.0 - g);
  }

  /** A clamped estimate has moved part of the way it was sent. */
  lemma ClampMoves(freq: real, delta: real)
    requires -MAX_FREQUENCY <= freq <= MAX_FREQUENCY
    ensures Within(ClampFreq(freq + delta) - freq, delta)
  {
  }

  lemma ClampMovesAtAll(freq: real, e: real, g: real, delta: real)
    requires -MAX_FREQUENCY <= freq <= MAX_FREQUENCY && freq != ClampFreq(e) && g > 0.0 && delta == (e - freq) * g
    ensures ClampFreq(freq + delta) != freq
  {
    if e > freq { Product(e - freq, g, delta); } else { Product(freq - e, g, -delta); }
  }

  /** While the slew is saturated, and on the first update, the estimate rests. */
  lemma FrequencyRests(cfg: LoopConfig, freq: real, known: bool, updates: nat, w: Window, offset: real, mu: real, tau: real, now: real)
    requires tau > 0.0 && cfg.freqMeasure >= 0.0
    requires
      || updates == 0 || (!known && 0.0 < cfg.freqMeasure && now - w.time < cfg.freqMeasure)
      || ((known || cfg.freqMeasure == 0.0) && Abs(offset) > cfg.maxSlewPPM * 0.000001 * tau)
    ensures NextFreq(cfg, freq, known, updates, w, offset, mu, tau, now) == (freq, known)
  {
  }

  /**
   The bootstrap: a clock that needs e all along the window, and from whose offset `slewed` has been
   taken meanwhile, is measured exactly when the window knows of all that was slewed, and otherwise
   wrong by what it does not know of, spread over the window.
   */
  lemma {:induction false} BootstrapMeasures(cfg: LoopConfig, freq: real, updates: nat, w: Window, e: real, slewed: real,
                                             mu: real, tau: real, now: real)
    requires tau > 0.0 && cfg.freqMeasure > 0.0 && updates > 0 && now - w.time >= cfg.freqMeasure
    ensures var offset := w.offset + Drifted(e, freq, now - w.time) - slewed;
      NextFreq(cfg, freq, false, updates, w, offset, mu, tau, now) ==
        (ClampFreq(e - Ppm(slewed - w.slewed, now - w.time)), true)
  {
    hide ClampFreq, Drifted, Ppm;
    var change := Drifted(e, freq, now - w.time);
    assert w.offset + change - slewed - w.offset + w.slewed == change - (slewed - w.slewed);
    SpreadOver(e, freq, now - w.time, slewed - w.slewed);
  }

  lemma SpreadOver(e: real, freq: real, t: real, rest: real)
    requires t > 0.0
    ensures Ppm(Drifted(e, freq, t) - rest, t) == e - freq - Ppm(rest, t)
  {
    var d := e - freq;
    var x, y := (d * t * 0.000001 - rest) / t, rest / t;
    assert x * t == d * t * 0.000001 - y * t;
    assert (d * 0.000001 - y) * t == d * t * 0.000001 - y * t;
    SameFactor(x, d * 0.000001 - y, t);
  }

  lemma SameFactor(a: real, b: real, t: real)
    requires t > 0.0 && a * t == b * t
    ensures a == b
  {
    assert (a - b) * t == 0.0;
  }

  /** The time before the i-th of these, which follow `from`. */
  ghost function Before(times: seq<real>, from: real, i: nat): real
    requires i <= |times|
  {
    if i == 0 then from else times[i - 1]
  }

  /** The previous update; `skipJitter` says it was a step, so its offset means nothing. */
  datatype Previous = Previous(time: real, offset: real, skipJitter: bool)

  /** The bootstrap frequency measurement. */
  datatype Window = Window(time: real, offset: real, slewed: real)

  /** The offset the residual is measured from, when it was accepted, and the charges since. */
  datatype Book = Book(accepted: real, since: real, ledger: seq<Charged>)

  /** Every accounting point since the last step, and how many of them the pruned log has dropped. */
  datatype FullLog = FullLog(points: seq<Point>, dropped: nat)

  /** Since when, from which offset and from what cumulative slew the window counts, after an accepted update: the first opens it. */
  ghost function Onset(now: real, offset: real, updates: nat, w: Window, cumSlew: real, base: real): (real, real, real) {
    if updates == 0 then (now, offset, cumSlew) else (w.time, w.offset, base)
  }

  ghost predicate ConfigOk(cfg: LoopConfig) {
    cfg.timeConstant > 0.0 && cfg.maxSlewPPM >= 0.0 && cfg.freqMeasure >= 0.0
  }

  class Loop {
    const cfg: LoopConfig
    var freq: real
    var freqKnown: bool
    var pending: real
    var jitterSq: real
    var updates: nat
    var steps: nat
    var last: Previous
    var tau: real
    var applied: real
    var appliedBase: real
    var haveApply: bool
    var chargeFrom: real
    var haveTick: bool
    var window: Window
    var slewLog: seq<SlewPoint>
    var cumSlew: real

    ghost var book: Book
    ghost var full: FullLog
    // What had been slewed when the measurement window opened.
    ghost var slewBase: real

    /** The phase transient the kernel is running, in seconds per second. */
    function Transient(): real
      reads this
    {
      if haveApply then (applied - appliedBase) * 0.000001 else 0.0
    }

    ghost predicate Settled()
      reads this
    {
      && LedgerOk(book.ledger, book.accepted, book.since, chargeFrom, pending)
      && LogState(full.points, slewLog, full.dropped, cumSlew, chargeFrom, Transient())
    }

    /** Before the first accounting point nothing has been issued, charged or accepted. */
    ghost predicate Untouched()
      reads this
    {
      && !haveApply && pending == 0.0 && book.accepted == 0.0 && book.ledger == []
      && full == FullLog([], 0) && slewLog == [] && cumSlew == 0.0
    }

    ghost predicate Valid()
      reads this
    {
      && ConfigOk(cfg) && tau > 0.0
      && -MAX_FREQUENCY <= freq <= MAX_FREQUENCY
      && (haveApply ==> -MAX_FREQUENCY <= applied <= MAX_FREQUENCY)
      && window.slewed == cumSlew - slewBase && (updates == 0 ==> !last.skipJitter)
      && steps <= updates && (cfg.stepLimit >= 0 ==> steps <= cfg.stepLimit)
      && if haveTick then Settled() else Untouched()
    }

    /** Time does not go back. */
    ghost predicate Follows(now: real)
      reads this
    {
      haveTick ==> now >= chargeFrom
    }

    constructor (cfg: LoopConfig, freq: real, known: bool)
      requires cfg.maxSlewPPM >= 0.0 && cfg.freqMeasure >= 0.0
      ensures Valid() && !haveTick && this.freq == ClampFreq(freq) && freqKnown == known && updates == 0 && steps == 0
      ensures forall t :: Mu(t) == 0.0
      ensures this.cfg == if cfg.timeConstant <= 0.0 then cfg.(timeConstant := DEFAULT_TIME_CONSTANT) else cfg
    {
      var c := if cfg.timeConstant <= 0.0 then cfg.(timeConstant := DEFAULT_TIME_CONSTANT) else cfg;
      this.cfg, this.freq, freqKnown := c, ClampFreq(freq), known;
      pending, jitterSq, updates, steps := 0.0, c.precision * c.precision, 0, 0;
      last, window, tau := Previous(0.0, 0.0, false), Window(0.0, 0.0, 0.0), c.timeConstant * Pow2(6);
      applied, appliedBase, haveApply, chargeFrom, haveTick := 0.0, 0.0, false, 0.0, false;
      slewLog, cumSlew := [], 0.0;
      book, full, slewBase := Book(0.0, 0.0, []), FullLog([], 0), 0.0;
    }

    /** The seconds to charge since the accounting point, which moves to now. */
    method Elapsed(now: real) returns (dt: real)
      modifies this`chargeFrom, this`haveTick
      ensures dt == (if old(haveTick) then Charge(now - old(chargeFrom)) else 0.0) && 0.0 <= dt <= MAX_TICK_INTERVAL
      ensures haveTick && chargeFrom == now
    {
      dt := 0.0;
      if haveTick {
        var d := now - chargeFrom;
        if d < 0.0 {
          dt := 0.0;
        } else if d > MAX_TICK_INTERVAL {
          dt := MAX_TICK_INTERVAL;
        } else {
          dt := d;
        }
      }
      chargeFrom, haveTick := now, true;
    }

    /** Logs the point, and forgets points that lie a whole span back except the last of them. */
    method NoteSlew(now: real, moved: real)
      requires LogOk(full.points) && Prunes(slewLog, full.points, full.dropped)
      requires full.points != [] ==>
        slewLog != [] && Linked(full.points[|full.points| - 1], Point(now, cumSlew + moved, Transient()))
      requires full.points == [] ==> cumSlew + moved == 0.0 && full.dropped == 0
      requires full.dropped > 0 ==> slewLog[0].at <= now - SLEW_LOG_SPAN
      modifies this`slewLog, this`cumSlew, this`full
      ensures LogState(full.points, slewLog, full.dropped, cumSlew, now, Transient())
      ensures cumSlew == old(cumSlew) + moved && full.points == old(full.points) + [Point(now, cumSlew, Transient())]
      ensures |slewLog| > 1 ==> slewLog[1].at > now - SLEW_LOG_SPAN
    {
      hide Linked, LogOk, Prunes;
      ghost var p := Point(now, cumSlew + moved, Transient());
      LogPush(full.points, p);
      PrunesPush(slewLog, full.points, full.dropped, p);
      cumSlew := cumSlew + moved;
      full := full.(points := full.points + [p]);
      slewLog := slewLog + [SlewPoint(now, cumSlew)];
      var cut, drop := now - SLEW_LOG_SPAN, 0;
      while drop + 1 < |slewLog| && slewLog[drop + 1].at <= cut
        invariant drop < |slewLog| && (drop > 0 ==> slewLog[drop].at <= cut)
      {
        drop := drop + 1;
      }
      if drop > 0 {
        PrunesDrop(slewLog, full.points, full.dropped, drop);
        slewLog := slewLog[drop..];
        full := full.(dropped := full.dropped + drop);
      }
    }

    /** Debits the phase the current transient moved in dt seconds. */
    method MovePhase(dt: real) returns (moved: real, ghost snap: real)
      requires dt >= 0.0
      modifies this`pending, this`window
      ensures moved == Transient() * dt && -SNAP < snap < SNAP && (snap != 0.0 ==> pending == 0.0)
      ensures !haveApply ==> snap == 0.0
      ensures pending != old(pending) ==> pending == 0.0 || Abs(pending) >= SNAP
      ensures pending == old(pending) - moved - snap && window == old(window).(slewed := old(window).slewed + moved)
    {
      moved, snap := 0.0, 0.0;
      if haveApply && dt > 0.0 {
        var ran := (applied - appliedBase) * 0.000001;
        if ran != 0.0 {
          moved := ran * dt;
          pending := pending - moved;
          window := window.(slewed := window.slewed + moved);
          if Abs(pending) < SNAP {
            snap := pending;
            pending := 0.0;
          }
        }
      }
      if moved == 0.0 { ZeroProduct(Transient(), dt, haveApply, moved); }
    }

    /** The charge an accounting point at time now makes, given what snapping drops. */
    ghost function ChargeAt(now: real, snap: real): Charged
      reads this
    {
      Charged(chargeFrom, now, Transient(), Run(Transient(), now - chargeFrom), snap)
    }

    /** Moves the accounting point to now and charges the interval that ends there, once. */
    method ChargeApplied(now: real) returns (ghost snap: real)
      requires Valid() && Follows(now)
      modifies this`pending, this`window, this`chargeFrom, this`haveTick, this`slewLog, this`cumSlew, this`full, this`book
      ensures Valid() && haveTick && chargeFrom == now && full.points != []
      ensures -SNAP < snap < SNAP && (snap != 0.0 ==> pending == 0.0)
      ensures old(haveTick) ==> book == old(book).(ledger := old(book).ledger + [old(ChargeAt(now, snap))])
      ensures old(haveTick) ==> pending == old(pending) - old(ChargeAt(now, snap)).moved - snap
      ensures !old(haveTick) ==> book == Book(0.0, now, []) && pending == 0.0
      ensures full.points == old(full.points) + [Point(now, cumSlew, Transient())]
      ensures Within(Transient(), old(pending)) ==> Abs(pending) <= Abs(old(pending))
      ensures window.time == old(window.time) && window.offset == old(window.offset)
      ensures pending != old(pending) ==> pending == 0.0 || Abs(pending) >= SNAP
      ensures |slewLog| > 1 ==> slewLog[1].at > now - SLEW_LOG_SPAN
    {
      hide LedgerOk, LogOk, Prunes, Linked, Run, Charge, Within;
      ghost var rate, from := Transient(), chargeFrom;
      var moved;
      moved, snap := Debit(now);
      if !old(haveTick) {
        StartLog(full.points, slewLog);
        StartLedger(0.0, now);
        book := Book(0.0, now, []);
      } else {
        LedgerPush(book.ledger, book.accepted, book.since, from, old(pending), old(ChargeAt(now, snap)));
        book := book.(ledger := book.ledger + [old(ChargeAt(now, snap))]);
        ExtendLog(full.points, cumSlew, from, rate, now, moved);
      }
      NoteSlew(now, moved);
    }

    /** Moves the accounting point and debits the residual for the interval that ends there. */
    method Debit(now: real) returns (moved: real, ghost snap: real)
      requires Follows(now) && (!haveTick ==> !haveApply)
      modifies this`pending, this`window, this`chargeFrom, this`haveTick
      ensures haveTick && chargeFrom == now && pending == old(pending) - moved - snap
      ensures pending != old(pending) ==> pending == 0.0 || Abs(pending) >= SNAP
      ensures window == old(window).(slewed := old(window).slewed + moved)
      ensures moved == if old(haveTick) then Run(Transient(), now - old(chargeFrom)) else 0.0
      ensures -SNAP < snap < SNAP && (snap != 0.0 ==> pending == 0.0) && (!old(haveTick) ==> snap == 0.0)
      ensures Within(Transient(), old(pending)) ==> Abs(pending) <= Abs(old(pending))
    {
      hide Within;
      ghost var rate, was := Transient(), pending;
      var dt := Elapsed(now);
      moved, snap := MovePhase(dt);
      assert Transient() == rate;
      if !old(haveTick) { MulZero(rate, dt); }
      if Within(rate, was) { DebitShrinks(was, rate, dt, moved, snap); }
    }

    /** Notes the word now in force, and the frequency it departs from. */
    method SetApplied(total: real)
      requires Valid() && haveTick && full.points != [] && -MAX_FREQUENCY <= total <= MAX_FREQUENCY
      modifies this`applied, this`appliedBase, this`haveApply, this`full
      ensures Valid() && haveApply && applied == total && appliedBase == freq
    {
      hide LedgerOk, LogOk, Linked;
      applied, appliedBase, haveApply := total, freq, true;
      LogRetune(full.points, Transient());
      PrunesIgnoresRate(slewLog, full.points, full.dropped, Transient());
      ghost var k := |full.points| - 1;
      full := full.(points := full.points[k := full.points[k].(rate := Transient())]);
    }

    /** The word was issued against the present frequency and can only work the residual off. */
    ghost predicate Coasting()
      reads this
    {
      haveApply && appliedBase == freq && tau >= 1.0 && Within(Transient(), pending)
    }

    /**
     The per-second work: charge what has run, then issue the base frequency with a fresh
     transient.  A tick that issued a word leaves a transient that cannot enlarge the residual
     before the next tick.
     */
    method Tick(now: real) returns (actions: seq<Action>, ghost snap: real)
      requires Valid() && Follows(now)
      modifies this`pending, this`window, this`chargeFrom, this`haveTick, this`slewLog, this`cumSlew, this`full, this`book,
        this`applied, this`appliedBase, this`haveApply
      ensures Valid() && haveTick && chargeFrom == now
      ensures old(haveTick) ==> book == old(book).(ledger := old(book).ledger + [old(ChargeAt(now, snap))])
      ensures old(haveTick) ==> pending == old(pending) - old(ChargeAt(now, snap)).moved - snap
      ensures -SNAP < snap < SNAP && (snap != 0.0 ==> pending == 0.0)
      ensures haveApply && applied ==
        if pending == 0.0 then freq else ClampFreq(freq + Slew(cfg, pending, tau) * 1000000.0)
      ensures actions == [] <==> pending == 0.0 && old(haveApply) && old(applied) == freq
      ensures actions != [] ==> actions == [SetFrequency(applied)] && -MAX_FREQUENCY <= applied <= MAX_FREQUENCY
      ensures actions != [] && tau >= 1.0 ==> Within(Transient(), pending) && Abs(Transient()) <= Max(cfg.maxSlewPPM * 0.000001, TINY)
      ensures Within(old(Transient()), old(pending)) ==> Abs(pending) <= Abs(old(pending))
      ensures old(Coasting()) || (actions != [] && tau >= 1.0) ==> Coasting()
    {
      hide LedgerOk, LogState, Slew;
      snap := ChargeApplied(now);
      if pending == 0.0 {
        if !haveApply || applied != freq {
          SetApplied(freq);
          actions := [SetFrequency(freq)];
        } else {
          actions := [];
        }
        return;
      }
      var adj := Slew(cfg, pending, tau);
      var total := ClampFreq(freq + adj * 1000000.0);
      ClampWithin(freq, adj);
      if tau >= 1.0 {
        SlewWithin(cfg, pending, tau);
        WithinTransitive((total - freq) * 0.000001, adj, pending);
      }
      SetApplied(total);
      actions := [SetFrequency(total)];
    }

    /**
     Any number of ticks after one that issued a word, with no update between them: the residual
     never grows, and every word is within the limit.
     */
    method Coast(times: seq<real>) returns (ghost residuals: seq<real>, words: seq<Action>)
      requires Valid() && haveTick && Coasting()
      requires forall i :: 0 <= i < |times| ==> times[i] >= Before(times, chargeFrom, i)
      modifies this
      ensures Valid() && Coasting() && |residuals| == |times| + 1 && residuals[0] == old(pending) && residuals[|times|] == pending
      ensures forall i, j :: 0 <= i <= j < |residuals| ==> Abs(residuals[j]) <= Abs(residuals[i])
      ensures forall a :: a in words ==> a.SetFrequency? && -MAX_FREQUENCY <= a.ppm <= MAX_FREQUENCY
      ensures if words == [] then applied == old(applied) else words[|words| - 1] == SetFrequency(applied)
    {
      hide LedgerOk, LogState, Within, Slew, Settled;
      residuals, words := [pending], [];
      for n := 0 to |times|
        invariant Valid() && haveTick && Coasting() && |residuals| == n + 1 && residuals[0] == old(pending) && residuals[n] == pending
        invariant chargeFrom == Before(times, old(chargeFrom), n)
        invariant forall i, j :: 0 <= i <= j < |residuals| ==> Abs(residuals[j]) <= Abs(residuals[i])
        invariant forall a :: a in words ==> a.SetFrequency? && -MAX_FREQUENCY <= a.ppm <= MAX_FREQUENCY
        invariant if words == [] then applied == old(applied) else words[|words| - 1] == SetFrequency(applied)
      {
        var actions;
        ghost var snap;
        actions, snap := Tick(times[n]);
        words := words + actions;
        residuals := residuals + [pending];
      }
    }

    /** The word in force is the one the last tick issued for the residual there is. */
    ghost predicate Driven()
      reads this
    {
      Coasting() && Transient() == (if pending == 0.0 then 0.0 else Issued(cfg, freq, pending, tau))
    }

    /**
     Ticks between `step` and two seconds apart, with no update between them, take the residual
     off at a steady pace at the least: after enough of them it is below a nanosecond.
     */
    method Drain(times: seq<real>, ghost step: real)
      requires Valid() && haveTick && Driven() && tau >= 2.0 && step >= 0.0
      requires forall i :: 0 <= i < |times| ==> step <= times[i] - Before(times, chargeFrom, i) <= MAX_TICK_INTERVAL
      modifies this
      ensures Valid() && Driven() && tau == old(tau) && freq == old(freq)
      ensures var all := Worked(|times|, Share(cfg, freq, tau, step));
        && (Abs(pending) < TINY || Abs(pending) <= Abs(old(pending)) - all)
        && (all > Abs(old(pending)) ==> Abs(pending) < TINY)
    {
      hide LedgerOk, LogState, Settled, Share, Worked, Within, Driven;
      ghost var share := Share(cfg, freq, tau, step);
      OneMore(0, share);
      for n := 0 to |times|
        invariant Valid() && haveTick && Driven() && tau == old(tau) && freq == old(freq)
        invariant chargeFrom == Before(times, old(chargeFrom), n)
        invariant Abs(pending) < TINY || Abs(pending) <= Abs(old(pending)) - Worked(n, share)
      {
        DrainTick(times[n], step);
        OneMore(n, share);
      }
    }

    /** One such tick. */
    method DrainTick(now: real, ghost step: real)
      requires Valid() && haveTick && Driven() && tau >= 2.0 && 0.0 <= step <= now - chargeFrom <= MAX_TICK_INTERVAL
      modifies this
      ensures Valid() && haveTick && Driven() && tau == old(tau) && freq == old(freq) && chargeFrom == now
      ensures if Abs(old(pending)) < TINY then Abs(pending) < TINY else Abs(pending) <= Abs(old(pending)) - Share(cfg, freq, tau, step)
    {
      hide LedgerOk, LogState, Slew, Settled, Share, Abs, Within, ClampFreq, Run;
      ghost var p, rate, dt := pending, Transient(), now - chargeFrom;
      ghost var snap;
      var actions;
      actions, snap := Tick(now);
      DrainStep(cfg, freq, p, tau, rate, dt, step, snap, pending);
    }

    /** A step supersedes the residual; the frequency estimate is kept. */
    method Step(offset: real, now: real) returns (actions: seq<Action>)
      requires Valid() && Follows(now) && StepAllowed(cfg, updates)
      modifies this`steps, this`updates, this`chargeFrom, this`haveTick, this`appliedBase, this`slewLog, this`cumSlew,
        this`pending, this`full, this`book, this`last, this`window, this`slewBase
      ensures Valid() && haveTick && chargeFrom == now && actions == [StepClock(offset), ResetFilters]
      ensures steps == old(steps) + 1 && updates == old(updates) + 1
      ensures pending == 0.0 && Transient() == 0.0 && full == FullLog([], 0) && book == Book(0.0, now, [])
      ensures last == Previous(now, 0.0, true) && window == Window(now, 0.0, 0.0)
    {
      hide LedgerOk, LogState;
      ClearPhase(now);
      steps, updates := steps + 1, updates + 1;
      last, window, slewBase := Previous(now, 0.0, true), Window(now, 0.0, 0.0), 0.0;
      actions := [StepClock(offset), ResetFilters];
    }

    /** A fresh accounting interval with nothing owed and nothing recorded. */
    method ClearPhase(now: real)
      modifies this`chargeFrom, this`haveTick, this`appliedBase, this`slewLog, this`cumSlew, this`pending, this`full, this`book
      ensures Settled() && haveTick && chargeFrom == now && pending == 0.0 && Transient() == 0.0
      ensures full == FullLog([], 0) && book == Book(0.0, now, []) && cumSlew == 0.0
    {
      hide LedgerOk, LogState;
      StartLedger(0.0, now);
      EmptyLogState(now);
      var _ := Elapsed(now);
      // What the kernel still runs is not counted as a transient from here on, with nothing left to debit.
      appliedBase := applied;
      slewLog, cumSlew, full := [], 0.0, FullLog([], 0);
      pending, book := 0.0, Book(0.0, now, []);
      assert Transient() == 0.0;
    }

    function Mu(now: real): real
      reads this
    {
      if updates > 0 then now - last.time else 0.0
    }

    /**
     Feeds the loop a system offset.  A refused, deferred or ignored offset changes nothing at
     all; an accepted one replaces the residual and starts a new ledger.
     */
    method Update(offset: real, poll: int, now: real, synced: bool, mayStep: bool) returns (d: Decision, actions: seq<Action>)
      requires Valid() && Follows(now)
      modifies this
      ensures Valid()
      ensures d == Decide(cfg, old(updates), offset, old(IsSpike(jitterSq, last.offset, offset, Mu(now), poll)), synced, mayStep)
      ensures d.Refused? || d.Deferred? || d.Ignored? ==> unchanged(this) && actions == []
      ensures d.Stepped? ==> mayStep
      ensures d.Stepped? || d.Accepted? ==> forall t :: Mu(t) == t - now
      ensures d.Stepped? ==>
        && steps == old(steps) + 1 && updates == old(updates) + 1 && freq == old(freq) && freqKnown == old(freqKnown)
        && pending == 0.0 && Transient() == 0.0 && full.points == [] && actions == [StepClock(offset), ResetFilters]
        && last == Previous(now, 0.0, true) && window == Window(now, 0.0, 0.0)
        && haveTick && chargeFrom == now
      ensures d.Accepted? ==>
        && steps == old(steps) && updates == old(updates) + 1 && actions == []
        && pending == offset && book == Book(offset, now, []) && haveTick && chargeFrom == now
        && Transient() == old(Transient()) && tau == cfg.timeConstant * Pow2(poll)
        && (freq, freqKnown) == old(NextFreq(cfg, freq, freqKnown, updates, window, offset,
                                             Mu(now), cfg.timeConstant * Pow2(poll), now))
        && jitterSq == old(NextJitterSq(cfg, jitterSq, updates, last, offset)) && last == Previous(now, offset, false)
        && old(Onset(now, offset, updates, window, cumSlew, slewBase)) == (window.time, window.offset, slewBase)
    {
      hide LedgerOk, LogState, NextFreq, NextJitterSq, IsSpike, Pow2;
      actions := [];
      if Abs(offset) > cfg.panic {
        if !(updates == 0 && cfg.panicAtStartup) || !StepAllowed(cfg, updates) {
          return Refused, [];
        }
        if !mayStep { return Deferred, []; }
        actions := Step(offset, now);
        return Stepped, actions;
      }
      if Abs(offset) > cfg.stepThreshold && StepAllowed(cfg, updates) {
        if !mayStep { return Deferred, []; }
        actions := Step(offset, now);
        return Stepped, actions;
      }
      var mu := Mu(now);
      var next := TimeConstantFor(poll);
      if synced && updates > 0 && IsSpike(jitterSq, last.offset, offset, mu, poll) {
        return Ignored, [];
      }
      Adopt(offset, mu, next, now);
      d := Accepted;
    }

    method TimeConstantFor(poll: int) returns (t: real)
      requires Valid()
      ensures t == cfg.timeConstant * Pow2(poll) && t > 0.0
    {
      t := cfg.timeConstant * Pow2(poll);
    }

    /** The accepted branch of an update. */
    method Adopt(offset: real, mu: real, next: real, now: real)
      requires Valid() && Follows(now) && next > 0.0
      modifies this
      ensures Valid() && steps == old(steps) && updates == old(updates) + 1
      ensures pending == offset && book == Book(offset, now, []) && haveTick && chargeFrom == now
      ensures Transient() == old(Transient()) && tau == next
      ensures (freq, freqKnown) == old(NextFreq(cfg, freq, freqKnown, updates, window, offset, mu, next, now))
      ensures jitterSq == old(NextJitterSq(cfg, jitterSq, updates, last, offset)) && last == Previous(now, offset, false)
      ensures old(Onset(now, offset, updates, window, cumSlew, slewBase)) == (window.time, window.offset, slewBase)
    {
      hide LedgerOk, LogState, NextFreq, NextJitterSq, Within, Abs;
      Learn(offset, mu, next, now);
      // The interval up to now still belongs to the residual that is about to go.
      var _ := ChargeApplied(now);
      Restart(offset, next, now);
    }

    method Restart(offset: real, next: real, now: real)
      requires Valid() && haveTick && chargeFrom == now && next > 0.0
      modifies this`pending, this`last, this`tau, this`updates, this`book
      ensures Valid() && updates == old(updates) + 1 && tau == next && pending == offset
      ensures book == Book(offset, now, []) && last == Previous(now, offset, old(last).skipJitter)
    {
      hide LedgerOk, LogState;
      StartLedger(offset, now);
      pending := offset;
      last, tau, updates := last.(time := now, offset := offset), next, updates + 1;
      book := Book(offset, now, []);
    }

    /** Jitter and frequency learn from an accepted offset. */
    method Learn(offset: real, mu: real, next: real, now: real)
      requires Valid() && next > 0.0
      modifies this`jitterSq, this`last, this`freq, this`freqKnown, this`window, this`slewBase
      ensures Valid() && last == old(last).(skipJitter := false)
      ensures old(Onset(now, offset, updates, window, cumSlew, slewBase)) == (window.time, window.offset, slewBase)
      ensures (freq, freqKnown) == old(NextFreq(cfg, freq, freqKnown, updates, window, offset, mu, next, now))
      ensures jitterSq == old(NextJitterSq(cfg, jitterSq, updates, last, offset))
    {
      hide LedgerOk, LogState, NextFreq, NextJitterSq;
      jitterSq := NextJitterSq(cfg, jitterSq, updates, last, offset);
      if updates > 0 { last := last.(skipJitter := false); }
      var f := NextFreq(cfg, freq, freqKnown, updates, window, offset, mu, next, now);
      freq, freqKnown := f.0, f.1;
      if updates == 0 {
        window, slewBase := Window(now, offset, 0.0), cumSlew;
      }
    }

    /** The pruned log still answers for time t. */
    ghost predicate Retained(t: real)
      reads this
    {
      full.dropped == 0 || t >= chargeFrom - SLEW_LOG_SPAN
    }

    method CumulativeAt(t: real) returns (r: real)
      requires Valid()
      ensures Retained(t) ==> r == AppliedAt(full.points, t)
    {
      r := CumulativeSlew(slewLog, Transient(), t, full.points, full.dropped);
    }

    /**
     How much of an offset observed at `at` has been corrected by `now`: the answer a linear scan
     of every accounting point would give, which without stalls is the integral of the transient.
     */
    method AppliedSince(at: real, now: real) returns (r: real)
      requires Valid()
      ensures now <= at ==> r == 0.0
      ensures now > at && Retained(at) ==> r == AppliedAt(full.points, now) - AppliedAt(full.points, at)
      ensures now > at && Retained(at) && NoStalls(full.points) ==>
        r == Integral(full.points, now) - Integral(full.points, at)
    {
      if now <= at { return 0.0; }
      var x := CumulativeAt(now);
      var y := CumulativeAt(at);
      r := x - y;
      if NoStalls(full.points) {
        AppliedIsIntegral(full.points, now);
        AppliedIsIntegral(full.points, at);
      }
    }
  }

  /**
   In every state the loop can reach after its first accounting point, the residual is the
   accepted offset less the transients that ran since, interval by interval without gap or
   overlap, up to one snap per interval.
   */
  lemma {:induction false} ResidualIsAccounted(l: Loop)
    requires l.Valid() && l.haveTick
    ensures Tiles(l.book.ledger, l.book.since, l.chargeFrom)
    ensures Abs(l.pending - (l.book.accepted - Moved(l.book.ledger))) <= SNAP * |l.book.ledger| as real
  {
    SnappedIsSmall(l.book.ledger);
  }

  lemma OneMore(n: nat, share: real)
    ensures Worked(n + 1, share) == Worked(n, share) + share && Worked(0, share) == 0.0
  {
  }

  lemma {:induction false} DrainStep(cfg: LoopConfig, freq: real, p: real, tau: real, rate: real, dt: real, step: real, snap: real, next: real)
    requires tau >= 2.0 && cfg.maxSlewPPM >= 0.0 && -MAX_FREQUENCY <= freq <= MAX_FREQUENCY && 0.0 <= step <= dt <= MAX_TICK_INTERVAL
    requires Within(rate, p) && rate == (if p == 0.0 then 0.0 else Issued(cfg, freq, p, tau))
    requires next == p - Run(rate, dt) - snap && (snap != 0.0 ==> next == 0.0)
    ensures if Abs(p) < TINY then Abs(next) < TINY else Abs(next) <= Abs(p) - Share(cfg, freq, tau, step)
  {
    hide Issued, Pace, Within;
    if Abs(p) < TINY {
      DebitShrinks(p, rate, dt, Run(rate, dt), snap);
    } else {
      IssuedKeepsPace(cfg, freq, p, tau);
      IntervalDrains(p, tau, rate, Pace(cfg, freq, tau), dt, step, Run(rate, dt), snap);
    }
  }

  lemma ZeroProduct(rate: real, dt: real, have: bool, moved: real)
    requires dt >= 0.0 && (!have ==> rate == 0.0) && (have && dt > 0.0 && rate != 0.0 ==> moved == rate * dt)
    requires moved == 0.0
    ensures rate * dt == moved
  {
    if rate == 0.0 || dt == 0.0 { assert rate * dt == 0.0; }
  }

  lemma StartLedger(offset: real, now: real)
    ensures LedgerOk([], offset, now, now, offset)
  {
  }

  lemma EmptyLogState(now: real)
    ensures LogState([], [], 0, 0.0, now, 0.0)
  {
  }

  lemma StartLog(log: seq<Point>, kept: seq<SlewPoint>)
    requires log == [] && kept == []
    ensures LogOk(log) && Prunes(kept, log, 0)
  {
  }

  lemma {:induction false} ExtendLog(log: seq<Point>, cum: real, from: real, rate: real, now: real, moved: real)
    requires LogOk(log) && now >= from && moved == Run(rate, now - from)
    requires log != [] ==> log[|log| - 1] == Point(from, cum, rate)
    requires log == [] ==> cum == 0.0 && rate == 0.0
    ensures log != [] ==> Linked(log[|log| - 1], Point(now, cum + moved, rate))
    ensures log == [] ==> cum + moved == 0.0
  {
    if rate == 0.0 { assert moved == 0.0; }
  }

  lemma {:induction false} PrunesIgnoresRate(kept: seq<SlewPoint>, log: seq<Point>, dropped: nat, rate: real)
    requires Prunes(kept, log, dropped) && log != []
    ensures Prunes(kept, log[|log| - 1 := log[|log| - 1].(rate := rate)], dropped)
  {
  }
}
