/**
 The history of phase the loop has applied: a log of accounting points between which the
 transient is constant.  The daemon keeps a pruned log and searches it by bisection; here are
 the full log, the linear scan that defines its meaning, and the integral both stand for.
 */
module SlewLog {
  import opened Basics

  const MAX_TICK_INTERVAL: real := 2.0
  const SLEW_LOG_SPAN: real := 4096.0

  /** What the daemon records. */
  datatype SlewPoint = SlewPoint(at: real, cum: real)

  /** The same, with the transient in force from this point to the next. */
  datatype Point = Point(at: real, cum: real, rate: real)

  /** The seconds charged for an interval of length d. */
  function Charge(d: real): real {
    if d < 0.0 then 0.0 else if d > MAX_TICK_INTERVAL then MAX_TICK_INTERVAL else d
  }

  /** The phase charged to a transient that ran for an interval of length d. */
  ghost function Run(rate: real, d: real): real {
    rate * Charge(d)
  }

  ghost predicate Linked(p: Point, q: Point) {
    p.at <= q.at && q.cum == p.cum + Run(p.rate, q.at - p.at)
  }

  ghost predicate LogOk(log: seq<Point>) {
    && (log != [] ==> log[0].cum == 0.0)
    && (forall i :: 0 <= i < |log| - 1 ==> Linked(log[i], log[i + 1]))
    && forall i, j :: 0 <= i <= j < |log| ==> log[i].at <= log[j].at
  }

  function Interpolate(a: real, acum: real, b: real, bcum: real, t: real): real
    requires a < b
  {
    acum + (bcum - acum) * (t - a) / (b - a)
  }

  /** The last point at or before t, found by walking the log from its start. */
  ghost function Scan(log: seq<Point>, t: real): real
    requires log != [] && log[0].at <= t
    requires forall i, j :: 0 <= i <= j < |log| ==> log[i].at <= log[j].at
  {
    if |log| == 1 then log[0].cum + log[0].rate * (t - log[0].at)
    else if log[1].at <= t then Scan(log[1..], t)
    else Interpolate(log[0].at, log[0].cum, log[1].at, log[1].cum, t)
  }

  /** The phase applied up to time t, by a linear scan of every point since the last step. */
  ghost function AppliedAt(log: seq<Point>, t: real): real
    requires LogOk(log)
  {
    if log == [] || t <= log[0].at then 0.0 else Scan(log, t)
  }

  /** k is the last point at or before t. */
  ghost predicate At(log: seq<Point>, k: nat, t: real) {
    k < |log| && log[k].at <= t && (k + 1 < |log| ==> t < log[k + 1].at)
  }

  ghost function ValueAt(log: seq<Point>, k: nat, t: real): real
    requires At(log, k, t)
  {
    if k + 1 == |log| then log[k].cum + log[k].rate * (t - log[k].at)
    else Interpolate(log[k].at, log[k].cum, log[k + 1].at, log[k + 1].cum, t)
  }

  lemma {:induction false} ScanIsValueAt(log: seq<Point>, k: nat, t: real)
    requires At(log, k, t) && log[0].at <= t
    requires forall i, j :: 0 <= i <= j < |log| ==> log[i].at <= log[j].at
    ensures Scan(log, t) == ValueAt(log, k, t)
  {
    hide Interpolate;
    if k > 0 {
      var rest := log[1..];
      assert rest[0].at <= log[k].at <= t;
      assert At(rest, k - 1, t);
      ScanIsValueAt(rest, k - 1, t);
      assert ValueAt(rest, k - 1, t) == ValueAt(log, k, t);
    }
  }

  /** Points that share a time share the phase. */
  lemma {:induction false} EqualTimes(log: seq<Point>, i: nat, j: nat)
    requires LogOk(log) && i <= j < |log| && log[i].at == log[j].at
    ensures log[i].cum == log[j].cum
  {
    if i < j {
      assert log[i].at <= log[j - 1].at <= log[j].at;
      EqualTimes(log, i, j - 1);
      assert Linked(log[j - 1], log[j - 1 + 1]);
    }
  }

  /** From its first point on, the scan's answer is that of the segment around t. */
  lemma {:induction false} AppliedIsValueAt(log: seq<Point>, k: nat, t: real)
    requires LogOk(log) && At(log, k, t) && log[0].at <= t
    ensures AppliedAt(log, t) == ValueAt(log, k, t)
  {
    if log[0].at < t {
      ScanIsValueAt(log, k, t);
    } else {
      EqualTimes(log, 0, k);
    }
  }

  /** The pruned log is the tail of the full one from `dropped` on. */
  ghost predicate Prunes(kept: seq<SlewPoint>, log: seq<Point>, dropped: nat) {
    && dropped + |kept| == |log|
    && forall i :: 0 <= i < |kept| ==> kept[i] == SlewPoint(log[dropped + i].at, log[dropped + i].cum)
  }

  /** The segment from the k-th kept point has t in it, and the value r there. */
  ghost predicate OnSegment(kept: seq<SlewPoint>, k: nat, t: real, r: real) {
    && k + 1 < |kept| && kept[k].at <= t < kept[k + 1].at
    && r == Interpolate(kept[k].at, kept[k].cum, kept[k + 1].at, kept[k + 1].cum, t)
  }

  /** Bisection over the kept points: the value at t, for t strictly between the first and last. */
  method Bisect(kept: seq<SlewPoint>, t: real) returns (r: real)
    requires |kept| >= 2 && kept[0].at < t < kept[|kept| - 1].at
    ensures exists k: nat :: OnSegment(kept, k, t, r)
  {
    var lo, hi := 0, |kept| - 1;
    while lo + 1 < hi
      invariant 0 <= lo < hi < |kept| && kept[lo].at <= t < kept[hi].at
    {
      var mid := (lo + hi) / 2;
      if kept[mid].at <= t { lo := mid; } else { hi := mid; }
    }
    var a, b := kept[lo], kept[hi];
    r := Interpolate(a.at, a.cum, b.at, b.cum, t);
    assert OnSegment(kept, lo, t, r);
  }

  /**
   The daemon's answer to "how much had been applied at t", where `tail` is the transient in
   force now.
   */
  method CumulativeSlew(kept: seq<SlewPoint>, tail: real, t: real, ghost log: seq<Point>, ghost dropped: nat) returns (r: real)
    requires LogOk(log) && Prunes(kept, log, dropped)
    requires log != [] ==> kept != [] && tail == log[|log| - 1].rate
    ensures dropped == 0 || t >= kept[0].at ==> r == AppliedAt(log, t)
  {
    hide LogOk, AppliedAt, ValueAt, Interpolate;
    if kept == [] {
      EmptyLog(log, t);
      return 0.0;
    }
    var first, last := kept[0], kept[|kept| - 1];
    assert last == SlewPoint(log[|log| - 1].at, log[|log| - 1].cum);
    if t <= first.at {
      AtOrBeforeFirst(log, dropped, t);
      return first.cum;
    }
    if t >= last.at {
      AfterLast(log, t);
      return last.cum + tail * (t - last.at);
    }
    r := Bisect(kept, t);
    ghost var k: nat :| OnSegment(kept, k, t, r);
    Inside(log, dropped + k, t);
  }

  lemma EmptyLog(log: seq<Point>, t: real)
    requires LogOk(log) && log == []
    ensures AppliedAt(log, t) == 0.0
  {
  }

  lemma {:induction false} AtOrBeforeFirst(log: seq<Point>, d: nat, t: real)
    requires LogOk(log) && d < |log| && t <= log[d].at
    ensures d == 0 || t == log[d].at ==> AppliedAt(log, t) == log[d].cum
  {
    if t == log[d].at {
      var k := LastWithTime(log, d);
      assert log[0].at <= t;
      AppliedIsValueAt(log, k, t);
      EqualTimes(log, d, k);
    }
  }

  /** The last point that shares point d's time. */
  lemma {:induction false} LastWithTime(log: seq<Point>, d: nat) returns (k: nat)
    requires LogOk(log) && d < |log|
    ensures d <= k && At(log, k, log[d].at) && log[k].at == log[d].at
  {
    k := d;
    while k + 1 < |log| && log[k + 1].at == log[d].at
      invariant d <= k < |log| && log[k].at == log[d].at
    {
      k := k + 1;
    }
    assert k + 1 < |log| ==> log[k].at <= log[k + 1].at;
  }

  lemma {:induction false} AfterLast(log: seq<Point>, t: real)
    requires LogOk(log) && log != [] && t >= log[|log| - 1].at
    ensures var p := log[|log| - 1]; AppliedAt(log, t) == p.cum + p.rate * (t - p.at)
  {
    assert log[0].at <= log[|log| - 1].at;
    AppliedIsValueAt(log, |log| - 1, t);
  }

  lemma {:induction false} Inside(log: seq<Point>, k: nat, t: real)
    requires LogOk(log) && k + 1 < |log| && log[k].at <= t < log[k + 1].at
    ensures AppliedAt(log, t) == Interpolate(log[k].at, log[k].cum, log[k + 1].at, log[k + 1].cum, t)
  {
    assert log[0].at <= log[k].at;
    AppliedIsValueAt(log, k, t);
  }

  // ----- the integral

  ghost predicate NoStalls(log: seq<Point>) {
    forall i :: 0 <= i < |log| - 1 ==> log[i + 1].at - log[i].at <= MAX_TICK_INTERVAL
  }

  /** The integral of the recorded transient from the start of the log to t. */
  ghost function Integral(log: seq<Point>, t: real): real {
    if log == [] || t <= log[0].at then 0.0
    else if |log| == 1 then log[0].rate * (t - log[0].at)
    else log[0].rate * (Min(t, log[1].at) - log[0].at) + Integral(log[1..], t)
  }

  lemma {:induction false} ScanIsIntegral(log: seq<Point>, t: real)
    requires log != [] && log[0].at <= t && NoStalls(log)
    requires forall i, j :: 0 <= i <= j < |log| ==> log[i].at <= log[j].at
    requires forall i :: 0 <= i < |log| - 1 ==> Linked(log[i], log[i + 1])
    ensures Scan(log, t) == log[0].cum + Integral(log, t)
  {
    hide Linked, Interpolate, Integral;
    if |log| > 1 {
      var a, b := log[0], log[0 + 1];
      assert Linked(a, b) && b.at - a.at <= MAX_TICK_INTERVAL;
      if b.at <= t {
        TailOk(log);
        ScanIsIntegral(log[1..], t);
        LinkedGap(a, b);
        IntegralBeyond(log, t);
      } else {
        InterpolateRate(a, b, t);
        IntegralWithin(log, t);
      }
    } else {
      IntegralOfOne(log, t);
    }
  }

  lemma IntegralOfOne(log: seq<Point>, t: real)
    requires |log| == 1 && log[0].at <= t
    ensures Integral(log, t) == log[0].rate * (t - log[0].at)
  {
    if t == log[0].at { MulZero(log[0].rate, t - log[0].at); }
  }

  lemma {:induction false} IntegralBeyond(log: seq<Point>, t: real)
    requires |log| > 1 && log[0].at <= log[1].at <= t
    ensures Integral(log, t) == log[0].rate * (log[1].at - log[0].at) + Integral(log[1..], t)
  {
    assert log[1..][0] == log[1];
    if t == log[0].at {
      MulZero(log[0].rate, log[1].at - log[0].at);
    } else {
      assert Min(t, log[1].at) == log[1].at;
    }
  }

  lemma MulZero(r: real, d: real)
    requires d == 0.0
    ensures r * d == 0.0
  {
  }

  lemma {:induction false} IntegralWithin(log: seq<Point>, t: real)
    requires |log| > 1 && log[0].at <= t < log[1].at
    ensures Integral(log, t) == log[0].rate * (t - log[0].at)
  {
    assert log[1..][0] == log[1];
    if t == log[0].at {
      MulZero(log[0].rate, t - log[0].at);
    } else {
      assert Min(t, log[1].at) == t;
    }
  }

  lemma LinkedGap(a: Point, b: Point)
    requires Linked(a, b) && b.at - a.at <= MAX_TICK_INTERVAL
    ensures b.cum == a.cum + a.rate * (b.at - a.at)
  {
  }

  lemma {:induction false} TailOk(log: seq<Point>)
    requires |log| > 1 && NoStalls(log)
    requires forall i, j :: 0 <= i <= j < |log| ==> log[i].at <= log[j].at
    requires forall i :: 0 <= i < |log| - 1 ==> Linked(log[i], log[i + 1])
    ensures var u := log[1..];
      && NoStalls(u) && (forall i, j :: 0 <= i <= j < |u| ==> u[i].at <= u[j].at)
      && forall i :: 0 <= i < |u| - 1 ==> Linked(u[i], u[i + 1])
  {
    var u := log[1..];
    forall i | 0 <= i < |u| - 1 ensures Linked(u[i], u[i + 1]) && u[i + 1].at - u[i].at <= MAX_TICK_INTERVAL {
      assert Linked(log[i + 1], log[i + 1 + 1]);
      assert log[i + 1 + 1].at - log[i + 1].at <= MAX_TICK_INTERVAL;
    }
  }

  lemma InterpolateRate(a: Point, b: Point, t: real)
    requires Linked(a, b) && a.at <= t < b.at && b.at - a.at <= MAX_TICK_INTERVAL
    ensures Interpolate(a.at, a.cum, b.at, b.cum, t) == a.cum + a.rate * (t - a.at)
  {
    var d, x := b.at - a.at, t - a.at;
    assert b.cum - a.cum == a.rate * d;
    MulDiv(a.rate, d, x);
  }

  lemma MulDiv(r: real, d: real, x: real)
    requires d != 0.0
    ensures r * d * x / d == r * x
  {
    assert r * d * x == r * x * d;
  }

  /** With no stall longer than two seconds, the phase applied between two times is the integral of the transient. */
  lemma {:induction false} AppliedIsIntegral(log: seq<Point>, t: real)
    requires LogOk(log) && NoStalls(log)
    ensures AppliedAt(log, t) == Integral(log, t)
  {
    if log != [] && log[0].at < t { ScanIsIntegral(log, t); }
  }
}
