/**
 How the NTP client source keeps each filter sample together with what else the reply to that
 exchange told: a metadata ring beside the clock filter, cleared on some of the
 occasions on which the filter is.
 */
module NtpPoller {
  import opened Basics
  import opened ClockFilter

  /** The per-exchange part of a measurement.  Everything but time and stratum rides along as one value. */
  datatype StageMeta = StageMeta(at: real, stratum: nat, rest: nat)

  /** One accepted reply: the sample it gave the filter, and its metadata. */
  datatype Exchange = Exchange(sample: Sample, meta: StageMeta)

  datatype Report = Report(out: Output, meta: StageMeta)

  ghost predicate ExchangesOk(x: seq<Exchange>) {
    && (forall i :: 0 <= i < |x| ==> x[i].meta.at == x[i].sample.t)
    && forall i, j :: 0 <= i < j < |x| ==> x[i].sample.t < x[j].sample.t
  }

  /** The ring holds the metadata of the last eight exchanges, the j-th in slot j mod 8. */
  ghost predicate MetaHolds(meta: seq<StageMeta>, metaNext: nat, x: seq<Exchange>) {
    && |meta| == (if |x| <= STAGES then |x| else STAGES)
    && metaNext == (if |x| < STAGES then 0 else |x| % STAGES)
    && forall j :: Oldest(|x|) <= j < |x| ==> meta[j % STAGES] == x[j].meta
  }

  /** The filter has seen exactly the latest of the exchanges. */
  ghost predicate SuffixOf(hist: seq<Sample>, x: seq<Exchange>) {
    && |hist| <= |x|
    && forall i :: 0 <= i < |hist| ==> hist[i] == x[|x| - |hist| + i].sample
  }

  lemma {:induction false} MetaPush(meta: seq<StageMeta>, metaNext: nat, x: seq<Exchange>, e: Exchange)
    requires MetaHolds(meta, metaNext, x)
    ensures |meta| < STAGES ==> MetaHolds(meta + [e.meta], metaNext, x + [e])
    ensures |meta| == STAGES ==> MetaHolds(meta[metaNext := e.meta], (metaNext + 1) % STAGES, x + [e])
  {
    var h := |x|;
    NextSlot(h);
    forall j | Oldest(h + 1) <= j < h ensures j % STAGES != h % STAGES {
      SlotsDiffer(j, h);
    }
  }

  /** Whatever the filter still holds, the ring still holds; and no two records share a time. */
  lemma {:induction false} MetaFound(meta: seq<StageMeta>, metaNext: nat, x: seq<Exchange>, hist: seq<Sample>, c: nat)
    requires ExchangesOk(x) && MetaHolds(meta, metaNext, x) && SuffixOf(hist, x)
    requires Oldest(|hist|) <= c < |hist| <= |x|
    ensures var k := |x| - |hist| + c;
      && x[k].sample == hist[c] && x[k].meta in meta && x[k].meta.at == hist[c].t
      && forall v :: v in meta && v.at == hist[c].t ==> v == x[k].meta
  {
    var k := |x| - |hist| + c;
    assert Oldest(|x|) <= k;
    assert meta[k % STAGES] == x[k].meta;
    forall v | v in meta && v.at == hist[c].t ensures v == x[k].meta {
      var i :| 0 <= i < |meta| && meta[i] == v;
      var j := SlotOwner(|x|, i);
      assert j == k;
    }
  }

  class Poller {
    const filter: Filter
    var resetRequested: bool
    var meta: seq<StageMeta>
    var metaNext: nat
    var lastStratum: nat
    var haveStratum: bool
    /** The exchanges since the metadata ring was last cleared. */
    ghost var taken: seq<Exchange>
    /** The times of all reports, across every reset. */
    ghost var reports: seq<real>
    ghost var latest: real

    ghost predicate Valid()
      reads this, filter, filter.stages
    {
      && filter.Valid() && ExchangesOk(taken) && MetaHolds(meta, metaNext, taken)
      && SuffixOf(filter.hist, taken)
      && StrictlyIncreasing(reports) && ReportsOk(filter.hist, filter.epoch, filter.reported, reports, latest)
      && forall i :: 0 <= i < |taken| ==> taken[i].sample.t <= latest
    }

    constructor (precision: real, ghost start: real)
      ensures Valid() && taken == [] && reports == [] && latest == start && fresh(filter) && fresh(filter.stages)
    {
      filter := new Filter(precision);
      resetRequested, meta, metaNext, lastStratum, haveStratum := false, [], 0, 0, false;
      taken, reports, latest := [], [], start;
    }

    /** The engine's request, from another goroutine, to empty the filter before the next sample. */
    method RequestReset()
      requires Valid()
      modifies this`resetRequested
      ensures Valid() && resetRequested
    {
      resetRequested := true;
    }

    /** Talking to another server: nothing of the previous one stays. */
    method ResetEndpointState()
      requires Valid()
      modifies this`meta, this`metaNext, this`haveStratum, this`taken, filter, filter.stages
      ensures Valid() && taken == [] && filter.hist == [] && filter.epoch == 0.0
      ensures meta == [] && metaNext == 0 && !haveStratum
    {
      meta, metaNext := [], 0;
      haveStratum := false;
      filter.Reset();
      taken := [];
    }

    method NoteMeta(m: StageMeta, ghost e: Exchange)
      requires MetaHolds(meta, metaNext, taken) && e.meta == m
      modifies this`meta, this`metaNext, this`taken
      ensures taken == old(taken) + [e] && MetaHolds(meta, metaNext, taken)
    {
      MetaPush(meta, metaNext, taken, e);
      taken := taken + [e];
      if |meta| < STAGES {
        meta := meta + [m];
        return;
      }
      meta := meta[metaNext := m];
      metaNext := (metaNext + 1) % STAGES;
    }

    method MetaAt(t: real) returns (r: Option<StageMeta>)
      ensures r.None? ==> forall v :: v in meta ==> v.at != t
      ensures r.Some? ==> r.value in meta && r.value.at == t
    {
      for i := 0 to |meta|
        invariant forall j :: 0 <= j < i ==> meta[j].at != t
      {
        if meta[i].at == t {
          return Some(meta[i]);
        }
      }
      r := None;
    }

    /**
     A usable reply: run it through the filter and, when that yields a new estimate, report it
     with the metadata of the exchange `from` that the estimate rests on.
     */
    method Hit(s: Sample, m: StageMeta) returns (r: Option<Report>, ghost from: nat, ghost out: Output, ghost order: seq<nat>)
      requires Valid() && m.at == s.t > latest
      modifies this, filter, filter.stages
      ensures Valid() && latest == s.t
      ensures var anew := old(haveStratum) && m.stratum != old(lastStratum);
        && taken == (if anew then [] else old(taken)) + [Exchange(s, m)]
        && filter.hist == (if anew || old(resetRequested) then [] else old(filter.hist)) + [s]
      ensures !resetRequested && haveStratum && lastStratum == m.stratum
      ensures r.Some? ==>
        && from < |taken| && r.value.meta == taken[from].meta
        && r.value.out.offset == taken[from].sample.offset && r.value.out.delay == taken[from].sample.delay
        && r.value.out.at == taken[from].sample.t
      ensures reports == old(reports) + if r.Some? then [r.value.out.at] else []
      ensures filter.EstimateOf(out, order, s.t) && (r.Some? ==> r.value.out == out)
      ensures var reset := old(resetRequested) || (old(haveStratum) && m.stratum != old(lastStratum));
        r.Some? <==> out.samples > 0 && out.at > if reset then 0.0 else old(filter.epoch)
    {
      hide Holds, InOrder, StrictlyIncreasing, MetaHolds, SuffixOf, ExchangesOk, ReportsOk, Ranks, EstimateOk;
      Prepare(m.stratum);
      var est, updated;
      ghost var chosen;
      est, updated, chosen, order := Enter(s, m);
      r, from, out := None, 0, est;
      if updated {
        var found;
        found, from := Lookup(est, chosen, m);
        r := Some(Report(est, found));
      }
    }

    /** The metadata of the exchange behind an estimate.  A miss cannot happen; the latest packet's would be the fallback. */
    method Lookup(out: Output, ghost chosen: nat, m: StageMeta) returns (found: StageMeta, ghost from: nat)
      requires Valid() && Oldest(|filter.hist|) <= chosen < |filter.hist|
      requires out.offset == filter.hist[chosen].offset && out.delay == filter.hist[chosen].delay
      requires out.at == filter.hist[chosen].t
      ensures from < |taken| && found == taken[from].meta && out.at == taken[from].sample.t
      ensures out.offset == taken[from].sample.offset && out.delay == taken[from].sample.delay
    {
      hide Holds, InOrder, StrictlyIncreasing, MetaHolds, ExchangesOk, ReportsOk;
      from := |taken| - |filter.hist| + chosen;
      MetaFound(meta, metaNext, taken, filter.hist, chosen);
      var r := MetaAt(out.at);
      found := if r.Some? then r.value else m.(at := out.at);
    }

    /** Records the exchange in the ring and in the filter; `chosen` is the sample an estimate rests on. */
    method Enter(s: Sample, m: StageMeta) returns (out: Output, updated: bool, ghost chosen: nat, ghost order: seq<nat>)
      requires Valid() && m.at == s.t > latest
      modifies this`meta, this`metaNext, this`taken, this`reports, this`latest, filter, filter.stages
      ensures Valid() && latest == s.t && taken == old(taken) + [Exchange(s, m)] && filter.hist == old(filter.hist) + [s]
      ensures updated ==>
        && Oldest(|filter.hist|) <= chosen < |filter.hist|
        && out.offset == filter.hist[chosen].offset && out.delay == filter.hist[chosen].delay
        && out.at == filter.hist[chosen].t
      ensures reports == old(reports) + if updated then [out.at] else []
      ensures filter.EstimateOf(out, order, s.t) && (updated <==> out.samples > 0 && out.at > old(filter.epoch))
    {
      hide Holds, InOrder, StrictlyIncreasing, MetaHolds, SuffixOf, ExchangesOk, ReportsOk, Ranks, EstimateOk;
      ghost var e := Exchange(s, m);
      ExchangesPush(taken, e, latest);
      SuffixPush(filter.hist, taken, s, e);
      FilterIsBehind(filter.hist, filter.update, taken, latest, filter);
      NoteMeta(m, e);
      out, updated, chosen, order := Feed(filter, s);
      if updated {
        reports := reports + [out.at];
        ReportsPush(old(filter.hist), old(filter.epoch), old(filter.reported), old(reports), latest, s, out.at);
      } else {
        ReportsKeep(old(filter.hist), old(filter.epoch), old(filter.reported), old(reports), latest, s);
      }
      latest := s.t;
    }

    /** Empties what a pending reset or a changed stratum invalidates. */
    method Prepare(stratum: nat)
      requires Valid()
      modifies this`resetRequested, this`meta, this`metaNext, this`lastStratum, this`haveStratum, this`taken, filter,
        filter.stages
      ensures Valid() && !resetRequested && haveStratum && lastStratum == stratum
      ensures var anew := old(haveStratum) && stratum != old(lastStratum);
        && taken == (if anew then [] else old(taken))
        && filter.hist == (if anew || old(resetRequested) then [] else old(filter.hist))
        && filter.epoch == (if anew || old(resetRequested) then 0.0 else old(filter.epoch))
    {
      hide Holds, ReportsOk, StrictlyIncreasing, MetaHolds, SuffixOf, ExchangesOk;
      Afresh(filter.hist, filter.epoch, filter.reported, reports, latest, taken);
      if resetRequested {
        resetRequested := false;
        filter.Reset();
      }
      if haveStratum && stratum != lastStratum {
        filter.Reset();
        meta, metaNext := [], 0;
        taken := [];
      }
      lastStratum, haveStratum := stratum, true;
    }
  }

  lemma {:induction false} ExchangesPush(x: seq<Exchange>, e: Exchange, latest: real)
    requires ExchangesOk(x) && e.meta.at == e.sample.t > latest
    requires forall i :: 0 <= i < |x| ==> x[i].sample.t <= latest
    ensures ExchangesOk(x + [e])
  {
  }

  lemma {:induction false} FilterIsBehind(hist: seq<Sample>, update: real, x: seq<Exchange>, latest: real, f: Filter)
    requires SuffixOf(hist, x) && f.Valid() && hist == f.hist && update == f.update
    requires forall i :: 0 <= i < |x| ==> x[i].sample.t <= latest
    ensures hist != [] ==> update <= latest
  {
  }

  lemma {:induction false} ReportsKeep(hist: seq<Sample>, epoch: real, own: seq<real>, reports: seq<real>, latest: real,
                                       s: Sample)
    requires ReportsOk(hist, epoch, own, reports, latest) && s.t > latest
    ensures ReportsOk(hist + [s], epoch, own, reports, s.t)
  {
  }

  /** A new report is later than every earlier one, whichever resets came between. */
  lemma {:induction false} ReportsPush(hist: seq<Sample>, epoch: real, own: seq<real>, reports: seq<real>, latest: real,
                                       s: Sample, at: real)
    requires ReportsOk(hist, epoch, own, reports, latest) && s.t > latest && StrictlyIncreasing(reports)
    requires at <= s.t && (own != [] ==> at > epoch) && exists i :: 0 <= i <= |hist| && at == (hist + [s])[i].t
    ensures StrictlyIncreasing(reports + [at]) && ReportsOk(hist + [s], at, own + [at], reports + [at], s.t)
  {
  }

  lemma {:induction false} SuffixPush(hist: seq<Sample>, x: seq<Exchange>, s: Sample, e: Exchange)
    requires SuffixOf(hist, x) && e.sample == s
    ensures SuffixOf(hist + [s], x + [e])
  {
  }

  /** An emptied filter goes with whatever was taken and reported before. */
  lemma Afresh(hist: seq<Sample>, epoch: real, own: seq<real>, reports: seq<real>, latest: real, x: seq<Exchange>)
    requires ReportsOk(hist, epoch, own, reports, latest)
    ensures ReportsOk([], 0.0, [], reports, latest) && SuffixOf([], x) && SuffixOf([], []) && ExchangesOk([]) && MetaHolds([], 0, [])
  {
  }

  /** The filter's answer to a sample, with the sample it rests on. */
  method Feed(f: Filter, s: Sample) returns (out: Output, updated: bool, ghost chosen: nat, ghost order: seq<nat>)
    requires f.Valid() && (f.hist != [] ==> s.t >= f.update)
    modifies f, f.stages
    ensures f.Valid() && f.hist == old(f.hist) + [s] && f.EstimateOf(out, order, s.t)
    ensures updated <==> out.samples > 0 && out.at > old(f.epoch)
    ensures updated ==>
      && Oldest(|f.hist|) <= chosen < |f.hist|
      && out.offset == f.hist[chosen].offset && out.delay == f.hist[chosen].delay && out.at == f.hist[chosen].t
    ensures updated ==> f.reported == old(f.reported) + [out.at] && f.epoch == out.at
    ensures !updated ==> f.reported == old(f.reported) && f.epoch == old(f.epoch)
  {
    hide Holds, InOrder, StrictlyIncreasing, Ranks, EstimateOk, Advantage, Distance;
    out, updated, order, chosen := f.Add(s);
    if updated {
      Traced(out, order, f, chosen);
    } else {
      assert f.reported == old(f.reported);
    }
  }

  lemma Traced(out: Output, order: seq<nat>, f: Filter, chosen: nat)
    requires f.Valid() && f.n > 0 && Ranks(order, f.stages[..f.n], f.update, f.n)
    requires EstimateOk(out, order, f.stages[..f.n], f.update, f.floor) && out.samples > 0
    requires Oldest(|f.hist|) <= chosen < |f.hist| && f.stages[order[0]] == Aged(f.hist[chosen], f.update)
    ensures out.offset == f.hist[chosen].offset && out.delay == f.hist[chosen].delay && out.at == f.hist[chosen].t
  {
  }

  /** Samples still to be reported are later than every report, unless the filter itself made the last one. */
  ghost predicate ReportsOk(hist: seq<Sample>, epoch: real, own: seq<real>, reports: seq<real>, latest: real) {
    && (forall i :: 0 <= i < |reports| ==> reports[i] <= latest)
    && (own != [] ==> reports != [] && reports[|reports| - 1] == epoch)
    && (own == [] && reports != [] ==> forall i :: 0 <= i < |hist| ==> hist[i].t > reports[|reports| - 1])
  }
}
