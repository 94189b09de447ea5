/**
 The synchronization state machine, over the selection and the loop it drives.  A ghost log of
 what has happened gives its counters their meaning.
 */
module SyncState {
  import opened Basics
  import opened Bytes
  import opened PhaseLoop
  import opened SlewLog
  import Sel = Selection

  datatype State = Unsynced | Settling | Synced | Holdover

  type Name = Sel.Name

  /** A source that has said nothing: no estimate, and none it could be taken to have used or not. */
  function NewPeer(o: Sel.Options): (p: Sel.Peer)
    ensures Sel.EstimateOk(p.est) && !p.valid && p.reach == 0 && p.sinceStep == 0 && p.est.at <= p.usedAt && p.options == o
  {
    Sel.Peer(o, 0, 0, false, 0.0, Sel.Estimate(0.0, 0.0, 0.0, 0.0, 0.0, false, 0, [], [], 0.0, 0.0), 0.0, 0)
  }

  /** What a source reports after each of its events; the estimate counts only when `valid`. */
  datatype Measurement = Measurement(
    source: Name, now: real, reach: nat, poll: int, valid: bool, acquired: bool, invalidate: bool, est: Sel.Estimate)

  predicate IsAcquisition(m: Measurement) {
    m.valid || m.acquired
  }

  ghost predicate MeasurementOk(m: Measurement) {
    m.valid ==> Sel.EstimateOk(m.est)
  }

  /** The selection's outcome by name: no system source, or one with the survivors and the combined offset. */
  datatype Pick = NoSystem | Selected(system: Name, survivors: seq<Name>, offset: real)

  function Named(r: Sel.Outcome, order: seq<Name>): Pick
    requires (forall k :: 0 <= k < |r.survivors| ==> r.survivors[k] < |order|) && (r.choice.Some? ==> r.choice.value.system < |order|)
  {
    if r.choice.None? then NoSystem
    else
      Selected(order[r.choice.value.system],
               seq(|r.survivors|, k requires 0 <= k < |r.survivors| => order[r.survivors[k]]),
               r.choice.value.offset)
  }

  /** Every survivor is a registered source with a current estimate, and the system source is one of them. */
  ghost predicate PickOk(sel: Pick, srcs: map<Name, Sel.Peer>) {
    sel.Selected? ==>
      && sel.system in sel.survivors
      && (forall i :: 0 <= i < |sel.survivors| ==> sel.survivors[i] in srcs && srcs[sel.survivors[i]].valid)
      && forall i, j :: 0 <= i < j < |sel.survivors| ==> sel.survivors[i] != sel.survivors[j]
  }

  // ----- sources

  function ApplyTo(s: Sel.Peer, m: Measurement): Sel.Peer {
    var kept := s.(valid := s.valid && !m.invalidate, reach := m.reach, poll := m.poll);
    if m.valid then kept.(valid := true, sinceStep := s.sinceStep + 1, updated := m.now, est := m.est) else kept
  }

  /** What a source stands at after a measurement: a valid one replaces the estimate, another leaves or withdraws it. */
  ghost predicate Heard(s: Sel.Peer, t: Sel.Peer, m: Measurement) {
    && t.reach == m.reach && t.poll == m.poll && t.options == s.options && t.usedAt == s.usedAt
    && (m.valid ==> t.valid && t.est == m.est && t.updated == m.now && t.sinceStep == s.sinceStep + 1)
    && (!m.valid ==> (t.valid <==> s.valid && !m.invalidate) && t.est == s.est && t.updated == s.updated && t.sinceStep == s.sinceStep)
  }

  function Applied(srcs: map<Name, Sel.Peer>, m: Measurement): map<Name, Sel.Peer> {
    if m.source in srcs then srcs[m.source := ApplyTo(srcs[m.source], m)] else srcs
  }

  /** The system source's observation is used once, and a step discards every estimate. */
  function AfterUse(srcs: map<Name, Sel.Peer>, system: Name, d: Decision): (r: map<Name, Sel.Peer>)
    requires system in srcs
    ensures r.Keys == srcs.Keys && r[system].usedAt == srcs[system].est.at
    ensures forall n :: n in srcs && n != system ==> r[n].usedAt == srcs[n].usedAt
    ensures forall n :: n in srcs ==>
      r[n].est == srcs[n].est && if d.Stepped? then !r[n].valid && r[n].sinceStep == 0 else r[n].valid == srcs[n].valid
  {
    var used := srcs[system := srcs[system].(usedAt := srcs[system].est.at)];
    if d.Stepped? then Invalidated(used) else used
  }

  /** Every estimate discarded, as after a step. */
  function Invalidated(srcs: map<Name, Sel.Peer>): map<Name, Sel.Peer> {
    map n | n in srcs :: srcs[n].(valid := false, sinceStep := 0)
  }

  /** The registration order names every source once, and every stored estimate is sound. */
  ghost predicate Registered(order: seq<Name>, srcs: map<Name, Sel.Peer>) {
    && (forall i, j :: 0 <= i < j < |order| ==> order[i] != order[j])
    && (forall n :: n in order <==> n in srcs)
    && forall n :: n in srcs ==> Sel.EstimateOk(srcs[n].est)
  }

  function Peers(order: seq<Name>, srcs: map<Name, Sel.Peer>): seq<Sel.Peer>
    requires forall i :: 0 <= i < |order| ==> order[i] in srcs
  {
    seq(|order|, i requires 0 <= i < |order| => srcs[order[i]])
  }

  /** The pick is what selection makes of these sources at time now. */
  ghost predicate Chosen(sel: Pick, order: seq<Name>, srcs: map<Name, Sel.Peer>, c: Sel.Context, r: Sel.Outcome) {
    && Registered(order, srcs) && Sel.ContextOk(c) && c.peers == Peers(order, srcs)
    && (exists kept, cands, o :: Sel.Keeps(c, kept, cands, o) && Sel.OutcomeOk(c, r, kept))
    && sel == Named(r, order)
  }

  /** What selection returns has the properties the state machine rests on. */
  lemma {:induction false} ChosenIsOk(sel: Pick, order: seq<Name>, srcs: map<Name, Sel.Peer>, c: Sel.Context, r: Sel.Outcome)
    requires Chosen(sel, order, srcs, c, r)
    ensures PickOk(sel, srcs) && (sel.NoSystem? <==> r.choice.None?)
    ensures sel.Selected? ==> sel.offset == r.choice.value.offset && r.choice.value.system < |order| && sel.system == order[r.choice.value.system]
  {
    hide Sel.ContextOk, Sel.Keeps, Sel.Ranks, Sel.Survives, Sel.Votes, Sel.Mean, Sel.Mass, Sel.Spread;
    if sel.Selected? {
      var kept, cands, o :| Sel.Keeps(c, kept, cands, o) && Sel.OutcomeOk(c, r, kept);
      var s := r.survivors;
      forall i | 0 <= i < |s| ensures sel.survivors[i] in srcs && srcs[sel.survivors[i]].valid {
        assert s[i] in s;
        Sel.SurvivorsAreFit(c, r, kept, s[i]);
      }
      forall i, j | 0 <= i < j < |s| ensures sel.survivors[i] != sel.survivors[j] {
        Sel.SurvivorsDiffer(c, s, i, j);
      }
      var k :| 0 <= k < |s| && s[k] == r.choice.value.system;
      assert sel.survivors[k] == sel.system;
    }
  }

  // ----- what happened

  datatype Happening = ClockStepped | LoopUpdated | SystemAcquired | MeasurementApplied(source: Name)

  datatype Kind = Updates | Acquisitions | Measurements | MeasurementsOf(source: Name)

  predicate Matches(h: Happening, k: Kind) {
    match k
    case Updates => h.LoopUpdated?
    case Acquisitions => h.SystemAcquired?
    case Measurements => h.MeasurementApplied?
    case MeasurementsOf(n) => h == MeasurementApplied(n)
  }

  /** How often k has happened since the last clock step. */
  ghost function Since(log: seq<Happening>, k: Kind): nat {
    if log == [] then 0
    else
      var h := log[|log| - 1];
      if h.ClockStepped? then 0 else Since(log[..|log| - 1], k) + if Matches(h, k) then 1 else 0
  }

  ghost function StepsIn(log: seq<Happening>): nat {
    if log == [] then 0 else StepsIn(log[..|log| - 1]) + if log[|log| - 1].ClockStepped? then 1 else 0
  }

  /** Every step but the first rests on at least two measurements applied since the one before. */
  ghost predicate StepsSpaced(log: seq<Happening>) {
    forall j :: 0 <= j < |log| && log[j].ClockStepped? && StepsIn(log[..j]) > 0 ==> Since(log[..j], Measurements) >= 2
  }

  lemma {:induction false} Push(log: seq<Happening>, h: Happening, k: Kind)
    ensures Since(log + [h], k) == if h.ClockStepped? then 0 else Since(log, k) + if Matches(h, k) then 1 else 0
    ensures StepsIn(log + [h]) == StepsIn(log) + if h.ClockStepped? then 1 else 0
  {
    assert (log + [h])[..|log|] == log;
  }

  lemma {:induction false} SpacedPush(log: seq<Happening>, h: Happening)
    requires StepsSpaced(log) && (h.ClockStepped? && StepsIn(log) > 0 ==> Since(log, Measurements) >= 2)
    ensures StepsSpaced(log + [h])
  {
    var r := log + [h];
    forall j | 0 <= j < |r| && r[j].ClockStepped? && StepsIn(r[..j]) > 0 ensures Since(r[..j], Measurements) >= 2 {
      assert r[..j] == if j < |log| then log[..j] else log;
    }
  }

  /** Two different sources' measurements are different measurements. */
  lemma {:induction false} TwoSources(log: seq<Happening>, a: Name, b: Name)
    requires a != b
    ensures Since(log, MeasurementsOf(a)) + Since(log, MeasurementsOf(b)) <= Since(log, Measurements)
  {
    if log != [] { TwoSources(log[..|log| - 1], a, b); }
  }

  lemma {:induction false} OneSource(log: seq<Happening>, a: Name)
    ensures Since(log, MeasurementsOf(a)) <= Since(log, Measurements)
  {
    if log != [] { OneSource(log[..|log| - 1], a); }
  }

  /** No source claims more measurements since the step than it delivered. */
  ghost predicate SourcesOk(srcs: map<Name, Sel.Peer>, log: seq<Happening>) {
    forall n :: n in srcs ==> srcs[n].sinceStep <= Since(log, MeasurementsOf(n))
  }

  // ----- the state machine's own variables

  /** `entered` is when the present state was entered. */
  datatype Sync = Sync(
    state: State, entered: real, holdoverSince: real, sinceStep: nat, postStepUpdates: nat,
    resyncing: bool, everSynced: bool, offset: real)

  function SetState(y: Sync, to: State, now: real): Sync {
    if y.state == to then y
    else y.(state := to, entered := now, everSynced := y.everSynced || to.Synced?)
  }

  /** Enough has been seen since the last step for the clock to be trusted. */
  ghost predicate Evidence(y: Sync, settleUpdates: nat) {
    y.postStepUpdates >= 1 && y.sinceStep >= settleUpdates
  }

  ghost predicate SyncOk(y: Sync, settleUpdates: nat, log: seq<Happening>) {
    && y.sinceStep == Since(log, Acquisitions) && y.postStepUpdates == Since(log, Updates)
    && (y.state.Synced? || y.state.Holdover? || y.everSynced || y.resyncing ==> Evidence(y, settleUpdates))
    && (y.state.Holdover? ==> y.holdoverSince == y.entered) && (y.state.Synced? ==> y.everSynced)
  }

  /** Losing the system source. */
  function Lose(y: Sync, now: real): Sync {
    if y.state.Synced? || (y.state.Settling? && y.everSynced) then
      SetState(y.(holdoverSince := now), Holdover, now)
    else if y.state.Settling? then SetState(y, Unsynced, now)
    else y
  }

  predicate SettleDone(y: Sync, cfg: Config, lc: LoopConfig, updates: nat, offset: real) {
    && y.postStepUpdates >= 1 && y.sinceStep >= cfg.settleUpdates
    && (!StepAllowed(lc, updates) || Abs(offset) <= lc.stepThreshold)
  }

  /** A system source with nothing new for the loop. */
  function Coast(y: Sync, cfg: Config, lc: LoopConfig, updates: nat, now: real): Sync {
    var y1 := if y.state.Holdover? then SetState(y, Settling, now) else y;
    if y1.state.Settling? && SettleDone(y1, cfg, lc, updates, y1.offset) then SetState(y1, Synced, now) else y1
  }

  function AfterStep(y: Sync, now: real): Sync {
    SetState(y.(offset := 0.0, sinceStep := 0, postStepUpdates := 0, resyncing := false, everSynced := false), Settling, now)
  }

  function AfterUpdate(y: Sync, cfg: Config, lc: LoopConfig, updates: nat, offset: real, now: real): Sync {
    var y1 := y.(offset := offset, postStepUpdates := y.postStepUpdates + 1);
    if y1.state.Synced? then y1
    else if y1.resyncing || SettleDone(y1, cfg, lc, updates, offset) then SetState(y1.(resyncing := false), Synced, now)
    else SetState(y1, Settling, now)
  }

  datatype Config = Config(holdoverMax: real, settleUpdates: nat, minSurvivors: int, local: set<Bytes>)

  /** The state each decision of the loop leads to, and what it adds to the log. */
  function React(y: Sync, cfg: Config, lc: LoopConfig, updates: nat, d: Decision, offset: real, now: real): Sync {
    match d
    case Deferred => y
    case Ignored => y
    case Refused => SetState(y, Unsynced, now)
    case Stepped => AfterStep(y, now)
    case Accepted => AfterUpdate(y, cfg, lc, updates, offset, now)
  }

  function Trace(d: Decision): seq<Happening> {
    match d
    case Stepped => [ClockStepped]
    case Accepted => [LoopUpdated]
    case _ => []
  }

  lemma LoseKeeps(y: Sync, n: nat, log: seq<Happening>, now: real)
    requires SyncOk(y, n, log)
    ensures SyncOk(Lose(y, now), n, log)
  {
  }

  lemma SyncedBefore(y: Sync, n: nat, log: seq<Happening>)
    requires SyncOk(y, n, log)
    ensures y.state.Synced? ==> y.everSynced
  {
  }

  lemma CoastKeeps(y: Sync, cfg: Config, lc: LoopConfig, updates: nat, log: seq<Happening>, now: real)
    requires SyncOk(y, cfg.settleUpdates, log)
    ensures SyncOk(Coast(y, cfg, lc, updates, now), cfg.settleUpdates, log)
  {
  }

  lemma ReactKeeps(y: Sync, cfg: Config, lc: LoopConfig, updates: nat, d: Decision, offset: real, now: real, log: seq<Happening>)
    requires SyncOk(y, cfg.settleUpdates, log)
    ensures SyncOk(React(y, cfg, lc, updates, d, offset, now), cfg.settleUpdates, log + Trace(d))
  {
    assert log + [] == log;
    if d.Stepped? {
      Push(log, ClockStepped, Acquisitions);
      Push(log, ClockStepped, Updates);
    } else if d.Accepted? {
      Push(log, LoopUpdated, Acquisitions);
      Push(log, LoopUpdated, Updates);
    }
  }

  // ----- what one event may do to the state

  /** Synchronized since the last step, and not refused or expired since. */
  predicate Proven(y: Sync) {
    y.state.Synced? || y.state.Holdover? || (y.state.Settling? && y.everSynced)
  }

  /** When there is nobody to follow, a proven clock is held over and any other is unsynchronized. */
  ghost predicate LeftAlone(y: Sync, z: Sync) {
    && !z.state.Synced? && !z.state.Settling? && (z.state.Holdover? <==> Proven(y))
  }

  /** With somebody to follow: what a decision of the loop, or none, makes of the state. */
  ghost predicate Led(y: Sync, z: Sync, cfg: Config, lc: LoopConfig, updates: nat, d: Option<Decision>) {
    var settled := z.postStepUpdates > 0 && z.sinceStep >= cfg.settleUpdates && (0 <= lc.stepLimit <= updates || Abs(z.offset) <= lc.stepThreshold);
    && (z.resyncing <==> y.resyncing && d != Some(Stepped) && !(d == Some(Accepted) && !y.state.Synced? && z.state.Synced?))
    && (d == Some(Refused) ==> z.state.Unsynced?)
    && (d == Some(Stepped) ==> z.state.Settling? && !z.everSynced && z.postStepUpdates == 0 && z.sinceStep == 0)
    && (d == Some(Accepted) ==> (if y.state.Synced? || y.resyncing || settled then z.state.Synced? else z.state.Settling?))
    && (d.None? && !y.state.Unsynced? ==> (if y.state.Synced? || settled then z.state.Synced? else z.state.Settling?))
    && (d.None? && y.state.Unsynced? ==> z.state.Unsynced?)
    && (d == Some(Deferred) || d == Some(Ignored) ==> z == y)
  }

  /** The marks a state carries: since when it stands, and whether the clock has been synchronized since its last step. */
  ghost predicate Marked(y: Sync, z: Sync, stepped: bool, now: real) {
    && z.entered == (if z.state == y.state then y.entered else now)
    && (z.everSynced <==> z.state.Synced? || (y.everSynced && !stepped))
  }

  lemma LoseMeans(y: Sync, now: real)
    requires y.state.Synced? ==> y.everSynced
    ensures LeftAlone(y, Lose(y, now)) && Marked(y, Lose(y, now), false, now)
  {
  }

  lemma CoastMeans(y: Sync, cfg: Config, lc: LoopConfig, updates: nat, now: real)
    requires y.state.Synced? ==> y.everSynced
    ensures var z := Coast(y, cfg, lc, updates, now); Led(y, z, cfg, lc, updates, None) && Marked(y, z, false, now)
  {
  }

  lemma ReactMeans(y: Sync, cfg: Config, lc: LoopConfig, updates: nat, d: Decision, offset: real, now: real)
    requires y.state.Synced? ==> y.everSynced
    ensures var z := React(y, cfg, lc, updates, d, offset, now);
      && Led(y, z, cfg, lc, updates, Some(d)) && Marked(y, z, d.Stepped?, now)
      && z.offset == match d { case Accepted => offset case Stepped => 0.0 case _ => y.offset }
  {
  }

  /** A step to a state, for its cause: the system source there is now, if any, and the loop's decision, if any. */
  ghost predicate Lawful(y: Sync, z: Sync, cfg: Config, lc: LoopConfig, updates: nat, system: bool, d: Option<Decision>, now: real) {
    && Marked(y, z, d == Some(Stepped), now)
    && if system then Led(y, z, cfg, lc, updates, d) else d.None? && LeftAlone(y, z)
  }

  /** The same over a whole event, at whose end a tick may give an overlong holdover up. */
  ghost predicate Succeeds(y: Sync, z: Sync, system: bool, d: Option<Decision>, now: real, limit: Option<real>) {
    var expired := limit.Some? && now - (if y.state.Holdover? then y.entered else now) > limit.value;
    && Marked(y, z, d == Some(Stepped), now)
    && (!system ==> !z.state.Synced? && !z.state.Settling? && (z.state.Holdover? <==> Proven(y) && !expired))
    && (z.state.Holdover? ==> Proven(y))
    && (y.state.Synced? && !z.state.Synced? ==> !system || d == Some(Stepped) || d == Some(Refused))
    && (system && d == Some(Refused) ==> z.state.Unsynced?) && (system && d == Some(Stepped) ==> z.state.Settling?)
    && (system && d == Some(Accepted) && (y.state.Synced? || y.resyncing) ==> z.state.Synced?)
  }

  /** The counters have no part in it, and whether the loop is resynchronizing none without a system source. */
  lemma SucceedsAlike(x: Sync, y: Sync, z: Sync, system: bool, d: Option<Decision>, now: real)
    requires Succeeds(y, z, system, d, now, None)
    requires x.state == y.state && x.entered == y.entered && x.everSynced == y.everSynced && (system ==> x.resyncing == y.resyncing)
    ensures Succeeds(x, z, system, d, now, None)
  {
  }

  lemma LawfulSucceeds(y: Sync, m: Sync, cfg: Config, lc: LoopConfig, updates: nat, system: bool, d: Option<Decision>, now: real)
    requires Lawful(y, m, cfg, lc, updates, system, d, now)
    ensures Succeeds(y, m, system, d, now, None)
  {
    match d { case None => case Some(Refused) => case Some(Deferred) => case Some(Stepped) => case Some(Ignored) => case Some(Accepted) => }
  }

  lemma TickSucceeds(y: Sync, m: Sync, z: Sync, cfg: Config, lc: LoopConfig, updates: nat, system: bool, d: Option<Decision>, now: real)
    requires Lawful(y, m, cfg, lc, updates, system, d, now)
    requires z == if m.state.Holdover? && now - m.entered > cfg.holdoverMax then SetState(m, Unsynced, now) else m
    ensures Succeeds(y, z, system, d, now, Some(cfg.holdoverMax))
  {
    match d { case None => case Some(Refused) => case Some(Deferred) => case Some(Stepped) => case Some(Ignored) => case Some(Accepted) => }
  }

  /** A second step rests on two measurements: two of the system source's, or one each of two survivors'. */
  ghost predicate StepEvidence(sel: Pick, srcs: map<Name, Sel.Peer>)
    requires PickOk(sel, srcs) && sel.Selected?
  {
    || srcs[sel.system].sinceStep >= 2
    || exists i, j :: 0 <= i < j < |sel.survivors| && Fresh(sel, srcs, i) && Fresh(sel, srcs, j)
  }

  ghost predicate Fresh(sel: Pick, srcs: map<Name, Sel.Peer>, i: int)
    requires PickOk(sel, srcs) && sel.Selected?
  {
    0 <= i < |sel.survivors| && srcs[sel.survivors[i]].sinceStep >= 1
  }

  lemma {:induction false} EvidenceIsTwo(sel: Pick, srcs: map<Name, Sel.Peer>, log: seq<Happening>)
    requires PickOk(sel, srcs) && sel.Selected? && SourcesOk(srcs, log) && StepEvidence(sel, srcs)
    ensures Since(log, Measurements) >= 2
  {
    if srcs[sel.system].sinceStep >= 2 {
      OneSource(log, sel.system);
    } else {
      var i, j :| 0 <= i < j < |sel.survivors| && Fresh(sel, srcs, i) && Fresh(sel, srcs, j);
      TwoSources(log, sel.survivors[i], sel.survivors[j]);
    }
  }

  /** Whether stepping is open to the loop: it is until a first step, and then again on fresh evidence. */
  method MayStep(steps: nat, sel: Pick, srcs: map<Name, Sel.Peer>) returns (ok: bool)
    requires PickOk(sel, srcs) && sel.Selected?
    ensures ok <==> steps == 0 || StepEvidence(sel, srcs)
  {
    if steps == 0 || srcs[sel.system].sinceStep >= 2 {
      return true;
    }
    var reported := 0;
    ghost var first := -1;
    for i := 0 to |sel.survivors|
      invariant reported == 0 <==> forall k :: 0 <= k < i ==> !Fresh(sel, srcs, k)
      invariant reported >= 1 ==> 0 <= first < i && Fresh(sel, srcs, first)
      invariant reported == 1 ==> forall k :: 0 <= k < i && k != first ==> !Fresh(sel, srcs, k)
      invariant reported >= 2 ==> StepEvidence(sel, srcs)
    {
      if srcs[sel.survivors[i]].sinceStep >= 1 {
        assert Fresh(sel, srcs, i);
        if reported == 0 { first := i; }
        reported := reported + 1;
      }
    }
    ok := reported >= 2;
  }

  class System {
    const cfg: Config
    const loop: Loop
    var sync: Sync
    var sources: map<Name, Sel.Peer>
    var order: seq<Name>
    var sysName: Option<Name>
    ghost var log: seq<Happening>
    ghost var latest: real

    ghost predicate Valid()
      reads this, loop
    {
      && loop.Valid() && (loop.haveTick ==> loop.chargeFrom <= latest)
      && Registered(order, sources)
      && SyncOk(sync, cfg.settleUpdates, log) && SourcesOk(sources, log)
      && StepsSpaced(log) && loop.steps == StepsIn(log)
      && Attended()
    }

    /** A clock is followed, for good or on trial, only while there is a system source. */
    ghost predicate Attended()
      reads this
    {
      sync.state.Synced? || sync.state.Settling? ==> sysName.Some?
    }

    constructor (cfg: Config, lc: LoopConfig, freq: real, known: bool, ghost start: real)
      requires lc.maxSlewPPM >= 0.0 && lc.freqMeasure >= 0.0
      ensures Valid() && fresh(loop) && sync.state.Unsynced? && sources == map[] && log == [] && latest == start
      ensures this.cfg == cfg.(settleUpdates := if cfg.settleUpdates < 1 then 1 else cfg.settleUpdates,
                               minSurvivors := if cfg.minSurvivors < 1 then 1 else cfg.minSurvivors)
    {
      this.cfg := cfg.(settleUpdates := if cfg.settleUpdates < 1 then 1 else cfg.settleUpdates,
                       minSurvivors := if cfg.minSurvivors < 1 then 1 else cfg.minSurvivors);
      loop := new Loop(lc, freq, known);
      sync := Sync(Unsynced, 0.0, 0.0, 0, 0, false, false, 0.0);
      sources, order, sysName, log, latest := map[], [], None, [], start;
    }

    /** Adds a source, or starts a known one over with new options. */
    method AddSource(name: Name, options: Sel.Options)
      requires Valid()
      modifies this`sources, this`order
      ensures Valid() && sources == old(sources)[name := NewPeer(options)]
      ensures order == if name in old(sources) then old(order) else old(order) + [name]
    {
      hide SyncOk, StepsSpaced, Since, StepsIn, LedgerOk, LogState, Sel.EstimateOk;
      if name !in sources { order := order + [name]; }
      sources := sources[name := NewPeer(options)];
    }

    /** The offset of a source as it stands now: less what the loop has corrected since it was observed. */
    ghost predicate Carried(p: Sel.Peer, now: real, x: real)
      reads this, loop
      requires Valid()
    {
      && (!p.valid || now <= p.est.at ==> x == p.est.offset)
      && (p.valid && now > p.est.at && loop.Retained(p.est.at) ==>
            x == p.est.offset - (AppliedAt(loop.full.points, now) - AppliedAt(loop.full.points, p.est.at)))
    }

    /** What selection looks at. */
    ghost predicate Surveyed(c: Sel.Context, now: real)
      reads this, loop
      requires Valid()
    {
      && Sel.ContextOk(c) && c.peers == Peers(order, sources)
      && c.now == now && c.local == cfg.local && c.minSurvivors == cfg.minSurvivors
      && forall i :: 0 <= i < |order| ==> Carried(sources[order[i]], now, c.current[i])
    }

    method Survey(now: real) returns (c: Sel.Context)
      requires Valid()
      ensures Surveyed(c, now)
    {
      hide SyncOk, StepsSpaced, SourcesOk, LedgerOk, LogState, Sel.EstimateOk;
      var current := [];
      for i := 0 to |order|
        invariant |current| == i && forall k :: 0 <= k < i ==> Carried(sources[order[k]], now, current[k])
      {
        assert order[i] in sources;
        var p := sources[order[i]];
        var x := p.est.offset;
        if p.valid {
          var a := loop.AppliedSince(p.est.at, now);
          x := x - a;
        }
        current := current + [x];
      }
      c := Sel.Context(Peers(order, sources), current, now, cfg.local, cfg.minSurvivors);
    }

    method Elect(now: real) returns (sel: Pick, ghost c: Sel.Context, ghost r: Sel.Outcome)
      requires Valid()
      ensures Surveyed(c, now) && Chosen(sel, order, sources, c, r) && PickOk(sel, sources)
    {
      hide SyncOk, StepsSpaced, SourcesOk, LedgerOk, LogState, Carried, Sel.ContextOk, Sel.Listed, Sel.Keeps, Sel.Ranks, Sel.Survives,
        Sel.Votes, Sel.Mean, Sel.Mass, Sel.Spread;
      var ctx := Survey(now);
      var out;
      ghost var kept, cands, o;
      out, kept, cands, o := Sel.Select(ctx);
      c, r := ctx, out;
      sel := Named(out, order);
      ChosenIsOk(sel, order, sources, c, r);
    }

    /**
     Runs the state machine on a fresh selection.  `d` is what the loop decided, if the system
     source had a sample it had not used before.
     */
    method Reselect(now: real) returns (actions: seq<Action>, ghost sel: Pick, ghost d: Option<Decision>)
      requires Valid() && now >= latest
      modifies this`sync, this`sources, this`sysName, this`log, this`latest, loop
      ensures Valid() && latest == now && sources.Keys == old(sources).Keys
      ensures PickOk(sel, old(sources)) && exists c: Sel.Context, r: Sel.Outcome :: old(Surveyed(c, now)) && Chosen(sel, order, old(sources), c, r)
      ensures sysName == if sel.NoSystem? then None else Some(sel.system)
      ensures d.None? ==>
        && log == old(log) && sources == old(sources) && loop.updates == old(loop.updates)
        && sync == (if sel.NoSystem? then Lose(old(sync), now) else Coast(old(sync), cfg, loop.cfg, loop.updates, now))
      ensures d.Some? ==>
        && sel.Selected? && old(sources)[sel.system].est.at > old(sources)[sel.system].usedAt
        && sources == AfterUse(old(sources), sel.system, d.value)
        && log == old(log) + Trace(d.value)
        && sync == React(old(sync), cfg, loop.cfg, loop.updates, d.value, sel.offset, now)
      ensures sel.Selected? && d.None? ==> old(sources)[sel.system].est.at <= old(sources)[sel.system].usedAt
      ensures actions == if d == Some(Stepped) then [StepClock(sel.offset), ResetFilters] else []
      ensures Lawful(old(sync), sync, cfg, loop.cfg, loop.updates, sel.Selected?, d, now)
    {
      hide SyncOk, StepsSpaced, SourcesOk, Since, StepsIn, Lose, Coast, React, Chosen, LedgerOk, LogState, Surveyed;
      var pick;
      ghost var c, r;
      pick, c, r := Elect(now);
      sel := pick;
      actions, d := Follow(now, pick);
      assert old(Surveyed(c, now)) && Chosen(sel, order, old(sources), c, r);
    }

    /** Carries a selection into the state machine. */
    method Follow(now: real, sel: Pick) returns (actions: seq<Action>, ghost d: Option<Decision>)
      requires Valid() && now >= latest && PickOk(sel, sources)
      modifies this`sync, this`sources, this`sysName, this`log, this`latest, loop
      ensures Valid() && latest == now && sources.Keys == old(sources).Keys
      ensures sysName == if sel.NoSystem? then None else Some(sel.system)
      ensures d.None? ==>
        && log == old(log) && sources == old(sources) && loop.updates == old(loop.updates)
        && sync == (if sel.NoSystem? then Lose(old(sync), now) else Coast(old(sync), cfg, loop.cfg, loop.updates, now))
      ensures d.Some? ==>
        && sel.Selected? && old(sources)[sel.system].est.at > old(sources)[sel.system].usedAt
        && sources == AfterUse(old(sources), sel.system, d.value)
        && log == old(log) + Trace(d.value)
        && sync == React(old(sync), cfg, loop.cfg, loop.updates, d.value, sel.offset, now)
      ensures sel.Selected? && d.None? ==> old(sources)[sel.system].est.at <= old(sources)[sel.system].usedAt
      ensures actions == if d == Some(Stepped) then [StepClock(sel.offset), ResetFilters] else []
      ensures Lawful(old(sync), sync, cfg, loop.cfg, loop.updates, sel.Selected?, d, now)
    {
      hide Led, LeftAlone, Marked, SyncOk, StepsSpaced, SourcesOk, Since, StepsIn, Lose, Coast, React, StepEvidence, LedgerOk, LogState,
        Registered, Decide, IsSpike, NextFreq, NextJitterSq, Pow2;
      latest, actions, d := now, [], None;
      SyncedBefore(sync, cfg.settleUpdates, log);
      if sel.NoSystem? {
        sysName := None;
        LoseKeeps(sync, cfg.settleUpdates, log, now);
        LoseMeans(sync, now);
        sync := Lose(sync, now);
        return;
      }
      sysName := Some(sel.system);
      assert sel.system in sources;
      var src := sources[sel.system];
      if src.est.at <= src.usedAt {
        CoastKeeps(sync, cfg, loop.cfg, loop.updates, log, now);
        CoastMeans(sync, cfg, loop.cfg, loop.updates, now);
        sync := Coast(sync, cfg, loop.cfg, loop.updates, now);
        return;
      }
      ghost var dec;
      actions, dec := Consume(now, sel);
      d := Some(dec);
    }

    /** Gives the loop an observation of the system source that it has not had before. */
    method Consume(now: real, sel: Pick) returns (actions: seq<Action>, ghost d: Decision)
      requires Valid() && now == latest && PickOk(sel, sources) && sel.Selected? && sysName.Some?
      modifies this`sync, this`sources, this`log, loop
      ensures Valid() && sources == AfterUse(old(sources), sel.system, d) && log == old(log) + Trace(d)
      ensures sync == React(old(sync), cfg, loop.cfg, loop.updates, d, sel.offset, now)
      ensures Led(old(sync), sync, cfg, loop.cfg, loop.updates, Some(d)) && Marked(old(sync), sync, d.Stepped?, now)
      ensures actions == if d.Stepped? then [StepClock(sel.offset), ResetFilters] else []
    {
      hide Led, LeftAlone, Marked, SyncOk, StepsSpaced, SourcesOk, Since, StepsIn, React, StepEvidence, LedgerOk, LogState, Registered,
        Invalidated, Decide, IsSpike, NextFreq, NextJitterSq, Pow2;
      var may := MayStep(loop.steps, sel, sources);
      if may && loop.steps > 0 { EvidenceIsTwo(sel, sources, log); }
      MarkUsed(sources, order, log, sel.system);
      var src := sources[sel.system];
      sources := sources[sel.system := src.(usedAt := src.est.at)];
      var dec;
      dec, actions := loop.Update(sel.offset, src.poll, now, sync.state.Synced?, may);
      d := dec;
      Record(now, dec, sel.offset);
    }

    /** Carries a decision of the loop into the state machine. */
    method Record(now: real, dec: Decision, offset: real)
      requires SyncOk(sync, cfg.settleUpdates, log) && SourcesOk(sources, log) && StepsSpaced(log)
      requires Registered(order, sources) && loop.steps == StepsIn(log) + if dec.Stepped? then 1 else 0
      requires dec.Stepped? && StepsIn(log) > 0 ==> Since(log, Measurements) >= 2
      modifies this`sync, this`sources, this`log
      ensures SyncOk(sync, cfg.settleUpdates, log) && SourcesOk(sources, log) && StepsSpaced(log)
      ensures Registered(order, sources) && sources == if dec.Stepped? then Invalidated(old(sources)) else old(sources)
      ensures loop.steps == StepsIn(log) && log == old(log) + Trace(dec)
      ensures sync == React(old(sync), cfg, loop.cfg, loop.updates, dec, offset, now)
      ensures Led(old(sync), sync, cfg, loop.cfg, loop.updates, Some(dec)) && Marked(old(sync), sync, dec.Stepped?, now)
    {
      SyncedBefore(sync, cfg.settleUpdates, log);
      hide Led, Marked, SyncOk, StepsSpaced, SourcesOk, React, Registered, Since, StepsIn, Invalidated;
      ReactKeeps(sync, cfg, loop.cfg, loop.updates, dec, offset, now, log);
      ReactMeans(sync, cfg, loop.cfg, loop.updates, dec, offset, now);
      TraceKeeps(sources, log, dec);
      InvalidateKeeps(sources, order, log);
      sync := React(sync, cfg, loop.cfg, loop.updates, dec, offset, now);
      if dec.Stepped? {
        sources := Invalidated(sources);
      }
      log := log + Trace(dec);
    }

    /**
     A measurement, with the two counts it may raise: towards the end of settling, and towards
     being allowed to step again.
     */
    method Update(m: Measurement) returns (actions: seq<Action>, ghost d: Option<Decision>)
      requires Valid() && m.now >= latest && MeasurementOk(m)
      modifies this`sync, this`sources, this`sysName, this`log, this`latest, loop
      ensures Valid() && old(log) <= log && latest >= old(latest) && latest <= m.now
      ensures m.source !in old(sources) ==> unchanged(this, loop) && actions == []
      ensures m.source in old(sources) ==>
        log == old(log) + (if m.valid then [MeasurementApplied(m.source)] else [])
               + (if old(sysName) == Some(m.source) && (m.valid || m.acquired) then [SystemAcquired] else [])
               + (if d.Some? then Trace(d.value) else [])
      ensures Succeeds(old(sync), sync, sysName.Some?, d, m.now, None)
    {
      hide Lawful, Succeeds, SyncOk, StepsSpaced, SourcesOk, Since, StepsIn, Registered, LedgerOk, LogState, Chosen, Surveyed, PickOk,
        Heard, Applied, AfterUse, React, Coast, Lose, Loop.Valid;
      actions, d := [], None;
      if m.source !in sources {
        AtRest(m.now);
        return;
      }
      Note(m);
      ghost var before := log;
      ghost var sel;
      ghost var y := sync;
      actions, sel, d := Reselect(m.now);
      assert d.None? ==> log == before + [];
      LawfulSucceeds(y, sync, cfg, loop.cfg, loop.updates, sysName.Some?, d, m.now);
      SucceedsAlike(old(sync), y, sync, sysName.Some?, d, m.now);
    }

    /** Records a measurement with its source, and counts it if it is the system source's acquisition. */
    method Note(m: Measurement)
      requires Valid() && m.source in sources && MeasurementOk(m)
      modifies this`sources, this`sync, this`log
      ensures Valid() && sources == Applied(old(sources), m) && sources.Keys == old(sources).Keys
      ensures forall n :: n in sources && n != m.source ==> sources[n] == old(sources)[n]
      ensures Heard(old(sources)[m.source], sources[m.source], m)
      ensures var counted := sysName == Some(m.source) && (m.valid || m.acquired);
        && log == old(log) + (if m.valid then [MeasurementApplied(m.source)] else []) + (if counted then [SystemAcquired] else [])
        && sync == old(sync).(sinceStep := old(sync).sinceStep + if counted then 1 else 0)
    {
      hide SyncOk, StepsSpaced, SourcesOk, Since, StepsIn, Registered, LedgerOk, LogState, Loop.Valid;
      ApplyRegistered(order, sources, m);
      ApplyKeeps(sync, cfg.settleUpdates, sources, log, m);
      sources := Applied(sources, m);
      if m.valid { log := log + [MeasurementApplied(m.source)]; }
      if sysName == Some(m.source) && IsAcquisition(m) {
        AcquireKeeps(sync, cfg.settleUpdates, sources, log);
        sync := sync.(sinceStep := sync.sinceStep + 1);
        log := log + [SystemAcquired];
      }
    }

    /** Every estimate is discarded, and with them the system source. */
    method InvalidateSources(now: real) returns (actions: seq<Action>)
      requires Valid() && now >= latest
      modifies this`sync, this`sources, this`sysName, this`log, this`latest, loop
      ensures Valid() && latest == now && log == old(log) && sources == Invalidated(old(sources)) && actions == []
      ensures sysName.None? && sync == Lose(old(sync), now)
      ensures Succeeds(old(sync), sync, false, None, now, None)
    {
      hide Lawful, Succeeds, StepsSpaced, Lose, Since, StepsIn, Registered, LedgerOk, LogState, Chosen, Surveyed;
      InvalidateKeeps(sources, order, log);
      ghost var srcs := sources;
      sources := Invalidated(sources);
      ghost var d, sel;
      actions, sel, d := Reselect(now);
      NothingSurvives(sel, srcs);
      LawfulSucceeds(old(sync), sync, cfg, loop.cfg, loop.updates, false, None, now);
    }

    /** After a leap: estimates are discarded, but not the synchronization they had established. */
    method Resync(now: real) returns (actions: seq<Action>)
      requires Valid() && now >= latest
      modifies this`sync, this`sources, this`sysName, this`log, this`latest, loop
      ensures Valid() && latest == now && log == old(log) && sources == Invalidated(old(sources)) && actions == []
      ensures var y := old(sync);
        sync == Lose(y.(resyncing := y.state.Synced? || y.state.Holdover?), now)
      ensures sysName.None? && Succeeds(old(sync), sync, false, None, now, None)
    {
      hide Lawful, Succeeds, StepsSpaced, Lose, Since, StepsIn, Registered, LedgerOk, LogState, Chosen, Surveyed;
      InvalidateKeeps(sources, order, log);
      ghost var srcs := sources;
      sources := Invalidated(sources);
      sync := sync.(resyncing := sync.state.Synced? || sync.state.Holdover?);
      ghost var y := sync;
      ghost var d, sel;
      actions, sel, d := Reselect(now);
      NothingSurvives(sel, srcs);
      LawfulSucceeds(y, sync, cfg, loop.cfg, loop.updates, false, None, now);
      SucceedsAlike(old(sync), y, sync, false, None, now);
    }

    method RemoveSource(name: Name, now: real) returns (actions: seq<Action>, ghost d: Option<Decision>)
      requires Valid() && now >= latest
      modifies this`sync, this`sources, this`order, this`sysName, this`log, this`latest, loop
      ensures Valid() && old(log) <= log && latest >= old(latest) && latest <= now
      ensures sources.Keys == old(sources).Keys - {name}
      ensures name !in old(sources) ==> unchanged(this, loop)
      ensures forall n :: n in order <==> n in old(order) && n != name
      ensures Succeeds(old(sync), sync, sysName.Some?, d, now, None)
    {
      hide Lawful, Succeeds, SyncOk, StepsSpaced, LedgerOk, LogState, Chosen, Surveyed, PickOk;
      actions, d := [], None;
      if name !in sources {
        AtRest(now);
        return;
      }
      var i := Place(order, name);
      DropRegistered(order, sources, i);
      sources, order := sources - {name}, order[..i] + order[i + 1..];
      ghost var sel;
      actions, sel, d := Reselect(now);
      LawfulSucceeds(old(sync), sync, cfg, loop.cfg, loop.updates, sysName.Some?, d, now);
    }

    /** The per-second work.  It never leaves a holdover standing beyond its limit. */
    method Tick(now: real) returns (actions: seq<Action>, ghost d: Option<Decision>)
      requires Valid() && now >= latest
      modifies this`sync, this`sources, this`sysName, this`log, this`latest, loop
      ensures Valid() && old(log) <= log && latest == now && loop.haveTick && loop.chargeFrom == now
      ensures sync.state.Holdover? ==> now - sync.entered <= cfg.holdoverMax
      ensures Succeeds(old(sync), sync, sysName.Some?, d, now, Some(cfg.holdoverMax))
    {
      hide Lawful, Succeeds, StepsSpaced, SourcesOk, Lose, Coast, React, Since, StepsIn, LedgerOk, LogState, Slew, ClampFreq, PhaseLoop.Within, Abs,
        Registered, Chosen, Surveyed, PickOk;
      ghost var snap, sel;
      var first, second;
      first, sel, d := Reselect(now);
      ghost var m := sync;
      ghost var updates := loop.updates;
      assert loop.Follows(now);
      second, snap := loop.Tick(now);
      actions := second + first;
      if sync.state.Holdover? && now - sync.holdoverSince > cfg.holdoverMax {
        sync := SetState(sync, Unsynced, now);
      }
      TickSucceeds(old(sync), m, sync, cfg, loop.cfg, updates, sysName.Some?, d, now);
    }

    /** Where nothing happens, nothing changes. */
    lemma AtRest(now: real)
      requires Valid()
      ensures Succeeds(sync, sync, sysName.Some?, None, now, None)
    {
    }

    /** One event of a run. */
    method Perform(e: Event) returns (ghost d: Option<Decision>)
      requires Valid() && EventOk(e, latest)
      modifies this, loop
      ensures Valid() && old(log) <= log && old(latest) <= latest <= When(e, old(latest))
      ensures e.Ticked? && sync.state.Holdover? ==> e.now - sync.entered <= cfg.holdoverMax
      ensures Succeeds(old(sync), sync, sysName.Some?, d, When(e, old(latest)), LimitOf(e, cfg))
    {
      hide Succeeds, SyncOk, StepsSpaced, SourcesOk, Since, StepsIn, Registered, LedgerOk, LogState, Lose;
      var actions;
      d := None;
      match e
      case Measured(m) => actions, d := Update(m);
      case Ticked(now) => actions, d := Tick(now);
      case Leaped(now) => actions := Resync(now);
      case Discarded(now) => actions := InvalidateSources(now);
      case Added(name, options) =>
        AddSource(name, options);
        AtRest(latest);
      case Removed(name, now) => actions, d := RemoveSource(name, now);
    }

    /**
     Any run: in whatever order measurements, ticks, leaps and changes of sources come, every
     state it passes through keeps the promises, and every change of state has its cause.
     */
    method Play(events: seq<Event>) returns (ghost seen: seq<Glimpse>)
      requires Valid() && InOrder(events, latest)
      modifies this, loop
      ensures Valid() && |seen| == |events| + 1 && seen[0] == old(Glimpse(latest, sync, sysName.Some?, None, log))
      ensures forall k :: 0 <= k < |events| ==> Passed(seen, events, k, cfg, loop.cfg)
      ensures forall g :: g in seen ==> old(log) <= g.log <= log
    {
      hide SyncOk, StepsSpaced, SourcesOk, Since, StepsIn, Registered, LedgerOk, LogState, GlimpseOk, EventOk, Succeeds;
      seen := [Glimpse(latest, sync, sysName.Some?, None, log)];
      for i := 0 to |events|
        invariant Valid() && InOrder(events[i..], latest) && |seen| == i + 1 && old(log) <= log
        invariant seen[0] == old(Glimpse(latest, sync, sysName.Some?, None, log)) && seen[i].sync == sync && seen[i].at == latest
        invariant forall k :: 0 <= k < i ==> Passed(seen, events, k, cfg, loop.cfg)
        invariant forall g :: g in seen ==> old(log) <= g.log <= log
      {
        ghost var t := latest;
        assert events[i..][0] == events[i] && events[i..][1..] == events[i + 1..];
        ghost var d := Perform(events[i]);
        InOrderEarlier(events[i + 1..], When(events[i], t), latest);
        Seen(events[i], d);
        ghost var g := Glimpse(latest, sync, sysName.Some?, d, log);
        ghost var next := seen + [g];
        forall k | 0 <= k < i ensures Passed(next, events, k, cfg, loop.cfg) {
          assert Passed(seen, events, k, cfg, loop.cfg);
        }
        seen := next;
      }
    }

    lemma Seen(e: Event, d: Option<Decision>)
      requires Valid() && (e.Ticked? && sync.state.Holdover? ==> e.now - sync.entered <= cfg.holdoverMax)
      ensures GlimpseOk(Glimpse(latest, sync, sysName.Some?, d, log), e, cfg, loop.cfg)
    {
      hide StepsSpaced, SourcesOk, Since, StepsIn, Registered, LedgerOk, LogState;
    }
  }

  // ----- runs

  datatype Event =
    | Measured(m: Measurement)
    | Ticked(now: real)
    | Leaped(now: real)
    | Discarded(now: real)
    | Added(name: Name, options: Sel.Options)
    | Removed(name: Name, now: real)

  /** The time of an event; registering a source takes none. */
  function When(e: Event, latest: real): real {
    match e
    case Measured(m) => m.now
    case Ticked(now) => now
    case Leaped(now) => now
    case Discarded(now) => now
    case Added(_, _) => latest
    case Removed(_, now) => now
  }

  ghost predicate EventOk(e: Event, latest: real) {
    When(e, latest) >= latest && (e.Measured? ==> MeasurementOk(e.m))
  }

  /** The engine's processing time never goes back. */
  ghost predicate InOrder(es: seq<Event>, latest: real) {
    es == [] || (EventOk(es[0], latest) && InOrder(es[1..], When(es[0], latest)))
  }

  lemma {:induction false} InOrderEarlier(es: seq<Event>, t: real, u: real)
    requires InOrder(es, t) && u <= t
    ensures InOrder(es, u)
  {
    if es != [] && es[0].Added? { InOrderEarlier(es[1..], t, u); }
  }

  /** After some event: the time, the state, whether there is a system source, the loop's decision, and all that has happened. */
  datatype Glimpse = Glimpse(at: real, sync: Sync, system: bool, decided: Option<Decision>, log: seq<Happening>)

  /** A tick gives an overlong holdover up. */
  function LimitOf(e: Event, cfg: Config): Option<real> {
    if e.Ticked? then Some(cfg.holdoverMax) else None
  }

  /** From one glimpse to the next, by the event between them. */
  ghost predicate Caused(g: Glimpse, h: Glimpse, e: Event, cfg: Config) {
    Succeeds(g.sync, h.sync, h.system, h.decided, When(e, g.at), LimitOf(e, cfg))
  }

  /** The k-th event of a run left the machine in order, and for cause. */
  ghost predicate Passed(seen: seq<Glimpse>, es: seq<Event>, k: nat, cfg: Config, lc: LoopConfig)
    requires k < |es|
  {
    k + 1 < |seen| && GlimpseOk(seen[k + 1], es[k], cfg, lc) && Caused(seen[k], seen[k + 1], es[k], cfg)
  }

  ghost predicate GlimpseOk(g: Glimpse, e: Event, cfg: Config, lc: LoopConfig) {
    && (g.sync.state.Synced? || g.sync.state.Holdover? ==>
          Since(g.log, Updates) >= 1 && Since(g.log, Acquisitions) >= cfg.settleUpdates)
    && (e.Ticked? && g.sync.state.Holdover? ==> e.now - g.sync.entered <= cfg.holdoverMax)
    && (g.sync.state.Synced? || g.sync.state.Settling? ==> g.system)
    && StepsSpaced(g.log) && (lc.stepLimit >= 0 ==> StepsIn(g.log) <= lc.stepLimit)
  }

  /** Without an estimate there is no system source. */
  lemma NothingSurvives(sel: Pick, srcs: map<Name, Sel.Peer>)
    requires PickOk(sel, Invalidated(srcs))
    ensures sel.NoSystem?
  {
  }

  /** Where a name stands. */
  method Place(order: seq<Name>, name: Name) returns (i: nat)
    requires name in order
    ensures i < |order| && order[i] == name
  {
    i := 0;
    while order[i] != name
      invariant i < |order| && name in order[i..]
      decreases |order| - i
    {
      i := i + 1;
    }
  }

  lemma {:induction false} DropRegistered(order: seq<Name>, srcs: map<Name, Sel.Peer>, i: nat)
    requires Registered(order, srcs) && i < |order|
    ensures Registered(order[..i] + order[i + 1..], srcs - {order[i]})
    ensures forall n :: n in order[..i] + order[i + 1..] <==> n in order && n != order[i]
  {
    var r := order[..i] + order[i + 1..];
    forall n | n in order && n != order[i] ensures n in r {
      var j :| 0 <= j < |order| && order[j] == n;
      assert r[if j < i then j else j - 1] == n;
    }
  }

  lemma {:induction false} ApplyRegistered(order: seq<Name>, srcs: map<Name, Sel.Peer>, m: Measurement)
    requires Registered(order, srcs) && m.source in srcs && MeasurementOk(m)
    ensures Registered(order, Applied(srcs, m))
  {
  }

  // ----- results

  /**
   Whatever led there, leap resynchronizations and lost sources included: a clock that is
   served as synchronized or held over has, since its last step, had a loop update that was not
   a step and the configured number of acquisitions from the system source.
   */
  lemma {:induction false} TrustRestsOnEvidence(s: System)
    requires s.Valid() && (s.sync.state.Synced? || s.sync.state.Holdover?)
    ensures Since(s.log, Updates) >= 1 && Since(s.log, Acquisitions) >= s.cfg.settleUpdates
    ensures s.sync.state.Synced? ==> s.sysName.Some?
  {
  }

  ghost function MeasurementsIn(log: seq<Happening>): nat {
    if log == [] then 0 else MeasurementsIn(log[..|log| - 1]) + if log[|log| - 1].MeasurementApplied? then 1 else 0
  }

  lemma {:induction false} SinceWithin(log: seq<Happening>, i: nat, j: nat)
    requires i < j <= |log| && log[i].ClockStepped?
    ensures Since(log[..j], Measurements) <= MeasurementsIn(log[i + 1..j]) && StepsIn(log[..j]) > 0
  {
    assert log[..j][..j - 1] == log[..j - 1];
    if i + 1 < j {
      assert log[i + 1..j][..j - 1 - (i + 1)] == log[i + 1..j - 1];
      SinceWithin(log, i, j - 1);
    }
  }

  /** Between any two clock steps at least two valid measurements were applied. */
  lemma {:induction false} StepsAreApart(s: System, i: nat, j: nat)
    requires s.Valid() && i < j < |s.log| && s.log[i].ClockStepped? && s.log[j].ClockStepped?
    ensures MeasurementsIn(s.log[i + 1..j]) >= 2
  {
    SinceWithin(s.log, i, j);
  }

  /** A non-negative step limit bounds the steps of the whole run, the startup exception included. */
  lemma {:induction false} StepsAreLimited(s: System)
    requires s.Valid() && s.loop.cfg.stepLimit >= 0
    ensures StepsIn(s.log) <= s.loop.cfg.stepLimit
  {
  }

  lemma {:induction false} MarkUsed(srcs: map<Name, Sel.Peer>, order: seq<Name>, log: seq<Happening>, n: Name)
    requires SourcesOk(srcs, log) && Registered(order, srcs) && n in srcs
    ensures var r := srcs[n := srcs[n].(usedAt := srcs[n].est.at)];
      SourcesOk(r, log) && Registered(order, r) && r.Keys == srcs.Keys
  {
  }

  lemma {:induction false} InvalidateKeeps(srcs: map<Name, Sel.Peer>, order: seq<Name>, log: seq<Happening>)
    requires Registered(order, srcs)
    ensures SourcesOk(Invalidated(srcs), log) && Registered(order, Invalidated(srcs)) && Invalidated(srcs).Keys == srcs.Keys
  {
  }

  lemma {:induction false} TraceKeeps(srcs: map<Name, Sel.Peer>, log: seq<Happening>, d: Decision)
    requires SourcesOk(srcs, log) && StepsSpaced(log)
    requires d.Stepped? && StepsIn(log) > 0 ==> Since(log, Measurements) >= 2
    ensures SourcesOk(if d.Stepped? then Invalidated(srcs) else srcs, log + Trace(d)) && StepsSpaced(log + Trace(d))
    ensures StepsIn(log + Trace(d)) == StepsIn(log) + if d.Stepped? then 1 else 0
    ensures Invalidated(srcs).Keys == srcs.Keys
  {
    assert log + [] == log;
    if d.Stepped? || d.Accepted? {
      SpacedPush(log, Trace(d)[0]);
      Push(log, Trace(d)[0], Updates);
      forall n | n in srcs ensures d.Accepted? ==> Since(log + Trace(d), MeasurementsOf(n)) == Since(log, MeasurementsOf(n)) {
        Push(log, Trace(d)[0], MeasurementsOf(n));
      }
    }
  }

  lemma {:induction false} ApplyKeeps(y: Sync, n: nat, srcs: map<Name, Sel.Peer>, log: seq<Happening>, m: Measurement)
    requires SyncOk(y, n, log) && SourcesOk(srcs, log) && StepsSpaced(log) && m.source in srcs
    ensures var r := if m.valid then log + [MeasurementApplied(m.source)] else log;
      && SyncOk(y, n, r) && SourcesOk(Applied(srcs, m), r) && StepsSpaced(r) && StepsIn(r) == StepsIn(log)
  {
    if m.valid {
      var h := MeasurementApplied(m.source);
      Push(log, h, Acquisitions);
      Push(log, h, Updates);
      SpacedPush(log, h);
      forall k | k in srcs
        ensures Since(log + [h], MeasurementsOf(k)) == Since(log, MeasurementsOf(k)) + if k == m.source then 1 else 0
      {
        Push(log, h, MeasurementsOf(k));
      }
    }
  }

  lemma {:induction false} AcquireKeeps(y: Sync, n: nat, srcs: map<Name, Sel.Peer>, log: seq<Happening>)
    requires SyncOk(y, n, log) && SourcesOk(srcs, log) && StepsSpaced(log)
    ensures var r := log + [SystemAcquired];
      && SyncOk(y.(sinceStep := y.sinceStep + 1), n, r) && SourcesOk(srcs, r) && StepsSpaced(r) && StepsIn(r) == StepsIn(log)
  {
    Push(log, SystemAcquired, Acquisitions);
    Push(log, SystemAcquired, Updates);
    SpacedPush(log, SystemAcquired);
    forall k | k in srcs ensures Since(log + [SystemAcquired], MeasurementsOf(k)) == Since(log, MeasurementsOf(k)) {
      Push(log, SystemAcquired, MeasurementsOf(k));
    }
  }
}
