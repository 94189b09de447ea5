/**
 The clock-epoch protocol between the engine and its sources.

 A counter is even while the clock is settled and odd while a discontinuity is executing.
 Every source reads it before and after an exchange, and the engine compares the stamp once
 more when it takes the measurement off its queue.  One engine and any number of sources
 interleave here one atomic action at a time; each clock reading and counter reading is
 remembered by its position in the run, so that the results speak about real order.
 */
module ClockEpoch {

  const FIRST_EPOCH: nat := 2
  const QUEUE_CAPACITY: nat := 64

  /** A settled epoch.  Zero is the sentinel of a source that does not stamp. */
  predicate StableEpoch(g: nat) {
    g != 0 && g % 2 == 0
  }

  type SourceId = nat

  /** `begun` is the position of the first counter reading, `readings` those of T1 and T4. */
  datatype Measurement = Measurement(
    source: SourceId, generation: nat, valid: bool, begun: nat, readings: seq<nat>)

  datatype Client =
    | Resting
    | Exchanging(stamp: nat, begun: nat, readings: seq<nat>)
    | NoEstimate
    | Ready(m: Measurement)

  datatype State = State(
    pos: nat,
    gen: nat,
    changing: bool,
    lastChange: nat,
    lastStep: nat,
    stampers: set<SourceId>,
    stopped: set<SourceId>,
    restarting: set<SourceId>,
    clients: map<SourceId, Client>,
    queue: seq<Measurement>)

  datatype Action =
    | StartChange
    | StepClock
    | FinishChange
    | Consume
    | SourceStopped(id: SourceId, kept: seq<Measurement>)
    | SourceRestarting(id: SourceId)
    | Begin(id: SourceId)
    | Read(id: SourceId)
    | Judge(id: SourceId, updated: bool)
    | Fail(id: SourceId)
    | Reread(id: SourceId)
    | Emit(id: SourceId)
    | Abandon(id: SourceId)

  ghost predicate Init(s: State) {
    && s.pos == 0 && s.gen == FIRST_EPOCH && !s.changing
    && s.lastChange == 0 && s.lastStep == 0
    && s.stopped == {} && s.restarting == {} && s.queue == []
    && forall i :: i in s.clients ==> s.clients[i] == Resting
  }

  /** What a source sees when it reads the counter: zero when it was built without one. */
  function Generation(s: State, id: SourceId): nat {
    if id in s.stampers then s.gen else 0
  }

  /** The second counter reading of a poll: only then does the reply enter the clock filter. */
  predicate Acquired(s: State, id: SourceId, stamp: nat) {
    var now := Generation(s, id);
    now == stamp && (now == 0 || StableEpoch(now))
  }

  predicate Enabled(s: State, a: Action) {
    match a
    case StartChange => !s.changing
    case StepClock => s.changing
    case FinishChange => s.changing
    case Consume => !s.changing && s.queue != []
    case SourceStopped(id, kept) =>
      !s.changing && forall m :: m in kept ==> m in s.queue && m.source != id
    case SourceRestarting(id) => !s.changing
    case Begin(id) => id in s.clients && s.clients[id].Resting?
    case Read(id) => id in s.clients && s.clients[id].Exchanging?
    case Judge(id, _) => id in s.clients && s.clients[id].Exchanging? && |s.clients[id].readings| >= 2
    case Fail(id) => id in s.clients && (s.clients[id].Resting? || s.clients[id].Exchanging?)
    case Reread(id) => id in s.clients && s.clients[id].NoEstimate?
    case Emit(id) => id in s.clients && s.clients[id].Ready? && |s.queue| < QUEUE_CAPACITY
    case Abandon(id) => id in s.clients
  }

  /** Nothing legitimate can come from a source between its stop and its restart. */
  predicate Blocked(s: State, id: SourceId) {
    id in s.stopped && id !in s.restarting
  }

  /** The engine's admission test, applied to the head of the queue. */
  predicate Stale(s: State, m: Measurement) {
    Blocked(s, m.source) || (m.generation != 0 && !(m.generation == s.gen && StableEpoch(s.gen)))
  }

  function Next(s: State, a: Action): State
    requires Enabled(s, a)
  {
    var t := s.(pos := s.pos + 1);
    match a
    case StartChange => t.(gen := s.gen + 1, changing := true, lastChange := s.pos + 1)
    case StepClock => t.(lastStep := s.pos + 1)
    case FinishChange => t.(gen := s.gen + 1, changing := false)
    case Consume =>
      // The first measurement admitted after a restart clears the record of the stop.
      var m := s.queue[0];
      var u := t.(queue := s.queue[1..]);
      if !Stale(s, m) && m.source in s.restarting
      then u.(stopped := s.stopped - {m.source}, restarting := s.restarting - {m.source}) else u
    case SourceStopped(id, kept) => t.(stopped := s.stopped + {id}, queue := kept)
    case SourceRestarting(id) => t.(restarting := s.restarting + {id})
    case Begin(id) => t.(clients := s.clients[id := Exchanging(Generation(s, id), s.pos, [])])
    case Read(id) =>
      var c := s.clients[id];
      t.(clients := s.clients[id := c.(readings := c.readings + [s.pos])])
    case Judge(id, updated) =>
      var c := s.clients[id];
      // A changed or unsettled counter discards the reply; an unchanged filter winner gives no estimate.
      if !Acquired(s, id, c.stamp) || !updated then
        t.(clients := s.clients[id := NoEstimate])
      else
        t.(clients := s.clients[id := Ready(Measurement(id, c.stamp, true, c.begun, c.readings))])
    case Fail(id) => t.(clients := s.clients[id := NoEstimate])
    case Reread(id) =>
      t.(clients := s.clients[id := Ready(Measurement(id, Generation(s, id), false, s.pos, []))])
    case Emit(id) => t.(clients := s.clients[id := Resting], queue := s.queue + [s.clients[id].m])
    case Abandon(id) => t.(clients := s.clients[id := Resting])
  }

  ghost predicate IsRun(states: seq<State>, acts: seq<Action>) {
    && |states| == |acts| + 1
    && Init(states[0])
    && forall k :: 0 <= k < |acts| ==> Enabled(states[k], acts[k]) && states[k + 1] == Next(states[k], acts[k])
  }

  // ----- the inductive invariant

  /** What a stamp read at `begun` is still worth in state s. */
  ghost predicate StampOk(s: State, stamp: nat, begun: nat) {
    && stamp <= s.gen && begun < s.pos
    && (StableEpoch(stamp) ==> (stamp == s.gen <==> s.lastChange <= begun))
    && (StableEpoch(stamp) && stamp == s.gen ==> s.lastStep <= begun)
  }

  ghost predicate ReadingsOk(s: State, begun: nat, readings: seq<nat>) {
    forall k :: 0 <= k < |readings| ==> begun < readings[k] < s.pos
  }

  ghost predicate MeasurementOk(s: State, m: Measurement) {
    m.valid && m.generation != 0 ==>
      && StableEpoch(m.generation) && |m.readings| >= 2
      && StampOk(s, m.generation, m.begun) && ReadingsOk(s, m.begun, m.readings)
  }

  ghost predicate ClientOk(s: State, c: Client) {
    match c
    case Exchanging(stamp, begun, readings) => StampOk(s, stamp, begun) && ReadingsOk(s, begun, readings)
    case Ready(m) => MeasurementOk(s, m)
    case _ => true
  }

  ghost predicate Inv(s: State) {
    && s.gen >= FIRST_EPOCH && (s.changing <==> s.gen % 2 == 1)
    && s.lastChange <= s.pos && s.lastStep <= s.pos
    && (forall i :: i in s.clients ==> ClientOk(s, s.clients[i]))
    && (forall i :: i in s.clients && s.clients[i].Exchanging? ==> (s.clients[i].stamp != 0 <==> i in s.stampers))
    && (forall k :: 0 <= k < |s.queue| ==> MeasurementOk(s, s.queue[k]))
  }

  lemma {:induction false} StampKept(s: State, a: Action, stamp: nat, begun: nat)
    requires Inv(s) && Enabled(s, a) && StampOk(s, stamp, begun)
    ensures StampOk(Next(s, a), stamp, begun)
  {
  }

  lemma {:induction false} MeasurementKept(s: State, a: Action, m: Measurement)
    requires Inv(s) && Enabled(s, a) && MeasurementOk(s, m)
    ensures MeasurementOk(Next(s, a), m)
  {
    if m.valid && m.generation != 0 { StampKept(s, a, m.generation, m.begun); }
  }

  lemma {:induction false} ClientKept(s: State, a: Action, c: Client)
    requires Inv(s) && Enabled(s, a) && ClientOk(s, c)
    ensures ClientOk(Next(s, a), c)
  {
    match c
    case Exchanging(stamp, begun, _) => StampKept(s, a, stamp, begun);
    case Ready(m) => MeasurementKept(s, a, m);
    case _ =>
  }

  /** The client that acts ends in a state that is in order. */
  lemma {:induction false} ActorOk(s: State, a: Action)
    requires Inv(s) && Enabled(s, a)
    requires a.Begin? || a.Read? || a.Judge? || a.Fail? || a.Reread? || a.Emit? || a.Abandon?
    ensures ClientOk(Next(s, a), Next(s, a).clients[a.id])
  {
    ClientKept(s, a, s.clients[a.id]);
  }

  lemma {:induction false} InvStep(s: State, a: Action)
    requires Inv(s) && Enabled(s, a)
    ensures Inv(Next(s, a))
  {
    var t := Next(s, a);
    forall i | i in t.clients ensures ClientOk(t, t.clients[i]) {
      if t.clients[i] == s.clients[i] { ClientKept(s, a, s.clients[i]); } else { ActorOk(s, a); }
    }
    forall k | 0 <= k < |t.queue| ensures MeasurementOk(t, t.queue[k]) {
      if a.Emit? && k == |s.queue| {
        ClientKept(s, a, s.clients[a.id]);
      } else {
        assert t.queue[k] in s.queue;
        MeasurementKept(s, a, t.queue[k]);
      }
    }
  }

  /** Positions of the last change and the last step are what their names say. */
  ghost predicate MarksOk(states: seq<State>, acts: seq<Action>, k: nat)
    requires IsRun(states, acts) && k <= |acts|
  {
    && states[k].pos == k
    && (forall j :: states[k].lastStep <= j < k ==> acts[j] != StepClock)
    && (forall j :: states[k].lastChange <= j < k ==> acts[j] != StartChange)
    && (states[k].lastStep > 0 ==> states[k].lastStep <= k && acts[states[k].lastStep - 1] == StepClock)
    && (states[k].lastChange > 0 ==> states[k].lastChange <= k && acts[states[k].lastChange - 1] == StartChange)
  }

  /** The positions carried by an exchange are those of its source's own actions. */
  ghost predicate Traced(acts: seq<Action>, id: SourceId, begun: nat, readings: seq<nat>) {
    && begun < |acts| && acts[begun] == Begin(id)
    && forall i :: 0 <= i < |readings| ==> readings[i] < |acts| && acts[readings[i]] == Read(id)
  }

  /** No clock reading of the exchange is missing from those it carries. */
  ghost predicate Complete(acts: seq<Action>, id: SourceId, begun: nat, readings: seq<nat>, k: nat) {
    && (forall i, j :: 0 <= i < j < |readings| ==> readings[i] < readings[j])
    && forall j :: begun <= j < k && j < |acts| && acts[j] == Read(id) ==> j in readings
  }

  ghost predicate MeasurementTraced(acts: seq<Action>, m: Measurement) {
    m.valid ==> Traced(acts, m.source, m.begun, m.readings)
  }

  ghost predicate ClientTraced(acts: seq<Action>, id: SourceId, c: Client) {
    match c
    case Exchanging(_, begun, readings) => Traced(acts, id, begun, readings)
    case Ready(m) => MeasurementTraced(acts, m)
    case _ => true
  }

  ghost predicate HistoryOk(s: State, acts: seq<Action>) {
    && (forall id :: id in s.clients ==> ClientTraced(acts, id, s.clients[id]))
    && (forall id :: id in s.clients && s.clients[id].Exchanging? ==>
          Complete(acts, id, s.clients[id].begun, s.clients[id].readings, s.pos))
    && forall k :: 0 <= k < |s.queue| ==> MeasurementTraced(acts, s.queue[k])
  }

  lemma {:induction false} HistoryStep(s: State, acts: seq<Action>)
    requires Inv(s) && s.pos < |acts| && Enabled(s, acts[s.pos]) && HistoryOk(s, acts)
    ensures HistoryOk(Next(s, acts[s.pos]), acts)
  {
    var t := Next(s, acts[s.pos]);
    forall id | id in t.clients && t.clients[id].Exchanging?
      ensures Complete(acts, id, t.clients[id].begun, t.clients[id].readings, t.pos)
    {
      ExchangeComplete(s, acts, id);
    }
    forall k | 0 <= k < |t.queue| ensures MeasurementTraced(acts, t.queue[k]) {
      if !acts[s.pos].Emit? { assert t.queue[k] in s.queue; }
    }
  }

  lemma {:induction false} ExchangeComplete(s: State, acts: seq<Action>, id: SourceId)
    requires Inv(s) && s.pos < |acts| && Enabled(s, acts[s.pos]) && HistoryOk(s, acts)
    requires id in Next(s, acts[s.pos]).clients && Next(s, acts[s.pos]).clients[id].Exchanging?
    ensures var t := Next(s, acts[s.pos]); Complete(acts, id, t.clients[id].begun, t.clients[id].readings, t.pos)
  {
    var c := Next(s, acts[s.pos]).clients[id];
    if acts[s.pos] == Begin(id) {
    } else if acts[s.pos] == Read(id) {
      var was := s.clients[id].readings;
      assert Complete(acts, id, c.begun, was, s.pos);
      assert forall j :: j in was ==> j in c.readings;
      assert c.readings[|was|] == s.pos;
      assert forall i :: 0 <= i < |was| ==> was[i] < s.pos;
    } else {
      assert s.clients[id] == c && Complete(acts, id, c.begun, c.readings, s.pos);
    }
  }

  lemma {:induction false} MarksStep(states: seq<State>, acts: seq<Action>, k: nat)
    requires IsRun(states, acts) && k < |acts| && MarksOk(states, acts, k)
    ensures MarksOk(states, acts, k + 1)
  {
    assert states[k + 1] == Next(states[k], acts[k]);
  }

  lemma {:induction false} RunInv(states: seq<State>, acts: seq<Action>, k: nat)
    requires IsRun(states, acts) && k <= |acts|
    ensures Inv(states[k]) && MarksOk(states, acts, k) && HistoryOk(states[k], acts)
  {
    if k > 0 {
      RunInv(states, acts, k - 1);
      InvStep(states[k - 1], acts[k - 1]);
      HistoryStep(states[k - 1], acts);
      MarksStep(states, acts, k - 1);
      assert states[k] == Next(states[k - 1], acts[k - 1]);
    }
  }

  // ----- results

  /** No discontinuity began, and the clock was not stepped, at any position from i up to k. */
  ghost predicate Undisturbed(acts: seq<Action>, i: nat, k: nat)
    requires k <= |acts|
  {
    forall j :: i <= j < k ==> acts[j] != StepClock && acts[j] != StartChange
  }

  /**
   In every interleaving, a stamped estimate that the engine admits at position k was computed
   from clock readings that all lie after the latest clock step, and no step and no other
   discontinuity came between those readings and its use.
   */
  lemma {:induction false} AdmittedReadingsAreCurrent(states: seq<State>, acts: seq<Action>, k: nat)
    requires IsRun(states, acts) && k < |acts| && acts[k] == Consume
    requires var m := states[k].queue[0]; m.valid && m.generation != 0 && !Stale(states[k], m)
    ensures var m := states[k].queue[0];
      && m.begun < k && acts[m.begun] == Begin(m.source)
      && |m.readings| >= 2
      && (forall r :: r in m.readings ==> m.begun < r < k && acts[r] == Read(m.source))
      && Undisturbed(acts, m.begun, k)
  {
    RunInv(states, acts, k);
  }

  /**
   The same holds already at the second counter reading, for a source that stamps: no reply
   whose exchange met a discontinuity ever enters a clock filter.
   */
  lemma {:induction false} AcquiredReadingsAreCurrent(states: seq<State>, acts: seq<Action>, k: nat)
    requires IsRun(states, acts) && k < |acts| && acts[k].Judge?
    requires states[k].clients[acts[k].id].stamp != 0
    requires Acquired(states[k], acts[k].id, states[k].clients[acts[k].id].stamp)
    ensures var c := states[k].clients[acts[k].id];
      && (forall r :: r in c.readings ==> c.begun < r < k && acts[r] == Read(acts[k].id))
      && Undisturbed(acts, c.begun, k)
  {
    RunInv(states, acts, k);
  }

  /** The exchange that client c of source id holds at position k: all its clock readings, and a settled counter throughout. */
  ghost predicate Sound(acts: seq<Action>, c: Client, k: nat)
    requires c.Exchanging? && k <= |acts|
  {
    StableEpoch(c.stamp) && Undisturbed(acts, c.begun, k)
  }

  /**
   What becomes of an exchange is decided exactly: it yields a valid measurement, with the
   exchange's own stamp and every clock reading taken in it, if and only if it was undisturbed and
   the filter had something new.  A source without a counter goes by the filter alone.
   */
  lemma {:induction false} JudgedExactly(states: seq<State>, acts: seq<Action>, k: nat)
    requires IsRun(states, acts) && k < |acts| && acts[k].Judge?
    ensures var id := acts[k].id; var c, after := states[k].clients[id], states[k + 1].clients[id];
      var good := (id in states[k].stampers ==> Sound(acts, c, k)) && acts[k].updated;
      && after == (if good then Ready(Measurement(id, c.stamp, true, c.begun, c.readings)) else NoEstimate)
      && forall j :: c.begun <= j < k ==> (acts[j] == Read(id) <==> j in c.readings)
  {
    RunInv(states, acts, k);
    assert states[k + 1] == Next(states[k], acts[k]);
    var id, c := acts[k].id, states[k].clients[acts[k].id];
    assert ClientOk(states[k], c) && ClientTraced(acts, id, c) && Complete(acts, id, c.begun, c.readings, states[k].pos);
    if id in states[k].stampers && StableEpoch(c.stamp) && c.stamp != states[k].gen {
      assert acts[states[k].lastChange - 1] == StartChange;
    }
  }

  /** At position j the source's exchange, with just these readings, was turned into m. */
  ghost predicate JudgedAt(states: seq<State>, acts: seq<Action>, m: Measurement, j: nat) {
    && j < |acts| < |states| && acts[j] == Judge(m.source, true)
    && m.source in states[j].clients && states[j].clients[m.source] == Exchanging(m.generation, m.begun, m.readings)
  }

  ghost predicate Judged(states: seq<State>, acts: seq<Action>, m: Measurement, k: nat) {
    m.valid ==> exists j: nat :: j < k && JudgedAt(states, acts, m, j)
  }

  /** Every valid measurement on its way, or in the queue, goes back to such a judgement. */
  lemma {:induction false} ValidWasJudged(states: seq<State>, acts: seq<Action>, k: nat)
    requires IsRun(states, acts) && k <= |acts|
    ensures forall id :: id in states[k].clients && states[k].clients[id].Ready? ==> Judged(states, acts, states[k].clients[id].m, k)
    ensures forall m :: m in states[k].queue ==> Judged(states, acts, m, k)
  {
    if k > 0 {
      ValidWasJudged(states, acts, k - 1);
      var s, t, a := states[k - 1], states[k - 1 + 1], acts[k - 1];
      assert t == Next(s, a);
      forall id | id in t.clients && t.clients[id].Ready? ensures Judged(states, acts, t.clients[id].m, k) {
        if a.Judge? && a.id == id && t.clients[id].m.valid { assert JudgedAt(states, acts, t.clients[id].m, k - 1); }
        if t.clients[id] == s.clients[id] { JudgedStays(states, acts, s.clients[id].m, k - 1); }
      }
      forall m | m in t.queue ensures Judged(states, acts, m, k) {
        JudgedStays(states, acts, m, k - 1);
      }
    }
  }

  /** The stamp is the counter as it was at the position named, where the exchange began or nothing was found. */
  ghost predicate StampedAt(states: seq<State>, acts: seq<Action>, id: SourceId, stamp: nat, begun: nat, valid: bool) {
    begun < |acts| < |states| && stamp == Generation(states[begun], id) && acts[begun] == if valid then Begin(id) else Reread(id)
  }

  ghost predicate ClientStamped(states: seq<State>, acts: seq<Action>, id: SourceId, c: Client) {
    match c
    case Exchanging(stamp, begun, _) => StampedAt(states, acts, id, stamp, begun, true)
    case Ready(m) => m.source == id && StampedAt(states, acts, id, m.generation, m.begun, m.valid)
    case _ => true
  }

  ghost predicate AllStamped(states: seq<State>, acts: seq<Action>, s: State) {
    && (forall id :: id in s.clients ==> ClientStamped(states, acts, id, s.clients[id]))
    && forall m :: m in s.queue ==> StampedAt(states, acts, m.source, m.generation, m.begun, m.valid)
  }

  lemma {:induction false} ClientStampStep(states: seq<State>, acts: seq<Action>, s: State, a: Action, id: SourceId)
    requires s.pos < |acts| < |states| && states[s.pos] == s && acts[s.pos] == a && Enabled(s, a)
    requires id in s.clients && ClientStamped(states, acts, id, s.clients[id])
    ensures ClientStamped(states, acts, id, Next(s, a).clients[id])
  {
  }

  lemma {:induction false} StampStep(states: seq<State>, acts: seq<Action>, s: State, a: Action)
    requires s.pos < |acts| < |states| && states[s.pos] == s && acts[s.pos] == a && Enabled(s, a) && AllStamped(states, acts, s)
    ensures AllStamped(states, acts, Next(s, a))
  {
    hide StampedAt, Stale, Generation, Acquired;
    var t := Next(s, a);
    forall id | id in t.clients ensures ClientStamped(states, acts, id, t.clients[id]) {
      ClientStampStep(states, acts, s, a, id);
    }
    if a.Emit? { assert ClientStamped(states, acts, a.id, s.clients[a.id]); }
  }

  /** Every measurement, with or without an estimate, carries the counter as its source read it. */
  lemma {:induction false} StampsWereRead(states: seq<State>, acts: seq<Action>, k: nat)
    requires IsRun(states, acts) && k <= |acts|
    ensures AllStamped(states, acts, states[k])
  {
    hide Inv, HistoryOk, Next, Enabled;
    if k > 0 {
      StampsWereRead(states, acts, k - 1);
      RunInv(states, acts, k - 1);
      StampStep(states, acts, states[k - 1], acts[k - 1]);
      assert states[k - 1 + 1] == Next(states[k - 1], acts[k - 1]);
    }
  }

  lemma JudgedStays(states: seq<State>, acts: seq<Action>, m: Measurement, k: nat)
    requires Judged(states, acts, m, k)
    ensures Judged(states, acts, m, k + 1)
  {
  }

  /**
   The engine's test is exact: a stamped estimate from a running source is admitted if and only if
   no discontinuity has begun, and the clock has not been stepped, since its first counter reading.
   */
  lemma {:induction false} StaleExactly(states: seq<State>, acts: seq<Action>, k: nat)
    requires IsRun(states, acts) && k < |acts| && acts[k] == Consume
    requires var m := states[k].queue[0]; m.valid && m.generation != 0 && !Blocked(states[k], m.source)
    ensures var m := states[k].queue[0];
      && (Stale(states[k], m) <==> exists j :: m.begun <= j < k && acts[j] == StartChange)
      && (!Stale(states[k], m) <==> Undisturbed(acts, m.begun, k))
  {
    RunInv(states, acts, k);
    var m := states[k].queue[0];
    if Stale(states[k], m) {
      var j := states[k].lastChange - 1;
      assert m.begun <= j < k && acts[j] == StartChange;
    }
  }

  /** The source was not announced to be starting again from i up to k. */
  ghost predicate Unannounced(acts: seq<Action>, id: SourceId, i: nat, k: nat)
    requires k <= |acts|
  {
    forall j :: i <= j < k ==> acts[j] != SourceRestarting(id)
  }

  /** The engine took a measurement of this source at position j. */
  ghost predicate AdmittedAt(states: seq<State>, acts: seq<Action>, id: SourceId, j: nat)
    requires IsRun(states, acts)
  {
    j < |acts| && acts[j] == Consume && states[j].queue[0].source == id && !Stale(states[j], states[j].queue[0])
  }

  /**
   A source that has stopped is not heard again until it is announced to be starting: from the start
   of the run or from its last admitted measurement on, with a stop and no such announcement,
   everything of it is dropped.
   */
  lemma {:induction false} StoppedIsSilent(states: seq<State>, acts: seq<Action>, id: SourceId, from: nat, k: nat)
    requires IsRun(states, acts) && from <= k <= |acts| && (from == 0 || AdmittedAt(states, acts, id, from - 1))
    requires Unannounced(acts, id, from, k)
    ensures id !in states[k].restarting
    ensures (exists j :: from <= j < k && acts[j].SourceStopped? && acts[j].id == id) ==> Blocked(states[k], id)
    decreases k - from
  {
    if from < k {
      StoppedIsSilent(states, acts, id, from, k - 1);
      assert states[k] == Next(states[k - 1], acts[k - 1]);
    } else if from > 0 {
      assert states[k - 1 + 1] == Next(states[k - 1], acts[k - 1]);
    }
  }

  /** A source without a counter is heard unless it has stopped. */
  lemma UnstampedIsHeard(s: State, m: Measurement)
    requires m.generation == 0
    ensures Stale(s, m) <==> m.source in s.stopped && m.source !in s.restarting
  {
  }

  /** The record of a stop, and of the announced restart, stands until a measurement of that source is admitted after it. */
  lemma {:induction false} StopStands(s: State, a: Action, id: SourceId)
    requires Enabled(s, a)
    ensures var heard := a == Consume && s.queue[0].source == id && !Stale(s, s.queue[0]) && id in s.restarting;
      && (id in Next(s, a).stopped <==> (id in s.stopped && !heard) || (a.SourceStopped? && a.id == id))
      && (id in Next(s, a).restarting <==> (id in s.restarting && !heard) || a == SourceRestarting(id))
  {
    hide Stale;
  }

  /** Once it is announced, what it measures is judged on its stamp alone again, until it stops once more. */
  lemma {:induction false} RestartedIsHeard(states: seq<State>, acts: seq<Action>, id: SourceId, from: nat, k: nat)
    requires IsRun(states, acts) && from < k <= |acts| && acts[from] == SourceRestarting(id)
    requires forall j :: from <= j < k ==> !(acts[j].SourceStopped? && acts[j].id == id)
    ensures !Blocked(states[k], id)
  {
    assert states[k - 1 + 1] == Next(states[k - 1], acts[k - 1]);
    if from < k - 1 { RestartedIsHeard(states, acts, id, from, k - 1); }
  }
}
