/**
 The engine's leap-second duties: how far UTC has been established, which table it obeys, and
 which announced leap it has armed and executed.  Times are as in LeapTable; the monotonic clock
 is in nanoseconds too.
 */
module LeapEngine {
  import opened Basics
  import opened LeapTable
  import U = LeapUpdater
  import S = SyncState
  import Sel = Selection

  /** What of the discipline's status these duties read and change. */
  datatype Status = Status(state: S.State, hasSystem: bool, residual: real, leap: Leap)

  predicate IsSynced(st: Status) {
    st.state.Synced? || st.state.Holdover?
  }

  predicate Coarse(st: Status) {
    st.state.Settling? && st.hasSystem && st.residual < Sel.PPS_GUARD
  }

  /** An announced leap: the boundary at which it takes effect, and its kind. */
  datatype Warning = Warning(at: int, kind: Leap)

  datatype Execution = Execution(pending: Option<Warning>, executed: int, lastWall: int, lastMono: int)

  // ----- executing an announced leap

  /** The kernel repeated the final second of an insertion: a second was lost against the monotonic clock. */
  predicate Repeated(x: Execution, wall: int, mono: int) {
    x.pending.Some? &&
    var p := x.pending.value;
    var lost := (mono - x.lastMono) - (wall - x.lastWall);
    && p.kind == Insert && wall < p.at && wall >= p.at - SECOND && x.lastWall >= p.at - 2 * SECOND
    && SECOND / 2 < lost < SECOND + SECOND / 2
  }

  predicate Crosses(x: Execution, wall: int, mono: int) {
    && x.pending.Some? && x.lastWall != 0
    && (Repeated(x, wall, mono) || x.lastWall < x.pending.value.at <= wall)
  }

  /**
   The wall clock between two looks: it kept up with the monotonic clock to within half a second, and
   the kernel put a leap second in or left one out when it was due.
   */
  ghost predicate Ran(x: Execution, wall: int, mono: int, applied: bool)
    requires x.pending.Some?
  {
    var p := x.pending.value;
    var inserts := p.kind == Insert;
    // Where the clock would stand without the leap, and the instant at which the kernel applies it.
    var plain := wall + if !applied then 0 else if inserts then SECOND else -SECOND;
    && -SECOND / 2 < (plain - x.lastWall) - (mono - x.lastMono) < SECOND / 2
    && (applied <==> plain >= p.at - if inserts then 0 else SECOND)
  }

  /**
   The armed leap counts as executed exactly when the kernel has applied it, for an insertion already
   in the repeated second unless the clock had not been looked at for two; it is then noticed
   when that second is over.
   */
  lemma {:induction false} CrossedWhenApplied(x: Execution, wall: int, mono: int, applied: bool)
    requires x.pending.Some? && x.pending.value.kind in {Insert, Delete} && x.lastWall != 0 && x.lastWall < x.pending.value.at
    requires Ran(x, wall, mono, applied)
    ensures var p := x.pending.value;
      && (Crosses(x, wall, mono) <==> applied && (wall >= p.at || x.lastWall >= p.at - 2 * SECOND))
      && (wall - x.lastWall <= SECOND ==> (Crosses(x, wall, mono) <==> applied))
  {
  }

  /** An executed boundary is not armed again, not even in the second that is repeated before it. */
  lemma ExecutedIsNotRearmed(x: Execution, warning: Leap, wall: int)
    requires x.executed % DAY == 0 && x.executed - DAY <= wall < x.executed
    ensures Arm(x, warning, wall) == x
  {
    EveEndsAtMidnight(x.executed, wall);
  }

  /** The next midnight UTC. */
  function NextMidnight(wall: int): (b: int)
    ensures wall < b <= wall + DAY && b % DAY == 0
  {
    (wall / DAY + 1) * DAY
  }

  /** Arming: only when nothing is armed, and never for a boundary already executed. */
  function Arm(x: Execution, warning: Leap, wall: int): Execution {
    if warning in {Insert, Delete} && x.pending.None? && NextMidnight(wall) > x.executed
    then x.(pending := Some(Warning(NextMidnight(wall), warning))) else x
  }

  /** The indicator shown to others: an armed leap stands until it is executed, and is then gone. */
  function ShownLeap(x: Execution, announced: Leap, wall: int): Leap {
    if x.executed != 0 && wall < x.executed then NoLeap
    else if x.pending.Some? && wall < x.pending.value.at then x.pending.value.kind
    else announced
  }

  /** Boundaries are executed in order, and what is pending lies beyond them. */
  ghost predicate ExecutionOk(x: Execution, log: seq<int>, start: int) {
    && (x.pending.Some? ==> x.pending.value.at > x.executed && x.pending.value.at % DAY == 0)
    && (forall i, j :: 0 <= i < j < |log| ==> log[i] < log[j])
    && (forall i :: 0 <= i < |log| ==> log[i] > start)
    && x.executed == if log == [] then start else log[|log| - 1]
  }

  lemma {:induction false} ExecuteKeeps(x: Execution, log: seq<int>, start: int)
    requires ExecutionOk(x, log, start) && x.pending.Some?
    ensures ExecutionOk(x.(executed := x.pending.value.at, pending := None), log + [x.pending.value.at], start)
  {
  }

  // ----- obeying a table

  function From(o: Option<Object>): seq<Activation> {
    if o.Some? then [Activation(o.value, 0)] else []
  }

  /** The tables obeyed since the start: the one it found active, and what was activated. */
  function Obeyed(start: U.EngineView, acts: seq<Activation>): seq<Activation> {
    From(start.active) + acts
  }

  /** Activations were made one after the other, within the established UTC. */
  ghost predicate InTurn(acts: seq<Activation>, utcBound: int) {
    && (forall i, j :: 0 <= i < j < |acts| ==> acts[i].bound <= acts[j].bound)
    && forall i :: 0 <= i < |acts| ==> acts[i].bound <= utcBound
  }

  ghost predicate AllFiled(book: Book, acts: seq<Activation>) {
    forall i :: 0 <= i < |acts| ==> Filed(book, acts[i].obj)
  }

  ghost predicate StartOk(book: Book, start: U.EngineView) {
    U.FiledIf(book, start.active) && U.FiledIf(book, start.anchor) && U.Below(start.active, start.anchor)
  }

  /** From the anchor found at the start on, each table was accepted against the one before it. */
  ghost predicate AuthorityOk(book: Book, start: U.EngineView, a: U.EngineView, acts: seq<Activation>, utcBound: int) {
    && StartOk(book, start) && Chain(From(start.anchor) + acts) && InTurn(acts, utcBound) && AllFiled(book, acts)
    && a.active == (if acts == [] then start.active else Some(acts[|acts| - 1].obj))
    && a.anchor == (if acts == [] then start.anchor else Some(acts[|acts| - 1].obj))
  }

  lemma {:induction false} LastFollows(book: Book, start: U.EngineView, a: U.EngineView, acts: seq<Activation>, utcBound: int,
                                       r: Object)
    requires AuthorityOk(book, start, a, acts, utcBound) && CheckUpdate(a.anchor, r, utcBound) == Accepted && Filed(book, r)
    ensures var c := From(start.anchor) + acts; c != [] ==> Follows(c[|c| - 1], Activation(r, utcBound))
  {
    hide CheckUpdate, Chain, TableOk, InTurn;
  }

  lemma {:induction false} ActivateKeeps(book: Book, start: U.EngineView, a: U.EngineView, acts: seq<Activation>, utcBound: int,
                                         r: Object)
    requires AuthorityOk(book, start, a, acts, utcBound) && CheckUpdate(a.anchor, r, utcBound) == Accepted && Filed(book, r)
    ensures AuthorityOk(book, start, U.EngineView(Some(r), Some(r), None), acts + [Activation(r, utcBound)], utcBound)
  {
    hide CheckUpdate, Chain, TableOk, StartOk;
    var c, x := From(start.anchor) + acts, Activation(r, utcBound);
    LastFollows(book, start, a, acts, utcBound, r);
    ChainPush(c, x);
    assert c + [x] == From(start.anchor) + (acts + [x]);
  }

  /** The warning a table gives: active for the day before its transition. */
  function Indicator(ts: seq<Transition>, now: int): Leap {
    if ts == [] then NoLeap
    else if ts[0].at - DAY <= now < ts[0].at then ts[0].leap
    else Indicator(ts[1..], now)
  }

  predicate Eve(x: Transition, now: int) {
    x.at - DAY <= now < x.at
  }

  /** For records at least a day apart: the warning of the one record whose eve it is, and none on any other day. */
  lemma {:induction false} IndicatorMeans(ts: seq<Transition>, now: int)
    requires forall i, j :: 0 <= i < j < |ts| ==> ts[i].at + DAY <= ts[j].at
    ensures forall x :: x in ts && Eve(x, now) ==> Indicator(ts, now) == x.leap
    ensures (forall x :: x in ts ==> !Eve(x, now)) ==> Indicator(ts, now) == NoLeap
  {
    if ts != [] {
      IndicatorMeans(ts[1..], now);
      assert forall x :: x in ts <==> x == ts[0] || x in ts[1..];
      assert forall x :: x in ts[1..] ==> ts[0].at + DAY <= x.at;
    }
  }

  /**
   A leap armed from a table is that table's own record: the boundary latched at the next midnight,
   with its kind, is the record whose eve it is, unless that has been executed.
   */
  lemma {:induction false} ArmedIsRecord(t: Table, x: Execution, wall: int)
    requires TableOk(t) && x.pending.None?
    ensures var armed := Arm(x, Indicator(t.transitions, wall), wall);
      && (armed.pending.Some? ==> exists r :: r in t.transitions && Eve(r, wall))
      && forall r :: r in t.transitions && Eve(r, wall) ==>
           armed.pending == if r.at > x.executed then Some(Warning(r.at, r.leap)) else None
  {
    hide NextMidnight;
    forall i, j | 0 <= i < j < |t.transitions| ensures t.transitions[i].at + DAY <= t.transitions[j].at {
      RecordsApart(t, i, j);
    }
    IndicatorMeans(t.transitions, wall);
    forall r | r in t.transitions && Eve(r, wall) ensures NextMidnight(wall) == r.at {
      EveEndsAtMidnight(r.at, wall);
    }
  }

  /**
   What is shown to others in a table's name: on the eve of a record its warning until it has been
   executed, also through a repeated last second, and on any other day none.
   */
  lemma {:induction false} ShownIsRecord(t: Table, x: Execution, wall: int)
    requires TableOk(t) && x.pending.None? && x.executed % DAY == 0 && wall >= 0
    ensures var announced := Indicator(t.transitions, wall);
      var shown := ShownLeap(Arm(x, announced, wall), announced, wall);
      && (forall r :: r in t.transitions && Eve(r, wall) ==> shown == if r.at > x.executed then r.leap else NoLeap)
      && ((forall r :: r in t.transitions ==> !Eve(r, wall)) ==> shown == NoLeap)
  {
    hide NextMidnight, Indicator;
    ArmedIsRecord(t, x, wall);
    forall i, j | 0 <= i < j < |t.transitions| ensures t.transitions[i].at + DAY <= t.transitions[j].at {
      RecordsApart(t, i, j);
    }
    IndicatorMeans(t.transitions, wall);
    forall r | r in t.transitions && Eve(r, wall) && r.at > x.executed ensures x.executed <= wall {
      EveAfter(r.at, x.executed, wall);
    }
  }

  lemma EveAfter(at: int, executed: int, wall: int)
    requires at % DAY == 0 && executed % DAY == 0 && executed < at && at - DAY <= wall
    ensures executed <= wall
  {
    if executed > at - DAY { MidnightsOnce(executed, at); }
  }

  lemma EveEndsAtMidnight(at: int, wall: int)
    requires at % DAY == 0 && at - DAY <= wall < at
    ensures NextMidnight(wall) == at
  {
    MidnightsOnce(NextMidnight(wall), at);
  }

  lemma MidnightsOnce(a: int, b: int)
    requires a % DAY == 0 && b % DAY == 0 && -DAY < a - b < DAY
    ensures a == b
  {
    if a < b { MidnightsApart(a, b); } else if b < a { MidnightsApart(b, a); }
  }

  /** The engine's answer to a table: time, the replacement rule at the UTC bound, and the armed leap. */
  function VerdictOn(anchor: Option<Object>, r: Object, known: bool, bound: int, pending: Option<Warning>): Verdict {
    if !known then Rejected(TimeUnknown)
    else if CheckUpdate(anchor, r, bound) != Accepted then CheckUpdate(anchor, r, bound)
    else if !KeepsArmed(r, pending) then Rejected(Armed)
    else Accepted
  }

  predicate KeepsArmed(r: Object, pending: Option<Warning>) {
    pending.Some? ==> Transition(pending.value.at, pending.value.kind) in r.table.transitions
  }

  /** What the updater sees of that answer. */
  function AskOf(r: Object, known: bool, bound: int, pending: Option<Warning>): U.Ask {
    U.Ask(known && KeepsArmed(r, pending), bound)
  }

  lemma AnswerIsAsk(e: U.EngineView, r: Object, known: bool, bound: int, pending: Option<Warning>)
    ensures VerdictOn(e.anchor, r, known, bound, pending).Accepted? <==> U.Allows(e, r, AskOf(r, known, bound, pending))
  {
    hide CheckUpdate;
  }

  class Engine {
    const required: bool
    const startupBound: int
    ghost const book: Book
    ghost const start: U.EngineView
    var utcBound: int
    var timeKnown: bool
    var leapReady: bool
    var authority: U.EngineView
    var execution: Execution
    ghost const startExecuted: int
    ghost var acts: seq<Activation>
    ghost var log: seq<int>

    ghost predicate Valid()
      reads this
    {
      && startupBound <= utcBound
      && AuthorityOk(book, start, authority, acts, utcBound) && ExecutionOk(execution, log, startExecuted)
    }

    /** Starts from what the cache held. */
    constructor (required: bool, i: U.Image, wall: int, mono: int, ghost book: Book)
      requires U.ImageFiled(book, i) && U.Loads(i)
      ensures Valid() && this.required == required && this.book == book && utcBound == startupBound == i.utcBound
      ensures log == [] && acts == []
      ensures authority == start == U.EngineView(U.Held(i.active), U.Anchor(i), None)
      ensures execution == Execution(None, i.executed, wall, mono) && startExecuted == i.executed
    {
      hide CheckUpdate, Succeeds;
      this.required, startupBound, utcBound, timeKnown, leapReady := required, i.utcBound, i.utcBound, false, false;
      authority, execution := U.EngineView(U.Held(i.active), U.Anchor(i), None), Execution(None, i.executed, wall, mono);
      this.book, start, startExecuted, log, acts := book, U.EngineView(U.Held(i.active), U.Anchor(i), None), i.executed, [], [];
      U.LoadedOk(book, i);
    }

    /** Has the clock passed the armed boundary since it was last looked at?  If so the leap is executed. */
    method CrossLeap(wall: int, mono: int) returns (crossed: bool)
      requires Valid()
      modifies this`utcBound, this`execution, this`log
      ensures Valid() && crossed == Crosses(old(execution), wall, mono)
      ensures !crossed ==>
        && utcBound == old(utcBound) && log == old(log)
        && execution == old(execution).(lastWall := wall, lastMono := mono)
      ensures crossed ==>
        var at := old(execution).pending.value.at;
        && execution == Execution(None, at, wall, mono) && log == old(log) + [at] && utcBound == MaxInt(old(utcBound), at)
    {
      crossed := false;
      if execution.pending.Some? && execution.lastWall != 0 {
        var p := execution.pending.value;
        if Repeated(execution, wall, mono) || (execution.lastWall < p.at && wall >= p.at) {
          ExecuteKeeps(execution, log, startExecuted);
          crossed := true;
          execution := execution.(executed := p.at, pending := None);
          if execution.executed > utcBound { utcBound := execution.executed; }
          log := log + [p.at];
        }
      }
      execution := execution.(lastWall := wall, lastMono := mono);
    }

    /** After the engine stepped the clock: a boundary it jumped over counts as executed. */
    method NoteStep(after: int)
      requires Valid()
      modifies this`execution, this`log
      ensures Valid()
      ensures var p, jumped := old(execution).pending, old(execution).pending.Some? && after >= old(execution).pending.value.at;
        if jumped then
          && execution == old(execution).(lastWall := after, executed := p.value.at, pending := None)
          && log == old(log) + [p.value.at]
        else execution == old(execution).(lastWall := after) && log == old(log)
    {
      execution := execution.(lastWall := after);
      if execution.pending.Some? && after >= execution.pending.value.at {
        ExecuteKeeps(execution, log, startExecuted);
        log := log + [execution.pending.value.at];
        execution := execution.(executed := execution.pending.value.at, pending := None);
      }
    }

    /** Latches the boundary a warning announces, unless one is latched or it has been executed. */
    method NotePending(warning: Leap, wall: int)
      requires Valid()
      modifies this`execution
      ensures Valid()
      ensures execution == Arm(old(execution), warning, wall)
    {
      hide AuthorityOk;
      if warning != Insert && warning != Delete { return; }
      if execution.pending.None? {
        var boundary := NextMidnight(wall);
        if boundary <= execution.executed { return; }
        execution := execution.(pending := Some(Warning(boundary, warning)));
      }
    }

    /** The table in force at `validAt`, if there is a current one. */
    function Current(validAt: int): Option<Table>
      reads this
    {
      if authority.active.Some? && CheckUpdate(None, authority.active.value, validAt).Accepted?
      then Some(authority.active.value.table) else None
    }

    /** A table has authority exactly from its baseline up to its expiry, if it is dated plausibly. */
    lemma CurrentExactly(validAt: int)
      ensures Current(validAt).Some? <==>
        && authority.active.Some? && validAt != 0
        && var t := authority.active.value.table;
          t.baseline <= validAt < t.expiry && t.updated <= validAt + FUTURE_SLACK && t.expiry <= validAt + MAX_COVERAGE
    {
    }

    /** Whether UTC is established: synchronized or nearly, and not behind what was established before. */
    predicate Known(st: Status, wall: int)
      reads this
    {
      (IsSynced(st) || Coarse(st)) && wall >= startupBound && wall + SECOND >= utcBound
    }

    /** Decides whether UTC is known and, if so, advances the bound to it. */
    method Establish(st: Status, wall: int)
      requires Valid()
      modifies this`utcBound, this`timeKnown
      ensures Valid() && timeKnown == old(Known(st, wall))
      ensures timeKnown <==>
        && (st.state.Synced? || st.state.Holdover? || (st.state.Settling? && st.hasSystem && st.residual < 0.4))
        && wall >= startupBound && wall >= old(utcBound) - SECOND
      ensures utcBound == if timeKnown then MaxInt(old(utcBound), wall) else old(utcBound)
    {
      hide ExecutionOk;
      timeKnown := (IsSynced(st) || Coarse(st)) && wall >= startupBound;
      // A second's setback is what an inserted leap looks like; a larger one must be reacquired.
      if wall + SECOND < utcBound { timeKnown := false; }
      if timeKnown && wall > utcBound { utcBound := wall; }
    }

    /**
     Brings the UTC bound up to date, decides who has authority over leap seconds, and arms an
     announced leap.  The bound never goes back.
     */
    method ApplyLeap(st: Status, wall: int) returns (shown: Status)
      requires Valid()
      modifies this`utcBound, this`timeKnown, this`leapReady, this`execution
      ensures Valid() && timeKnown == old(Known(st, wall))
      ensures utcBound == if timeKnown then MaxInt(old(utcBound), wall) else old(utcBound)
      ensures leapReady <==> timeKnown && (Current(MaxInt(utcBound, wall)).Some? || (!required && st.leap != Unknown))
      ensures var table := Current(MaxInt(utcBound, wall));
        var announced := if table.Some? then Indicator(table.value.transitions, wall) else st.leap;
        var trusted := st.state.Synced? || st.state.Holdover?;
        if leapReady && trusted then
          && execution == Arm(old(execution), announced, wall)
          && shown == st.(leap := ShownLeap(execution, announced, wall))
        else
          && execution == old(execution)
          && shown == if !leapReady && trusted && required then st.(state := S.Unsynced, leap := Unknown) else st
    {
      hide AuthorityOk, ExecutionOk, CheckUpdate;
      shown := st;
      Establish(st, wall);
      var validAt := if utcBound > wall then utcBound else wall;
      var table := Current(validAt);
      leapReady := false;
      if table.Some? && timeKnown {
        leapReady := true;
        if IsSynced(st) { shown := shown.(leap := Indicator(table.value.transitions, wall)); }
      } else if !required && st.leap != Unknown && timeKnown {
        leapReady := true;
      }
      if leapReady {
        if IsSynced(st) {
          NotePending(shown.leap, wall);
          if execution.pending.Some? && wall < execution.pending.value.at {
            shown := shown.(leap := execution.pending.value.kind);
          }
          if execution.executed != 0 && wall < execution.executed {
            shown := shown.(leap := NoLeap);
          }
        }
      } else if IsSynced(st) && required {
        shown := shown.(state := S.Unsynced, leap := Unknown);
      }
    }

    /** Would the engine accept this table now? */
    method CheckLeap(r: Object, st: Status, wall: int) returns (v: Verdict)
      requires Valid()
      modifies this`utcBound, this`timeKnown, this`leapReady, this`execution
      ensures Valid() && execution.executed == old(execution).executed && timeKnown == old(Known(st, wall))
      ensures utcBound == if timeKnown then MaxInt(old(utcBound), wall) else old(utcBound)
      ensures v == VerdictOn(authority.anchor, r, timeKnown, utcBound, execution.pending)
    {
      hide CheckUpdate, AuthorityOk, ExecutionOk, Indicator;
      var _ := ApplyLeap(st, wall);
      if !timeKnown { return Rejected(TimeUnknown); }
      var now := if utcBound > wall then utcBound else wall;
      v := CheckUpdate(authority.anchor, r, now);
      if v != Accepted { return v; }
      if execution.pending.Some? {
        var armed := Transition(execution.pending.value.at, execution.pending.value.kind);
        if armed !in r.table.transitions { return Rejected(Armed); }
      }
    }

    /**
     The updater's request to approve or to activate a table.  Only what was approved can be
     activated, and an armed leap is never removed.
     */
    method LeapRequest(r: Object, activate: bool, st: Status, before: int, mono: int, wall: int) returns (v: Verdict)
      requires Valid() && Filed(book, r)
      modifies this
      ensures Valid() && utcBound >= old(utcBound) && old(log) <= log && old(acts) <= acts
      ensures var x := VerdictOn(old(authority).anchor, r, timeKnown, utcBound, execution.pending);
        v == if x.Accepted? && activate && old(authority).approved != Some(r.manifest) then Rejected(Generation) else x
      ensures var ask := AskOf(r, timeKnown, utcBound, execution.pending);
        authority == if activate then U.Engage(old(authority), r, ask) else U.Approve(old(authority), r, ask)
      ensures acts == old(acts) + if v.Accepted? && activate then [Activation(r, utcBound)] else []
    {
      hide CheckUpdate, ExecutionOk;
      var _ := CrossLeap(before, mono);
      v := CheckLeap(r, st, wall);
      AnswerIsAsk(authority, r, timeKnown, utcBound, execution.pending);
      if !v.Accepted? { return; }
      if !activate {
        authority := authority.(approved := Some(r.manifest));
        return;
      }
      if authority.approved != Some(r.manifest) {
        return Rejected(Generation);
      }
      ActivateKeeps(book, start, authority, acts, utcBound, r);
      acts := acts + [Activation(r, utcBound)];
      authority := U.EngineView(Some(r), Some(r), None);
    }

    ghost function Glimpsed(): Glimpse
      reads this
    {
      Glimpse(utcBound, execution, log, Obeyed(start, acts))
    }

    lemma Seen()
      requires Valid()
      ensures GlimpseOk(Glimpsed(), start)
    {
      hide ExecutionOk, AuthorityOk;
      ExecutedInOrder(execution, log, startExecuted);
      ObeyedHistory(book, start, authority, acts, utcBound);
    }

    method Perform(d: Duty)
      requires Valid() && (d.Asked? ==> Filed(book, d.r))
      modifies this
      ensures Valid() && Grows(old(Glimpsed()), Glimpsed())
    {
      hide ExecutionOk, AuthorityOk, CheckUpdate, Filed;
      match d
      case Crossed(wall, mono) => var _ := CrossLeap(wall, mono);
      case Stepped(after) => NoteStep(after);
      case Applied(st, wall) => var _ := ApplyLeap(st, wall);
      case Asked(r, activate, st, before, mono, wall) =>
        var _ := LeapRequest(r, activate, st, before, mono, wall);
    }

    /** Any run of one process: every state it passes through keeps the promises, and what was done stays done. */
    method Play(duties: seq<Duty>) returns (ghost seen: seq<Glimpse>)
      requires Valid() && forall d :: d in duties && d.Asked? ==> Filed(book, d.r)
      modifies this
      ensures Valid() && |seen| == |duties| + 1 && seen[0] == old(Glimpsed()) && seen[|duties|] == Glimpsed()
      ensures forall k :: 0 <= k < |seen| ==> GlimpseOk(seen[k], start)
      ensures forall i, k :: 0 <= i <= k < |seen| ==> Grows(seen[i], seen[k])
    {
      hide ExecutionOk, AuthorityOk, GlimpseOk, Grows, Filed;
      seen := [Glimpsed()];
      Seen();
      GrowsSelf(Glimpsed());
      for n := 0 to |duties|
        invariant Valid() && |seen| == n + 1 && seen[0] == old(Glimpsed()) && seen[n] == Glimpsed()
        invariant forall k :: 0 <= k < |seen| ==> GlimpseOk(seen[k], start)
        invariant forall i, k :: 0 <= i <= k < |seen| ==> Grows(seen[i], seen[k])
      {
        ghost var g := Glimpsed();
        Perform(duties[n]);
        Seen();
        ghost var h := Glimpsed();
        GrowsSelf(h);
        forall i | 0 <= i <= n ensures Grows(seen[i], h) { GrowsTransitive(seen[i], g, h); }
        seen := seen + [h];
      }
    }
  }

  // ----- runs

  datatype Duty =
    | Crossed(wall: int, mono: int)
    | Stepped(after: int)
    | Applied(status: Status, at: int)
    | Asked(r: Object, activate: bool, st: Status, before: int, since: int, now: int)

  datatype Glimpse = Glimpse(utcBound: int, execution: Execution, log: seq<int>, obeyed: seq<Activation>)

  /** Nothing is undone: the bound, the executed leaps and the obeyed tables only move on. */
  ghost predicate Grows(a: Glimpse, b: Glimpse) {
    a.utcBound <= b.utcBound && a.log <= b.log && a.obeyed <= b.obeyed
  }

  lemma GrowsSelf(g: Glimpse)
    ensures Grows(g, g)
  {
  }

  lemma GrowsTransitive(a: Glimpse, b: Glimpse, c: Glimpse)
    requires Grows(a, b) && Grows(b, c)
    ensures Grows(a, c)
  {
  }

  ghost predicate GlimpseOk(g: Glimpse, start: U.EngineView) {
    ExecutedOnce(g) && HistoryKept(start, g.obeyed)
  }

  /** No boundary is executed twice: the dates increase, and what is armed lies beyond them. */
  ghost predicate ExecutedOnce(g: Glimpse) {
    && (forall i, j :: 0 <= i < j < |g.log| ==> g.log[i] < g.log[j])
    && (forall i :: 0 <= i < |g.log| ==> g.log[i] <= g.execution.executed)
    && (g.execution.pending.Some? ==> g.execution.pending.value.at > g.execution.executed)
  }

  lemma {:induction false} ExecutedInOrder(x: Execution, log: seq<int>, start: int)
    requires ExecutionOk(x, log, start)
    ensures forall g: Glimpse :: g.execution == x && g.log == log ==> ExecutedOnce(g)
  {
  }

  /**
   The first table replaced keeps its records too: there was no other one pending at the start, or
   the replacement rule would have let the new table replace it.
   */
  predicate Unbroken(start: U.EngineView, obeyed: seq<Activation>) {
    || start.active.None? || start.active == start.anchor || |obeyed| < 2
    || CheckUpdate(Some(obeyed[0].obj), obeyed[1].obj, obeyed[1].bound) == Accepted
  }

  /** Later tables have no earlier dates, and keep the records in effect when the earlier one was replaced. */
  ghost predicate HistoryKept(start: U.EngineView, obeyed: seq<Activation>) {
    forall i, j :: 0 <= i < j < |obeyed| ==>
      && NoEarlier(obeyed[i].obj.table, obeyed[j].obj.table)
      && (Unbroken(start, obeyed) || i > 0 ==> KeepsRecords(obeyed[i].obj.table, obeyed[j].obj.table, obeyed[i + 1].bound))
  }

  lemma {:induction false} ChainTail(c: seq<Activation>, x: seq<Activation>)
    requires Chain(x + c)
    ensures Chain(c)
  {
    hide Follows;
    var d := x + c;
    forall i | 0 <= i < |c| - 1 ensures Follows(c[i], c[i + 1]) {
      assert Follows(d[|x| + i], d[|x| + i + 1]);
    }
  }

  /** In a chain whose later bounds never go back, each table's records are kept as of its replacement. */
  lemma {:induction false} ChainKeeps(book: Book, d: seq<Activation>, i: nat, j: nat)
    requires Chain(d) && AllFiled(book, d) && i < j < |d|
    requires forall k, l :: i < k < l < |d| ==> d[k].bound <= d[l].bound
    ensures NoEarlier(d[i].obj.table, d[j].obj.table) && KeepsRecords(d[i].obj.table, d[j].obj.table, d[i + 1].bound)
  {
    hide Past, KeepsRecords, Chain;
    ChainDates(d, i, j);
    ChainHistory(d, i, j, d[i + 1].bound);
    assert Filed(book, d[i].obj) && Filed(book, d[j].obj);
    AgreeMeans(d[i].obj.table, d[j].obj.table, d[i + 1].bound);
  }

  lemma {:induction false} UnbrokenChains(book: Book, start: U.EngineView, a: U.EngineView, acts: seq<Activation>, utcBound: int)
    requires AuthorityOk(book, start, a, acts, utcBound) && Unbroken(start, Obeyed(start, acts))
    ensures Chain(Obeyed(start, acts))
  {
    hide CheckUpdate, Succeeds;
    var c, d := From(start.anchor) + acts, Obeyed(start, acts);
    ChainTail(acts, From(start.anchor));
    forall i | 0 <= i < |d| - 1 ensures Follows(d[i], d[i + 1]) {
      if start.active.Some? && i > 0 {
        assert Follows(acts[i - 1], acts[i - 1 + 1]);
      } else if start.active.Some? && start.active == start.anchor {
        assert Follows(c[i], c[i + 1]);
      } else if start.active.None? {
        assert Follows(acts[i], acts[i + 1]);
      }
    }
  }

  lemma {:induction false} ObeyedHistory(book: Book, start: U.EngineView, a: U.EngineView, acts: seq<Activation>, utcBound: int)
    requires AuthorityOk(book, start, a, acts, utcBound)
    ensures HistoryKept(start, Obeyed(start, acts))
  {
    hide CheckUpdate, Succeeds, Chain, KeepsRecords, Filed, U.Below;
    var d, m := Obeyed(start, acts), |From(start.active)|;
    ChainTail(acts, From(start.anchor));
    forall i, j | 0 <= i < j < |d|
      ensures NoEarlier(d[i].obj.table, d[j].obj.table)
      ensures Unbroken(start, d) || i > 0 ==> KeepsRecords(d[i].obj.table, d[j].obj.table, d[i + 1].bound)
    {
      if i >= m {
        ChainKeeps(book, acts, i - m, j - m);
      } else {
        FirstNoEarlier(book, start, a, acts, utcBound, j - 1);
        if Unbroken(start, d) {
          UnbrokenChains(book, start, a, acts, utcBound);
          ChainKeeps(book, d, 0, j);
        }
      }
    }
  }

  lemma {:induction false} FirstNoEarlier(book: Book, start: U.EngineView, a: U.EngineView, acts: seq<Activation>, utcBound: int,
                                          j: nat)
    requires AuthorityOk(book, start, a, acts, utcBound) && start.active.Some? && j < |acts|
    ensures NoEarlier(start.active.value.table, acts[j].obj.table)
  {
    hide CheckUpdate, Filed;
    var c := From(start.anchor) + acts;
    ChainDates(c, 0, j + 1);
    assert c[j + 1] == acts[j] && c[0].obj == start.anchor.value;
  }

  /** For a table found active at the start, that condition is exact: it says whether its records in effect were kept. */
  lemma {:induction false} UnbrokenExactly(e: Engine)
    requires e.Valid() && e.start.active.Some? && e.acts != []
    ensures KeepsRecords(e.start.active.value.table, e.acts[0].obj.table, e.acts[0].bound) <==>
      Unbroken(e.start, Obeyed(e.start, e.acts))
  {
    hide KeepsRecords, Past, ExecutionOk;
    var x, r, bound := e.start.active.value, e.acts[0].obj, e.acts[0].bound;
    var c := From(e.start.anchor) + e.acts;
    assert Follows(c[0], c[0 + 1]);
    SucceedsTransitive(x, e.start.anchor.value, r) by { AcceptedExactly(e.start.anchor.value, r, bound); }
    KeepsExactly(x, r, bound);
  }
}
