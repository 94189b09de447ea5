/**
 The leap distributor's export budget: a virtual-scheduling rate limiter kept in one atomic
 word, which any number of listeners update with load and compare-and-swap.
 */
module ExportBudget {
  import opened Basics

  const MAX_TRIES: nat := 8

  /** One budget's parameters: nanoseconds per grant, and grants that may be saved up. */
  datatype Config = Config(interval: int, burst: int) {
    ghost predicate Ok() {
      interval >= 0 && burst >= 1
    }
  }

  type CallerId = nat

  /** A call in progress.  `from` and `seen` count the grants made when it began and when it last loaded. */
  datatype Caller =
    | Idle
    | Asking(now: int, tries: nat, from: nat)
    | Loaded(now: int, tries: nat, from: nat, word: int, seen: nat)

  /** `grants` lists the callers' times in the order their swaps took effect. */
  datatype State = State(end: int, callers: map<CallerId, Caller>, grants: seq<int>)

  datatype Action =
    | Call(id: CallerId, now: int)
    | Load(id: CallerId)
    | Swap(id: CallerId)

  /** The virtual finish time a caller would install. */
  function Finish(c: Config, word: int, now: int): int {
    MaxInt(word, now) + c.interval
  }

  predicate Refuses(c: Config, word: int, now: int) {
    Finish(c, word, now) - now > c.burst * c.interval
  }

  ghost predicate Init(s: State) {
    s.end == 0 && s.grants == [] && forall i :: i in s.callers ==> s.callers[i].Idle?
  }

  /** A caller presents a time that is not before the budget's epoch. */
  predicate Enabled(s: State, a: Action) {
    a.id in s.callers &&
    match a
    case Call(id, now) => s.callers[id].Idle? && now >= 0
    case Load(id) => s.callers[id].Asking?
    case Swap(id) => s.callers[id].Loaded?
  }

  function Next(c: Config, s: State, a: Action): State
    requires Enabled(s, a)
  {
    match a
    case Call(id, now) => s.(callers := s.callers[id := Asking(now, 0, |s.grants|)])
    case Load(id) =>
      var k := s.callers[id];
      s.(callers := s.callers[id := Loaded(k.now, k.tries, k.from, s.end, |s.grants|)])
    case Swap(id) =>
      var k := s.callers[id];
      if Refuses(c, k.word, k.now) then
        s.(callers := s.callers[id := Idle])
      else if s.end == k.word then
        State(Finish(c, k.word, k.now), s.callers[id := Idle], s.grants + [k.now])
      else if k.tries + 1 < MAX_TRIES then
        s.(callers := s.callers[id := Asking(k.now, k.tries + 1, k.from)])
      else
        s.(callers := s.callers[id := Idle])
  }

  ghost predicate IsRun(c: Config, states: seq<State>, acts: seq<Action>) {
    && |states| == |acts| + 1
    && Init(states[0])
    && forall k :: 0 <= k < |acts| ==> Enabled(states[k], acts[k]) && states[k + 1] == Next(c, states[k], acts[k])
  }

  // ----- what the word means

  /** The word after a sequence of grants. */
  ghost function End(c: Config, g: seq<int>): int {
    if g == [] then 0 else Finish(c, End(c, g[..|g| - 1]), g[|g| - 1])
  }

  /** No grant was made beyond the burst. */
  ghost predicate Sound(c: Config, g: seq<int>) {
    forall k :: 0 <= k < |g| ==> !Refuses(c, End(c, g[..k]), g[k])
  }

  ghost predicate CallerOk(c: Config, s: State, k: Caller) {
    match k
    case Idle => true
    case Asking(now, tries, from) => now >= 0 && from + tries <= |s.grants|
    case Loaded(now, tries, from, word, seen) =>
      now >= 0 && from + tries <= seen <= |s.grants| && word == End(c, s.grants[..seen])
  }

  ghost predicate Inv(c: Config, s: State) {
    && s.end == End(c, s.grants) && Sound(c, s.grants)
    && (forall k :: 0 <= k < |s.grants| ==> s.grants[k] >= 0)
    && forall i :: i in s.callers ==> CallerOk(c, s, s.callers[i])
  }

  lemma {:induction false} GrantKeepsSound(c: Config, g: seq<int>, now: int)
    requires Sound(c, g) && !Refuses(c, End(c, g), now)
    ensures Sound(c, g + [now]) && End(c, g + [now]) == Finish(c, End(c, g), now)
  {
    var h := g + [now];
    assert h[..|g|] == g;
    forall k | 0 <= k < |h| ensures !Refuses(c, End(c, h[..k]), h[k]) {
      if k < |g| { assert h[..k] == g[..k]; }
    }
  }

  /** Other callers' records stay true when a grant is added. */
  lemma {:induction false} CallerKept(c: Config, s: State, t: State, k: Caller)
    requires CallerOk(c, s, k) && s.grants <= t.grants
    ensures CallerOk(c, t, k)
  {
    if k.Loaded? {
      assert t.grants[..k.seen] == s.grants[..k.seen];
    }
  }

  lemma {:induction false} GrantStep(c: Config, s: State, a: Action)
    requires Inv(c, s) && Enabled(s, a)
    ensures var t := Next(c, s, a);
      && s.grants <= t.grants && t.end == End(c, t.grants) && Sound(c, t.grants)
      && (forall k :: 0 <= k < |t.grants| ==> t.grants[k] >= 0)
  {
    var k := s.callers[a.id];
    assert CallerOk(c, s, k);
    if Next(c, s, a).grants != s.grants {
      GrantKeepsSound(c, s.grants, k.now);
    }
  }

  lemma {:induction false} CallerStep(c: Config, s: State, a: Action)
    requires Inv(c, s) && Enabled(s, a)
    ensures CallerOk(c, Next(c, s, a), Next(c, s, a).callers[a.id])
  {
    assert CallerOk(c, s, s.callers[a.id]);
    assert s.grants[..|s.grants|] == s.grants;
  }

  lemma {:induction false} InvStep(c: Config, s: State, a: Action)
    requires Inv(c, s) && Enabled(s, a)
    ensures Inv(c, Next(c, s, a))
  {
    var t := Next(c, s, a);
    GrantStep(c, s, a);
    forall i | i in t.callers ensures CallerOk(c, t, t.callers[i]) {
      if i == a.id { CallerStep(c, s, a); } else { CallerKept(c, s, t, s.callers[i]); }
    }
  }

  lemma {:induction false} RunInv(c: Config, states: seq<State>, acts: seq<Action>, k: nat)
    requires IsRun(c, states, acts) && k <= |acts|
    ensures Inv(c, states[k])
  {
    if k > 0 {
      RunInv(c, states, acts, k - 1);
      InvStep(c, states[k - 1], acts[k - 1]);
    }
  }

  // ----- results

  lemma {:induction false} EndGrows(c: Config, g: seq<int>, i: nat)
    requires c.Ok() && i < |g|
    ensures End(c, g) >= g[i] + (|g| - i) * c.interval
  {
    var h := g[..|g| - 1];
    if i < |h| {
      EndGrows(c, h, i);
      assert (|g| - i) * c.interval == (|h| - i) * c.interval + c.interval;
    }
  }

  /** The word is the latest finish time that some grant and its successors imply, and no later. */
  lemma {:induction false} EndAttained(c: Config, g: seq<int>) returns (i: nat)
    requires c.Ok() && g != [] && forall k :: 0 <= k < |g| ==> g[k] >= 0
    ensures i < |g| && End(c, g) == g[i] + (|g| - i) * c.interval
  {
    var h := g[..|g| - 1];
    if h != [] && End(c, h) > g[|g| - 1] {
      i := EndAttained(c, h);
      assert (|g| - i) * c.interval == (|h| - i) * c.interval + c.interval;
    } else {
      i := |g| - 1;
    }
  }

  /** The bound over the grants from i to j, in the order they were made. */
  ghost predicate WindowOk(c: Config, g: seq<int>, i: nat, j: nat)
    requires i <= j < |g|
  {
    (j - i + 1) * c.interval <= g[j] - g[i] + c.burst * c.interval
  }

  /** One more grant at time now would overfill the stretch that starts at some earlier grant. */
  ghost predicate Overfull(c: Config, g: seq<int>, now: int) {
    exists i: nat :: i < |g| && !WindowOk(c, g + [now], i, |g|)
  }

  /**
   Under every interleaving and whatever order the callers' times arrive in, any stretch of
   grants fits in the time between its ends plus the burst.
   */
  lemma {:induction false} GrantsAreBounded(c: Config, states: seq<State>, acts: seq<Action>, k: nat, i: nat, j: nat)
    requires c.Ok() && IsRun(c, states, acts) && k <= |acts| && i <= j < |states[k].grants|
    ensures WindowOk(c, states[k].grants, i, j)
  {
    RunInv(c, states, acts, k);
    var g := states[k].grants;
    EndGrows(c, g[..j + 1], i);
    assert g[..j + 1][..j] == g[..j];
  }

  /**
   The limiter is as generous as that bound allows: a call the guard refuses could not have been
   granted without breaking it.
   */
  lemma {:induction false} RefusalsAreForced(c: Config, states: seq<State>, acts: seq<Action>, k: nat)
    requires c.Ok() && IsRun(c, states, acts) && k < |acts| && acts[k].Swap?
    requires var l := states[k].callers[acts[k].id]; Refuses(c, l.word, l.now)
    ensures Overfull(c, states[k].grants, states[k].callers[acts[k].id].now)
  {
    RunInv(c, states, acts, k);
    var l := states[k].callers[acts[k].id];
    assert CallerOk(c, states[k], l);
    RefusalOverfills(c, states[k].grants, l.seen, l.now);
  }

  lemma {:induction false} RefusalOverfills(c: Config, g: seq<int>, seen: nat, now: int)
    requires c.Ok() && seen <= |g| && forall k :: 0 <= k < |g| ==> g[k] >= 0
    requires now >= 0 && Refuses(c, End(c, g[..seen]), now)
    ensures Overfull(c, g, now)
  {
    BurstCovers(c);
    var i := EndAttained(c, g[..seen]);
    Monotone(seen - i, |g| - i, c.interval);
    assert (|g| - i + 1) * c.interval == (|g| - i) * c.interval + c.interval;
    assert !WindowOk(c, g + [now], i, |g|);
  }

  lemma {:induction false} BurstCovers(c: Config)
    requires c.Ok()
    ensures c.interval <= c.burst * c.interval
  {
  }

  lemma {:induction false} Monotone(a: int, b: int, x: int)
    requires a <= b && x >= 0
    ensures a * x <= b * x
  {
  }

  /** A call that gives up over contention lost to at least eight grants made while it ran. */
  lemma {:induction false} GivingUpMeansProgress(c: Config, states: seq<State>, acts: seq<Action>, k: nat)
    requires IsRun(c, states, acts) && k < |acts| && acts[k].Swap?
    requires var l := states[k].callers[acts[k].id];
      !Refuses(c, l.word, l.now) && states[k].end != l.word && l.tries + 1 == MAX_TRIES
    ensures states[k + 1].callers[acts[k].id] == Idle && states[k + 1].grants == states[k].grants
    ensures |states[k].grants| >= states[k].callers[acts[k].id].from + MAX_TRIES
  {
    RunInv(c, states, acts, k);
    var s := states[k];
    assert CallerOk(c, s, s.callers[acts[k].id]);
    assert s.grants[..|s.grants|] == s.grants;
  }

  /**
   A call that comes away with nothing had to: granting it would break the bound, or eight
   others were granted while it ran.
   */
  lemma {:induction false} DenialsAreForced(c: Config, states: seq<State>, acts: seq<Action>, k: nat)
    requires c.Ok() && IsRun(c, states, acts) && k < |acts|
    requires !states[k].callers[acts[k].id].Idle? && states[k + 1].callers[acts[k].id].Idle?
    requires states[k + 1].grants == states[k].grants
    ensures var l := states[k].callers[acts[k].id];
      Overfull(c, states[k].grants, l.now) || |states[k].grants| >= l.from + 8
  {
    hide Overfull, Refuses, Finish;
    var s := states[k];
    var l := s.callers[acts[k].id];
    assert states[k + 1] == Next(c, s, acts[k]);
    RunInv(c, states, acts, k);
    assert CallerOk(c, s, l);
    if Refuses(c, l.word, l.now) {
      RefusalsAreForced(c, states, acts, k);
    } else if l.tries + 1 == MAX_TRIES {
      GivingUpMeansProgress(c, states, acts, k);
    } else {
      assert l.tries + 1 > MAX_TRIES;
    }
  }
}
