/**
 How a new leap table becomes the one the engine obeys: approval, durable commit, activation.
 Saving replaces the cache file atomically but can fail before the rename, or after it with the
 directory not yet synced; the machine can lose power and the process can restart at any point.
 */
module LeapUpdater {
  import opened Basics
  import opened LeapTable

  const CHECKPOINT_INTERVAL: int := 900 * SECOND

  datatype Record = Record(obj: Object, accepted: int)

  /** The cache's content, as a value: what the daemon holds in memory and what a file holds. */
  datatype Image = Image(active: Option<Record>, pending: Option<Record>, utcBound: int, executed: int, lastCheck: int)

  function Held(r: Option<Record>): Option<Object> {
    if r.Some? then Some(r.value.obj) else None
  }

  /** The object nothing older may replace. */
  function Anchor(i: Image): Option<Object> {
    if i.pending.Some? then Held(i.pending) else Held(i.active)
  }

  /**
   `visible` is what a read returns now and `possible` what could be found after losing power.
   `synced` records what the last completed save wrote, or what the last loss of power left.
   */
  datatype Disk = Disk(visible: Image, synced: Image, possible: set<Image>)

  function Clean(i: Image): Disk {
    Disk(i, i, {i})
  }

  datatype EngineView = EngineView(active: Option<Object>, anchor: Option<Object>, approved: Option<Manifest>)

  /** `obeyed` records the tables put in force, in order and over all process lives, from the one the first start found. */
  datatype World = World(state: Image, dirty: bool, committed: bool, disk: Disk, engine: EngineView, obeyed: seq<Activation>)

  /** How a save ends: before the rename, after it but before the directory was synced, or well. */
  datatype Outcome = Failed | Half | Saved

  /** The engine's answer to a request: whether UTC, the armed leap and the context allow it, and at which bound. */
  datatype Ask = Ask(willing: bool, bound: int)

  /** One attempt to activate; an activation may take effect although the waiting updater never learns of it. */
  datatype Attempt = Attempt(approve: Ask, activate: Ask, acknowledged: bool, save: Outcome)

  /** The clock evidence the updater acts on. */
  datatype View = View(now: int, known: bool, utcBound: int, executed: int)

  /**
   `Checked` follows a publisher's answer.  A process starts again with `Restart(false)`;
   `Restart(true)` is a start that syncs the cache directory before it reads it, which the program
   does not do.
   */
  datatype Event =
    | Offer(obj: Object, view: View, approve: Ask, save: Outcome)
    | Retry(attempt: Attempt)
    | Persist(save: Outcome)
    | Checkpoint(view: View, force: bool)
    | Checked(view: View)
    | PowerLoss(image: Image)
    | Restart(syncs: bool)

  // ----- the steps

  /** The cache after an attempt to replace its content by i. */
  function WriteTo(d: Disk, i: Image, o: Outcome): Disk {
    match o
    case Failed => d
    case Half => Disk(i, d.synced, d.possible + {i})
    case Saved => Clean(i)
  }

  function Save(w: World, o: Outcome): World {
    w.(dirty := !o.Saved?, committed := w.committed || o.Saved?, disk := WriteTo(w.disk, w.state, o))
  }

  function MaxTime(v: View): int {
    MaxInt(v.utcBound, v.now)
  }

  predicate Allows(e: EngineView, o: Object, a: Ask) {
    a.willing && CheckUpdate(e.anchor, o, a.bound) == Accepted
  }

  /** The engine after a request to approve an object. */
  function Approve(e: EngineView, o: Object, a: Ask): EngineView {
    if Allows(e, o, a) then e.(approved := Some(o.manifest)) else e
  }

  /** It activates only what it allows and has approved. */
  predicate Engages(e: EngineView, o: Object, a: Ask) {
    Allows(e, o, a) && e.approved == Some(o.manifest)
  }

  function Engage(e: EngineView, o: Object, a: Ask): EngineView {
    if Engages(e, o, a) then EngineView(Some(o), Some(o), None) else e
  }

  /** The engine takes the pending object in this attempt. */
  predicate Takes(w: World, t: Attempt) {
    && w.state.pending.Some? && w.committed
    && Allows(w.engine, w.state.pending.value.obj, t.approve) && Allows(w.engine, w.state.pending.value.obj, t.activate)
  }

  /** The engine obeys the pending object from this bound on. */
  function Obey(w: World, bound: int): World
    requires w.state.pending.Some?
  {
    var o := w.state.pending.value.obj;
    w.(engine := EngineView(Some(o), Some(o), None), obeyed := w.obeyed + [Activation(o, bound)])
  }

  /** The pending record becomes the active one. */
  function Compacted(i: Image): Image {
    i.(active := i.pending, pending := None)
  }

  function Activate(w: World, t: Attempt): World {
    if Takes(w, t) then
      var w1 := Obey(w, t.activate.bound);
      if t.acknowledged then Save(w1.(state := Compacted(w.state)), t.save) else w1
    else if w.state.pending.Some? && w.committed then w.(engine := Approve(w.engine, w.state.pending.value.obj, t.approve))
    else w
  }

  /** The offer gets as far as being saved. */
  predicate Admitted(w: World, o: Object, v: View, approve: Ask) {
    && v.known && CheckUpdate(Anchor(w.state), o, MaxTime(v)) == Accepted && Allows(w.engine, o, approve)
    && !(w.state.active.Some? && w.state.pending.None? && w.state.active.value.obj.manifest == o.manifest)
  }

  /** Approved and held as pending, before the first attempt to save it. */
  function Pending(w: World, r: Record): World {
    w.(state := w.state.(pending := Some(r), utcBound := r.accepted), committed := false, dirty := true,
       engine := w.engine.(approved := Some(r.obj.manifest)))
  }

  function Install(w: World, o: Object, v: View, approve: Ask, save: Outcome): World {
    if Admitted(w, o, v, approve) then Save(Pending(w, Record(o, MaxTime(v))), save) else w
  }

  function Checkpointed(i: Image, v: View, force: bool): Image {
    var executed := v.executed > i.executed;
    var i1 := if executed then i.(executed := v.executed) else i;
    var expired := i.active.Some? && v.utcBound >= i.active.value.obj.table.expiry
                   && i.utcBound < i.active.value.obj.table.expiry;
    if v.utcBound > i.utcBound && (force || executed || expired || v.utcBound - i.utcBound >= CHECKPOINT_INTERVAL)
    then i1.(utcBound := v.utcBound) else i1
  }

  /** The date of the last answer, and with it the bound. */
  function CheckedAt(i: Image, v: View): Image {
    if v.known then i.(lastCheck := v.now, utcBound := MaxInt(i.utcBound, MaxTime(v))) else i
  }

  // ----- starting

  /** A stored record: accepted within the established UTC, at a time its own dates allow. */
  predicate RecordLoads(r: Option<Record>, utcBound: int) {
    r.None? || (r.value.accepted <= utcBound && CheckDates(r.value.obj.table, r.value.accepted) == Accepted)
  }

  /** A date that is absent, as zero, or within the bound. */
  predicate Dated(t: int, bound: int) {
    t == 0 || t <= bound
  }

  /** The checks a starting process makes of the cache it finds. */
  predicate Loads(i: Image) {
    && (i.active.Some? && i.pending.Some? ==>
          CheckUpdate(Some(i.active.value.obj), i.pending.value.obj, i.pending.value.accepted) == Accepted)
    && RecordLoads(i.active, i.utcBound) && RecordLoads(i.pending, i.utcBound)
    && Dated(i.executed, i.utcBound) && Dated(i.lastCheck, i.utcBound)
  }

  /** A process starting from an image takes whatever it holds for committed. */
  function Load(w: World, i: Image): World {
    w.(state := i, dirty := false, committed := true, engine := EngineView(Held(i.active), Anchor(i), None))
  }

  /** A cache that does not pass the checks starts no process. */
  predicate Enabled(w: World, e: Event) {
    && (e.PowerLoss? ==> e.image in w.disk.possible && Loads(e.image))
    && (e.Restart? ==> Loads(w.disk.visible))
  }

  function Next(w: World, e: Event): World
    requires Enabled(w, e)
  {
    match e
    case Offer(o, v, approve, save) => Install(w, o, v, approve, save)
    case Retry(t) => Activate(w, t)
    case Persist(save) => Save(w, save)
    case Checkpoint(v, force) =>
      var i := Checkpointed(w.state, v, force);
      w.(state := i, dirty := w.dirty || i != w.state)
    case Checked(v) => w.(state := CheckedAt(w.state, v), dirty := w.dirty || v.known)
    case PowerLoss(i) => Load(w.(disk := Clean(i)), i)
    case Restart(syncs) => Load(if syncs then w.(disk := Clean(w.disk.visible)) else w, w.disk.visible)
  }

  /** How the write that the event makes of the new state ends, if it makes one. */
  function Written(w: World, e: Event): Option<Outcome> {
    match e
    case Offer(o, v, approve, save) => if Admitted(w, o, v, approve) then Some(save) else None
    case Retry(t) => if Takes(w, t) && t.acknowledged then Some(t.save) else None
    case Persist(save) => Some(save)
    case _ => None
  }

  /** A save completes in this event, or the power is lost and what is left can no longer be. */
  predicate Completes(w: World, e: Event) {
    Written(w, e) == Some(Saved) || e.PowerLoss? || e == Restart(true)
  }

  /** The event ends with a table put in force. */
  predicate Activates(w: World, e: Event) {
    e.Retry? && Takes(w, e.attempt)
  }

  // ----- what the single steps are for

  /** What is approved is what is activated, once, and nothing the engine does not allow is either. */
  lemma ApprovalIsNeeded(e: EngineView, o: Object, a: Ask, b: Ask)
    ensures Allows(e, o, a) && Allows(e, o, b) ==> Engage(Approve(e, o, a), o, b) == EngineView(Some(o), Some(o), None)
    ensures !Allows(e, o, a) ==> Approve(e, o, a) == e && Engage(e, o, a) == e
    ensures e.approved != Some(o.manifest) ==> Engage(e, o, b) == e
  {
    hide CheckUpdate;
  }

  /**
   A table that both updater and engine accept, when both saves complete: it is put in force, held
   as active in memory and in the only image that can be found, and nothing is left to do.
   */
  lemma {:induction false} GoodTableIsObeyed(w: World, o: Object, v: View, approve: Ask, t: Attempt)
    requires Admitted(w, o, v, approve) && Allows(w.engine, o, t.approve) && Allows(w.engine, o, t.activate)
    requires t.acknowledged && t.save.Saved?
    ensures var w1 := Next(w, Offer(o, v, approve, Saved));
      var w2 := Next(w1, Retry(t));
      && w1.disk == Clean(w1.state) && w1.engine.active == w.engine.active && Anchor(w1.state) == Some(o)
      && w2.engine == EngineView(Some(o), Some(o), None) && w2.obeyed == w.obeyed + [Activation(o, t.activate.bound)]
      && w2.state.active == Some(Record(o, MaxTime(v))) && w2.state.pending.None? && w2.disk == Clean(w2.state)
      && !w2.dirty && w2.committed
  {
    hide CheckUpdate;
  }

  /**
   A checkpoint keeps the recorded bound less than a quarter of an hour behind the established one,
   behind no executed leap and on the right side of the active table's expiry; and it moves the
   bound for no other reason than these or when told to.
   */
  lemma CheckpointKeepsUp(i: Image, v: View, force: bool)
    ensures var j := Checkpointed(i, v, force);
      && j.executed == MaxInt(i.executed, v.executed) && j.utcBound >= i.utcBound && v.utcBound - j.utcBound < 900 * SECOND
      && (force || v.executed > i.executed ==> j.utcBound >= v.utcBound)
      && (i.active.Some? && v.utcBound >= i.active.value.obj.table.expiry ==> j.utcBound >= i.active.value.obj.table.expiry)
      && (j.utcBound != i.utcBound ==>
            && j.utcBound == v.utcBound
            && (force || v.executed > i.executed || v.utcBound >= i.utcBound + 900 * SECOND
                || (i.active.Some? && i.utcBound < i.active.value.obj.table.expiry <= v.utcBound)))
      && j == i.(executed := j.executed, utcBound := j.utcBound)
  {
  }

  /** An answer at a known time brings the bound up to that time at least, and one at an unknown time nothing. */
  lemma CheckedKeepsUp(i: Image, v: View)
    ensures var j := CheckedAt(i, v);
      && (v.known ==> j.lastCheck == v.now && j.utcBound >= i.utcBound && j.utcBound >= v.now && j.utcBound >= v.utcBound)
      && j.utcBound in {i.utcBound, v.now, v.utcBound} && (!v.known ==> j == i)
      && j == i.(lastCheck := j.lastCheck, utcBound := j.utcBound)
  {
  }

  /** A start finds nothing dated beyond the bound, and an empty cache always starts. */
  lemma LoadedIsWithinBound(i: Image)
    ensures Loads(i) ==>
      && (i.active.Some? ==> i.active.value.accepted <= i.utcBound && i.active.value.accepted < i.active.value.obj.table.expiry)
      && (i.pending.Some? ==> i.pending.value.accepted <= i.utcBound)
      && (i.executed > i.utcBound ==> i.executed == 0) && (i.lastCheck > i.utcBound ==> i.lastCheck == 0)
    ensures Loads(Image(None, None, i.utcBound, 0, 0))
  {
    hide CheckUpdate;
  }

  // ----- runs

  ghost predicate ImageFiled(book: Book, i: Image) {
    (i.active.Some? ==> Filed(book, i.active.value.obj)) && (i.pending.Some? ==> Filed(book, i.pending.value.obj))
  }

  ghost predicate Init(book: Book, w: World) {
    && w.disk == Clean(w.state) && w == Load(w, w.state) && Loads(w.state) && ImageFiled(book, w.state)
    && w.obeyed == if w.state.active.Some? then [Activation(w.state.active.value.obj, w.state.active.value.accepted)] else []
  }

  /** A step a run may take; every object offered is the one its manifest stands for. */
  ghost predicate IsStep(book: Book, w: World, e: Event, w': World) {
    Enabled(w, e) && w' == Next(w, e) && (e.Offer? ==> Filed(book, e.obj))
  }

  ghost predicate IsRun(book: Book, ws: seq<World>, es: seq<Event>) {
    |ws| == |es| + 1 && Init(book, ws[0]) && forall k :: 0 <= k < |es| ==> IsStep(book, ws[k], es[k], ws[k + 1])
  }

  // ----- what holds in every run

  predicate Holds(i: Image, o: Object) {
    Held(i.active) == Some(o) || Held(i.pending) == Some(o)
  }

  /** In every image that could be found after losing power. */
  ghost predicate Durable(d: Disk, o: Object) {
    forall i :: i in d.possible ==> Holds(i, o)
  }

  ghost predicate Below(a: Option<Object>, b: Option<Object>) {
    a.Some? ==> b.Some? && Succeeds(a.value, b.value)
  }

  ghost predicate FiledIf(book: Book, o: Option<Object>) {
    o.Some? ==> Filed(book, o.value)
  }

  /** A record was accepted when its table's dates allowed it. */
  predicate DatesOk(r: Option<Record>) {
    r.Some? ==> CheckDates(r.value.obj.table, r.value.accepted) == Accepted
  }

  ghost predicate ImageOk(book: Book, i: Image) {
    ImageFiled(book, i) && Below(Held(i.active), Anchor(i)) && DatesOk(i.active) && DatesOk(i.pending)
  }

  /** Anchors only move forward, from what the last completed save wrote to what a read returns. */
  ghost predicate DiskOk(book: Book, d: Disk) {
    && d.visible in d.possible && d.synced in d.possible
    && forall i :: i in d.possible ==>
         ImageOk(book, i) && Below(Anchor(d.synced), Anchor(i)) && Below(Anchor(i), Anchor(d.visible))
  }

  ghost predicate EngineOk(book: Book, e: EngineView, anchor: Option<Object>) {
    FiledIf(book, e.active) && FiledIf(book, e.anchor) && Below(e.active, e.anchor) && Below(e.anchor, anchor)
  }

  ghost predicate WorldOk(book: Book, w: World) {
    && ImageOk(book, w.state) && DiskOk(book, w.disk) && Below(Anchor(w.disk.visible), Anchor(w.state))
    && EngineOk(book, w.engine, Anchor(w.state))
  }

  lemma BelowTransitive(a: Option<Object>, b: Option<Object>, c: Option<Object>)
    requires Below(a, b) && Below(b, c)
    ensures Below(a, c)
  {
  }

  /** Every write an event makes is of the state it ends in, and only a start can change the disk otherwise. */
  lemma DiskStep(w: World, e: Event)
    requires Enabled(w, e)
    ensures Next(w, e).disk ==
      if e.PowerLoss? then Clean(e.image) else if e == Restart(true) then Clean(w.disk.visible)
      else if Written(w, e).Some? then WriteTo(w.disk, Next(w, e).state, Written(w, e).value) else w.disk
  {
    hide CheckUpdate, Loads, Checkpointed, CheckedAt;
  }

  /** Only an admitted offer changes the anchor of a process that lives on. */
  lemma AnchorStep(w: World, e: Event)
    requires Enabled(w, e) && !e.PowerLoss? && !e.Restart?
    ensures Anchor(Next(w, e).state) ==
      if e.Offer? && Admitted(w, e.obj, e.view, e.approve) then Some(e.obj) else Anchor(w.state)
  {
    hide CheckUpdate, Loads, WriteTo;
  }

  /** Writing an image whose anchor is no lower keeps the order of anchors. */
  lemma WriteKeeps(book: Book, d: Disk, i: Image, o: Outcome)
    requires DiskOk(book, d) && ImageOk(book, i) && Below(Anchor(d.visible), Anchor(i))
    ensures DiskOk(book, WriteTo(d, i, o)) && Below(Anchor(WriteTo(d, i, o).visible), Anchor(i))
  {
    hide ImageOk, Succeeds;
    var d' := WriteTo(d, i, o);
    forall j | j in d.possible ensures Below(Anchor(j), Anchor(i)) {
      BelowTransitive(Anchor(j), Anchor(d.visible), Anchor(i));
    }
    BelowTransitive(Anchor(d.synced), Anchor(d.visible), Anchor(i));
    BelowSelf(Anchor(i));
  }

  lemma BelowSelf(a: Option<Object>)
    ensures Below(a, a)
  {
  }

  lemma {:induction false} InitOk(book: Book, w: World)
    requires Init(book, w)
    ensures WorldOk(book, w)
  {
    hide Succeeds;
    LoadedOk(book, w.state);
    BelowSelf(Anchor(w.state));
    BelowSelf(Held(w.state.active));
  }

  /** An image that passes a start's checks has its parts in order. */
  lemma LoadedOk(book: Book, i: Image)
    requires ImageFiled(book, i) && Loads(i)
    ensures ImageOk(book, i)
  {
    if i.active.Some? && i.pending.Some? {
      AcceptedExactly(i.active.value.obj, i.pending.value.obj, i.pending.value.accepted);
    }
  }

  lemma AcceptedIsAbove(book: Book, anchor: Option<Object>, o: Object, now: int)
    requires FiledIf(book, anchor) && Filed(book, o) && CheckUpdate(anchor, o, now) == Accepted
    ensures Below(anchor, Some(o)) && CheckDates(o.table, now) == Accepted
  {
    if anchor.Some? { AcceptedExactly(anchor.value, o, now); }
  }

  /** The state an event leaves is in order, with an anchor no lower unless it starts a process. */
  lemma StateStep(book: Book, w: World, e: Event)
    requires WorldOk(book, w) && Enabled(w, e) && (e.Offer? ==> Filed(book, e.obj))
    ensures ImageOk(book, Next(w, e).state)
    ensures e.PowerLoss? || e.Restart? || Below(Anchor(w.state), Anchor(Next(w, e).state))
  {
    hide CheckUpdate, Loads, Filed, Succeeds, CheckDates, WriteTo, EngineOk;
    BelowSelf(Anchor(w.state));
    if e.Offer? && Admitted(w, e.obj, e.view, e.approve) {
      AcceptedIsAbove(book, Anchor(w.state), e.obj, MaxTime(e.view));
      BelowTransitive(Held(w.state.active), Anchor(w.state), Some(e.obj));
    } else if e.Retry? && Takes(w, e.attempt) {
      BelowSelf(Held(w.state.pending));
    }
  }

  lemma EngineStep(book: Book, w: World, e: Event)
    requires WorldOk(book, w) && Enabled(w, e) && (e.Offer? ==> Filed(book, e.obj))
    ensures EngineOk(book, Next(w, e).engine, Anchor(Next(w, e).state))
  {
    hide CheckUpdate, Loads, Filed, Succeeds, CheckDates, WriteTo;
    var w' := Next(w, e);
    StateStep(book, w, e);
    BelowSelf(Anchor(w'.state));
    if !e.PowerLoss? && !e.Restart? { BelowTransitive(w.engine.anchor, Anchor(w.state), Anchor(w'.state)); }
  }

  lemma {:induction false} StepOk(book: Book, w: World, e: Event)
    requires WorldOk(book, w) && Enabled(w, e) && (e.Offer? ==> Filed(book, e.obj))
    ensures WorldOk(book, Next(w, e))
  {
    hide CheckUpdate, Loads, ImageOk, Succeeds, WriteTo, Next, Anchor, EngineOk, Written;
    var w' := Next(w, e);
    DiskStep(w, e);
    StateStep(book, w, e);
    EngineStep(book, w, e);
    if e.PowerLoss? || e.Restart? {
      StartStep(w, e);
      BelowSelf(Anchor(w'.state));
    } else {
      BelowTransitive(Anchor(w.disk.visible), Anchor(w.state), Anchor(w'.state));
      if Written(w, e).Some? { WriteKeeps(book, w.disk, w'.state, Written(w, e).value); }
    }
  }

  lemma StartStep(w: World, e: Event)
    requires Enabled(w, e) && (e.PowerLoss? || e.Restart?)
    ensures var w' := Next(w, e); w'.state == w'.disk.visible && w' == Load(w', w'.disk.visible) && w'.obeyed == w.obeyed
    ensures Written(w, e).None?
    ensures e.Restart? ==> Next(w, e).disk.visible == w.disk.visible
  {
  }

  /** At every position of every run, anchors are in order. */
  lemma {:induction false} RunOk(book: Book, ws: seq<World>, es: seq<Event>, k: nat)
    requires IsRun(book, ws, es) && k < |ws|
    ensures WorldOk(book, ws[k])
  {
    hide WorldOk, Next, Enabled, Init;
    if k == 0 {
      InitOk(book, ws[0]);
    } else {
      RunOk(book, ws, es, k - 1);
      assert IsStep(book, ws[k - 1], es[k - 1], ws[k - 1 + 1]);
      StepOk(book, ws[k - 1], es[k - 1]);
    }
  }

  // ----- when a start may trust what it finds

  /** The last position up to k at which the cache could be only one thing: the first start, a completed save, a loss of power. */
  ghost function LastCertain(ws: seq<World>, es: seq<Event>, k: nat): (j: nat)
    requires |ws| == |es| + 1 && k <= |es|
    ensures j <= k && (j == 0 || Completes(ws[j - 1], es[j - 1])) && forall n :: j <= n < k ==> !Completes(ws[n], es[n])
  {
    if k == 0 || Completes(ws[k - 1], es[k - 1]) then k else LastCertain(ws, es, k - 1)
  }

  /** The pending object a start would find now was in the cache already when that was last certain. */
  ghost predicate Trustworthy(ws: seq<World>, es: seq<Event>, k: nat)
    requires |ws| == |es| + 1 && k <= |es|
  {
    var p := Held(ws[k].disk.visible.pending);
    p.Some? ==> Holds(ws[LastCertain(ws, es, k)].disk.visible, p.value)
  }

  lemma {:induction false} SyncedIsCertain(book: Book, ws: seq<World>, es: seq<Event>, k: nat)
    requires IsRun(book, ws, es) && k < |ws|
    ensures ws[k].disk.synced == ws[LastCertain(ws, es, k)].disk.visible
    ensures k == LastCertain(ws, es, k) ==> ws[k].disk == Clean(ws[k].disk.visible)
  {
    hide CheckUpdate, Loads, Written, Next;
    if k > 0 {
      assert IsStep(book, ws[k - 1], es[k - 1], ws[k - 1 + 1]);
      DiskStep(ws[k - 1], es[k - 1]);
      SyncedIsCertain(book, ws, es, k - 1);
    }
  }

  /** Since anchors only move forward, the last certain image decides for every image written after it. */
  lemma {:induction false} DurableExactly(book: Book, w: World, o: Object)
    requires WorldOk(book, w) && Held(w.disk.visible.pending) == Some(o)
    ensures Durable(w.disk, o) <==> Holds(w.disk.synced, o)
  {
    hide Succeeds, Filed, CheckDates, EngineOk;
    if Holds(w.disk.synced, o) {
      var a := Anchor(w.disk.synced);
      BelowSelf(Some(o));
      assert Below(Some(o), a);
      forall i | i in w.disk.possible ensures Holds(i, o) {
        BelowTransitive(Some(o), a, Anchor(i));
        SucceedsOnce(o, Anchor(i).value);
      }
    }
  }

  /**
   Over every run, what a start would find pending is durable if and only if it was in the cache
   already when a save last completed or power was last lost.
   */
  lemma {:induction false} TrustworthyExactly(book: Book, ws: seq<World>, es: seq<Event>, k: nat)
    requires IsRun(book, ws, es) && k < |ws|
    ensures Trustworthy(ws, es, k) <==>
      (ws[k].disk.visible.pending.Some? ==> Durable(ws[k].disk, ws[k].disk.visible.pending.value.obj))
  {
    hide WorldOk, Durable, Holds, IsRun, Init;
    RunOk(book, ws, es, k);
    SyncedIsCertain(book, ws, es, k);
    if ws[k].disk.visible.pending.Some? { DurableExactly(book, ws[k], ws[k].disk.visible.pending.value.obj); }
  }

  /** Every start that does not sync the directory finds a trustworthy cache. */
  ghost predicate SafeRun(book: Book, ws: seq<World>, es: seq<Event>) {
    IsRun(book, ws, es) && forall k :: 0 <= k < |es| && es[k] == Restart(false) ==> Trustworthy(ws, es, k)
  }

  /** No image the disk could hold has an anchor below a table that was put in force. */
  ghost predicate Newest(book: Book, w: World) {
    forall n :: 0 <= n < |w.obeyed| ==>
      Filed(book, w.obeyed[n].obj) && forall i :: i in w.disk.possible ==> Below(Some(w.obeyed[n].obj), Anchor(i))
  }

  /** What counts as committed is durable. */
  ghost predicate CommitOk(w: World) {
    w.committed && w.state.pending.Some? ==> Durable(w.disk, w.state.pending.value.obj)
  }

  lemma WriteDurable(d: Disk, i: Image, o: Outcome, x: Object)
    requires Durable(d, x) && Holds(i, x)
    ensures Durable(WriteTo(d, i, o), x)
  {
  }

  lemma {:induction false} CommitStep(w: World, e: Event)
    requires CommitOk(w) && Enabled(w, e)
    requires e == Restart(false) && w.disk.visible.pending.Some? ==> Durable(w.disk, w.disk.visible.pending.value.obj)
    ensures CommitOk(Next(w, e))
  {
    hide CheckUpdate, Loads, WriteTo;
    var w' := Next(w, e);
    DiskStep(w, e);
    if w'.committed && w'.state.pending.Some? {
      var x := w'.state.pending.value.obj;
      if Written(w, e).Some? {
        var o := Written(w, e).value;
        if o.Saved? { SavedHolds(w.disk, w'.state, x); } else { WriteDurable(w.disk, w'.state, o, x); }
      }
    }
  }

  lemma SavedHolds(d: Disk, i: Image, x: Object)
    requires Holds(i, x)
    ensures Durable(WriteTo(d, i, Saved), x)
  {
  }

  /** An object in every image is below every image's anchor. */
  lemma DurableIsBelow(book: Book, d: Disk, x: Object)
    requires DiskOk(book, d) && Durable(d, x)
    ensures forall i :: i in d.possible ==> Below(Some(x), Anchor(i))
  {
    hide Filed, CheckDates, Succeeds;
    BelowSelf(Some(x));
  }

  /** A table below everything on the disk stays so, and below what is written. */
  lemma {:induction false} BelowStep(book: Book, w: World, e: Event, x: Object)
    requires WorldOk(book, w) && Enabled(w, e) && (e.Offer? ==> Filed(book, e.obj))
    requires forall i :: i in w.disk.possible ==> Below(Some(x), Anchor(i))
    ensures forall i :: i in Next(w, e).disk.possible ==> Below(Some(x), Anchor(i))
  {
    hide CheckUpdate, Loads, ImageOk, Succeeds, Next, Anchor, EngineOk, Written;
    DiskStep(w, e);
    StateStep(book, w, e);
    if e.PowerLoss? || e.Restart? {
      StartStep(w, e);
    } else if Written(w, e).Some? {
      BelowTransitive(Some(x), Anchor(w.disk.visible), Anchor(w.state));
      BelowTransitive(Some(x), Anchor(w.state), Anchor(Next(w, e).state));
    }
  }

  lemma ObeyedStep(w: World, e: Event)
    requires Enabled(w, e)
    ensures Next(w, e).obeyed == w.obeyed +
      if Activates(w, e) then [Activation(w.state.pending.value.obj, e.attempt.activate.bound)] else []
  {
    hide CheckUpdate, Loads, WriteTo;
  }

  lemma {:induction false} NewestStep(book: Book, w: World, e: Event)
    requires WorldOk(book, w) && Newest(book, w) && CommitOk(w) && Enabled(w, e) && (e.Offer? ==> Filed(book, e.obj))
    ensures Newest(book, Next(w, e))
  {
    hide CheckUpdate, Loads, ImageOk, DiskOk, Next, Anchor, EngineOk, Written, Below, Durable, Filed;
    var w' := Next(w, e);
    ObeyedStep(w, e);
    forall n | 0 <= n < |w'.obeyed|
      ensures Filed(book, w'.obeyed[n].obj) && forall i :: i in w'.disk.possible ==> Below(Some(w'.obeyed[n].obj), Anchor(i))
    {
      var x := w'.obeyed[n].obj;
      if n < |w.obeyed| {
        assert w'.obeyed[n] == w.obeyed[n];
      } else {
        PendingFiled(book, w);
        DurableIsBelow(book, w.disk, x);
      }
      BelowStep(book, w, e, x);
    }
  }

  lemma PendingFiled(book: Book, w: World)
    requires WorldOk(book, w) && w.state.pending.Some?
    ensures Filed(book, w.state.pending.value.obj)
  {
  }

  lemma InitSafe(book: Book, w: World)
    requires Init(book, w)
    ensures CommitOk(w) && Newest(book, w)
  {
    hide Succeeds, Filed;
    LoadedOk(book, w.state);
  }

  /** Over every run whose starts may trust what they find, commitment means durability and no anchor falls back. */
  lemma {:induction false} SafeRunOk(book: Book, ws: seq<World>, es: seq<Event>, k: nat)
    requires SafeRun(book, ws, es) && k < |ws|
    ensures CommitOk(ws[k]) && Newest(book, ws[k])
  {
    hide WorldOk, Next, Enabled, Init, CommitOk, Newest, Durable, Trustworthy, LastCertain;
    if k == 0 {
      InitSafe(book, ws[0]);
    } else {
      SafeRunOk(book, ws, es, k - 1);
      RunOk(book, ws, es, k - 1);
      TrustworthyExactly(book, ws, es, k - 1);
      assert IsStep(book, ws[k - 1], es[k - 1], ws[k - 1 + 1]);
      CommitStep(ws[k - 1], es[k - 1]);
      NewestStep(book, ws[k - 1], es[k - 1]);
    }
  }

  /** A table that is put in force is in every image the machine could be left with. */
  lemma {:induction false} ActivatedIsDurable(book: Book, ws: seq<World>, es: seq<Event>, k: nat)
    requires SafeRun(book, ws, es) && k < |es| && Activates(ws[k], es[k])
    ensures Durable(ws[k].disk, ws[k].state.pending.value.obj)
  {
    SafeRunOk(book, ws, es, k);
  }

  /** Whatever is left of the cache, a start finds an anchor no older than any table put in force before. */
  lemma {:induction false} LoadedAnchorIsNewest(book: Book, ws: seq<World>, es: seq<Event>, k: nat, n: nat, i: Image)
    requires SafeRun(book, ws, es) && k < |ws| && n < |ws[k].obeyed| && i in ws[k].disk.possible
    ensures Anchor(i).Some? && Succeeds(ws[k].obeyed[n].obj, Anchor(i).value)
    ensures NoEarlier(ws[k].obeyed[n].obj.table, Anchor(i).value.table)
  {
    hide SafeRun, Filed;
    SafeRunOk(book, ws, es, k);
    assert Below(Some(ws[k].obeyed[n].obj), Anchor(i));
  }

  /** If every start synced the directory first, both would hold of every run. */
  lemma {:induction false} SyncingStartsNeedNoGuard(book: Book, ws: seq<World>, es: seq<Event>, k: nat)
    requires IsRun(book, ws, es) && Restart(false) !in es && k < |ws|
    ensures CommitOk(ws[k]) && Newest(book, ws[k])
  {
    hide IsRun, CommitOk, Newest;
    SafeRunOk(book, ws, es, k);
  }

  /**
   The guard is exact: after any run that leaves an untrustworthy cache, a restart can put the
   pending table in force, and the machine can still be left with an image that does not hold it
   and whose anchor, if it has one, is an older table.
   */
  lemma {:induction false} UntrustworthyRollsBack(book: Book, ws: seq<World>, es: seq<Event>)
    returns (ws': seq<World>, t: Attempt, i: Image)
    requires IsRun(book, ws, es) && !Trustworthy(ws, es, |es|) && Loads(ws[|es|].disk.visible)
    ensures ws < ws' && IsRun(book, ws', es + [Restart(false), Retry(t)]) && Activates(ws'[|es| + 1], Retry(t))
    ensures var o := ws[|es|].disk.visible.pending.value.obj; var w := ws'[|es| + 2];
      && ws[|es|].disk.visible.pending.Some? && w.engine.active == Some(o) && i in w.disk.possible && !Holds(i, o)
      && (Anchor(i).Some? ==> Succeeds(Anchor(i).value, o) && Anchor(i).value != o)
  {
    hide CheckUpdate, WorldOk, Trustworthy, Loads, Init, Filed;
    var w := ws[|es|];
    TrustworthyExactly(book, ws, es, |es|);
    var r := w.disk.visible.pending.value;
    RunOk(book, ws, es, |es|);
    i :| i in w.disk.possible && !Holds(i, r.obj);
    t := Attempt(Ask(true, r.accepted), Ask(true, r.accepted), false, Failed);
    var w1 := Next(w, Restart(false));
    SelfAccepted(book, w);
    var w2 := Next(w1, Retry(t));
    ws' := ws + [w1, w2];
    OlderImage(book, w, i, r.obj);
    Extends(book, ws, es, w1, Restart(false), w2, Retry(t));
  }

  lemma SelfAccepted(book: Book, w: World)
    requires WorldOk(book, w) && w.disk.visible.pending.Some?
    ensures var r := w.disk.visible.pending.value; CheckUpdate(Some(r.obj), r.obj, r.accepted) == Accepted
  {
  }

  lemma OlderImage(book: Book, w: World, i: Image, o: Object)
    requires WorldOk(book, w) && i in w.disk.possible && Held(w.disk.visible.pending) == Some(o) && !Holds(i, o)
    ensures Anchor(i).Some? ==> Succeeds(Anchor(i).value, o) && Anchor(i).value != o
  {
  }

  lemma {:induction false} Extends(book: Book, ws: seq<World>, es: seq<Event>, w1: World, e1: Event, w2: World, e2: Event)
    requires IsRun(book, ws, es) && IsStep(book, ws[|es|], e1, w1) && IsStep(book, w1, e2, w2)
    ensures IsRun(book, ws + [w1, w2], es + [e1, e2])
  {
    hide Init, IsStep;
    var us, ds := ws + [w1, w2], es + [e1, e2];
    forall k | 0 <= k < |ds| ensures IsStep(book, us[k], ds[k], us[k + 1]) {
      if k < |es| { assert IsStep(book, ws[k], es[k], ws[k + 1]); }
    }
  }

  // ----- when memory is ahead of the cache

  /** The event leaves something in memory that it has not seen safely into the cache. */
  predicate Disturbs(w: World, e: Event) {
    || Written(w, e) == Some(Failed) || Written(w, e) == Some(Half)
    || (e.Checkpoint? && Checkpointed(w.state, e.view, e.force) != w.state) || (e.Checked? && e.view.known)
  }

  /** Memory and cache are one again: a save completed, or a process started from what it found. */
  predicate Settles(w: World, e: Event) {
    Written(w, e) == Some(Saved) || e.PowerLoss? || e.Restart?
  }

  /** Event n left something behind that no event after it and before k has settled. */
  ghost predicate LeftUnwritten(ws: seq<World>, es: seq<Event>, n: nat, k: nat) {
    && n < k <= |es| < |ws| && Disturbs(ws[n], es[n])
    && forall m :: n < m < k ==> !Settles(ws[m], es[m])
  }

  /**
   Over every run a save is due exactly when something was left unwritten since memory and cache
   were last one, and when none is due a read of the cache returns what memory holds.
   */
  lemma {:induction false} SaveIsDueExactly(book: Book, ws: seq<World>, es: seq<Event>, k: nat)
    requires IsRun(book, ws, es) && k < |ws|
    ensures ws[k].dirty <==>
      exists n: nat :: LeftUnwritten(ws, es, n, k)
    ensures !ws[k].dirty ==> ws[k].disk.visible == ws[k].state
  {
    hide CheckUpdate, Loads, ImageFiled, Checkpointed, CheckedAt;
    if k > 0 {
      var w, e := ws[k - 1], es[k - 1];
      SaveIsDueExactly(book, ws, es, k - 1);
      assert IsStep(book, w, e, ws[k - 1 + 1]);
      DirtyStep(w, e);
      DiskStep(w, e);
      if Disturbs(w, e) {
        assert LeftUnwritten(ws, es, k - 1, k);
      } else if w.dirty && !Settles(w, e) {
        var n: nat :| LeftUnwritten(ws, es, n, k - 1);
        assert LeftUnwritten(ws, es, n, k);
      }
      if n: nat :| LeftUnwritten(ws, es, n, k) && n < k - 1 { assert LeftUnwritten(ws, es, n, k - 1); }
    }
  }

  lemma DirtyStep(w: World, e: Event)
    requires Enabled(w, e)
    ensures Next(w, e).dirty <==> Disturbs(w, e) || (w.dirty && !Settles(w, e))
    ensures !Disturbs(w, e) && !Settles(w, e) ==> Next(w, e).state == w.state && Next(w, e).disk == w.disk
    ensures Settles(w, e) ==> Next(w, e).disk.visible == Next(w, e).state
  {
    hide CheckUpdate, Loads;
  }

  /**
   A retry of the save that succeeds makes the cache certain and what is pending committed, so that
   the next attempt to activate it goes as the engine allows; one that fails leaves the save due.
   */
  lemma {:induction false} RetriedSaveCommits(book: Book, ws: seq<World>, es: seq<Event>, k: nat, t: Attempt)
    requires IsRun(book, ws, es) && k < |es| && es[k].Persist?
    ensures ws[k + 1].dirty <==> !es[k].save.Saved?
    ensures ws[k + 1].state == ws[k].state && ws[k + 1].engine == ws[k].engine
    ensures es[k].save.Saved? ==>
      && ws[k + 1].disk == Clean(ws[k].state) && LastCertain(ws, es, k + 1) == k + 1
      && (ws[k].state.pending.Some? ==>
            (Takes(ws[k + 1], t) <==>
              Allows(ws[k].engine, ws[k].state.pending.value.obj, t.approve) &&
              Allows(ws[k].engine, ws[k].state.pending.value.obj, t.activate)))
  {
    hide CheckUpdate, Loads;
    assert IsStep(book, ws[k], es[k], ws[k + 1]);
  }

  // ----- what becomes of the records

  /** This anchor is x or a successor of it, with the same records up to time t within x's coverage. */
  ghost predicate Carries(a: Option<Object>, x: Object, t: int) {
    a.Some? && Succeeds(x, a.value) && Agree(x.table, a.value.table, Cutoff(x.table, t))
  }

  ghost predicate AllCarry(w: World, x: Object, t: int) {
    Carries(Anchor(w.state), x, t) && forall i :: i in w.disk.possible ==> Carries(Anchor(i), x, t)
  }

  lemma FiledIdentify(book: Book, a: Object, b: Object)
    requires Filed(book, a) && Filed(book, b)
    ensures Identifies(a, b)
  {
  }

  lemma {:induction false} OfferCarries(book: Book, a: Object, o: Object, now: int, x: Object, t: int)
    requires Carries(Some(a), x, t) && Filed(book, a) && Filed(book, o)
    requires CheckUpdate(Some(a), o, now) == Accepted && t <= now
    ensures Carries(Some(o), x, t)
  {
    hide CheckUpdate, Filed, Past;
    FiledIdentify(book, a, o);
    AcceptedExactly(a, o, now);
    SucceedsTransitive(x, a, o);
    AgreeEarlier(a.table, o.table, Cutoff(x.table, t), Cutoff(a.table, now));
  }

  /** An event keeps what every anchor carries, unless it admits a table before time t. */
  lemma {:induction false} CarriesStep(book: Book, w: World, e: Event, x: Object, t: int)
    requires WorldOk(book, w) && Enabled(w, e) && (e.Offer? ==> Filed(book, e.obj)) && AllCarry(w, x, t)
    requires e.Offer? && Admitted(w, e.obj, e.view, e.approve) ==> t <= MaxTime(e.view)
    ensures AllCarry(Next(w, e), x, t)
  {
    hide CheckUpdate, Loads, Next, Anchor, EngineOk, Written, Carries, MaxTime, Filed, Succeeds, CheckDates, Allows;
    DiskStep(w, e);
    if e.PowerLoss? || e.Restart? {
      StartStep(w, e);
    } else {
      AnchorStep(w, e);
      if e.Offer? && Admitted(w, e.obj, e.view, e.approve) {
        AnchorFiled(book, w, x, t);
        OfferCarries(book, Anchor(w.state).value, e.obj, MaxTime(e.view), x, t);
      }
    }
  }

  lemma AnchorFiled(book: Book, w: World, x: Object, t: int)
    requires WorldOk(book, w) && Carries(Anchor(w.state), x, t)
    ensures Anchor(w.state).Some? && Filed(book, Anchor(w.state).value)
  {
  }

  /** When a table is put in force it is the anchor of every image. */
  lemma {:induction false} ActivationCarries(book: Book, w: World, e: Event, t: int)
    requires WorldOk(book, w) && CommitOk(w) && Activates(w, e)
    ensures AllCarry(w, w.state.pending.value.obj, t)
  {
    hide CheckUpdate, Filed, Succeeds, CheckDates, EngineOk, Past, Durable;
    var x := w.state.pending.value.obj;
    DurableIsBelow(book, w.disk, x);
    BelowSelf(Some(x));
    forall i | i in w.disk.possible ensures Anchor(i) == Some(x) {
      BelowTransitive(Anchor(i), Anchor(w.disk.visible), Anchor(w.state));
      SucceedsOnce(x, Anchor(i).value);
    }
  }

  /** No table was admitted before time t in the events from m on and before k. */
  ghost predicate NoneAdmittedBefore(ws: seq<World>, es: seq<Event>, m: nat, k: nat, t: int)
    requires |ws| == |es| + 1 && k <= |es|
  {
    forall n :: m <= n < k && es[n].Offer? && Admitted(ws[n], es[n].obj, es[n].view, es[n].approve) ==> t <= MaxTime(es[n].view)
  }

  lemma {:induction false} CarriedOn(book: Book, ws: seq<World>, es: seq<Event>, m: nat, k: nat, x: Object, t: int)
    requires IsRun(book, ws, es) && m <= k < |ws| && AllCarry(ws[m], x, t) && NoneAdmittedBefore(ws, es, m, k, t)
    ensures AllCarry(ws[k], x, t)
  {
    hide WorldOk, Next, Enabled, Init, AllCarry, Admitted, MaxTime;
    if m < k {
      CarriedOn(book, ws, es, m, k - 1, x, t);
      RunOk(book, ws, es, k - 1);
      assert IsStep(book, ws[k - 1], es[k - 1], ws[k - 1 + 1]);
      CarriesStep(book, ws[k - 1], es[k - 1], x, t);
    }
  }

  /** What every anchor carries is kept by the table put in force. */
  lemma {:induction false} CarriedKeeps(book: Book, w: World, e: Event, x: Object, t: int)
    requires WorldOk(book, w) && Activates(w, e) && AllCarry(w, x, t) && TableOk(x.table)
    ensures NoEarlier(x.table, w.state.pending.value.obj.table) && KeepsRecords(x.table, w.state.pending.value.obj.table, t)
  {
    hide Filed, KeepsRecords, Past, Allows;
    PendingTable(book, w);
    AgreeMeans(x.table, w.state.pending.value.obj.table, t);
  }

  /**
   Of any two tables put in force, over any number of process lives, the later one has no earlier
   dates, the same baseline, and the same records within the earlier one's coverage up to any time
   that no table in between was admitted before.
   */
  lemma {:induction false} LaterTablesAgree(book: Book, ws: seq<World>, es: seq<Event>, j: nat, k: nat, t: int)
    requires SafeRun(book, ws, es) && j < k < |es| && Activates(ws[j], es[j]) && Activates(ws[k], es[k])
    requires NoneAdmittedBefore(ws, es, j, k, t)
    ensures var x, y := ws[j].state.pending.value.obj.table, ws[k].state.pending.value.obj.table;
      NoEarlier(x, y) && KeepsRecords(x, y, t)
  {
    hide SafeRun, WorldOk, Filed, KeepsRecords, NoneAdmittedBefore, Past, Allows, AllCarry;
    SafeIsRun(book, ws, es);
    SafeRunOk(book, ws, es, j);
    RunOk(book, ws, es, j);
    RunOk(book, ws, es, k);
    ActivationCarries(book, ws[j], es[j], t);
    CarriedOn(book, ws, es, j, k, ws[j].state.pending.value.obj, t);
    PendingTable(book, ws[j]);
    CarriedKeeps(book, ws[k], es[k], ws[j].state.pending.value.obj, t);
  }

  /** The same of the table the first start found active, whatever it found pending beside it. */
  lemma {:induction false} FirstTableAgrees(book: Book, ws: seq<World>, es: seq<Event>, k: nat, t: int)
    requires IsRun(book, ws, es) && k < |es| && ws[0].state.active.Some? && Activates(ws[k], es[k])
    requires NoneAdmittedBefore(ws, es, 0, k, t) && (ws[0].state.pending.Some? ==> t <= ws[0].state.pending.value.accepted)
    ensures var x, y := ws[0].state.active.value.obj.table, ws[k].state.pending.value.obj.table;
      NoEarlier(x, y) && KeepsRecords(x, y, t)
  {
    hide WorldOk, Filed, KeepsRecords, NoneAdmittedBefore, Past, Allows, AllCarry;
    var x := ws[0].state.active.value.obj;
    StartCarries(book, ws[0], t);
    RunOk(book, ws, es, k);
    CarriedOn(book, ws, es, 0, k, x, t);
    CarriedKeeps(book, ws[k], es[k], x, t);
  }

  lemma {:induction false} StartCarries(book: Book, w: World, t: int)
    requires Init(book, w) && w.state.active.Some? && (w.state.pending.Some? ==> t <= w.state.pending.value.accepted)
    ensures AllCarry(w, w.state.active.value.obj, t) && TableOk(w.state.active.value.obj.table)
  {
    hide Past, CheckUpdate;
    var x := w.state.active.value.obj;
    assert Carries(Some(x), x, t);
    if w.state.pending.Some? {
      OfferCarries(book, x, w.state.pending.value.obj, w.state.pending.value.accepted, x, t);
    }
  }

  lemma SafeIsRun(book: Book, ws: seq<World>, es: seq<Event>)
    requires SafeRun(book, ws, es)
    ensures IsRun(book, ws, es)
  {
  }

  lemma PendingTable(book: Book, w: World)
    requires WorldOk(book, w) && w.state.pending.Some?
    ensures TableOk(w.state.pending.value.obj.table)
  {
  }

  /**
   At its activation a table keeps the records in effect of one that is or was in force if and only
   if the replacement rule, applied to those two, accepts it.  The engine applies the rule to its
   anchor, which after a start may be that very table.
   */
  lemma {:induction false} KeepsInForceExactly(book: Book, ws: seq<World>, es: seq<Event>, k: nat, x: Object)
    requires SafeRun(book, ws, es) && k < |es| && Activates(ws[k], es[k])
    requires ws[k].engine.active == Some(x) || exists n :: 0 <= n < |ws[k].obeyed| && ws[k].obeyed[n].obj == x
    ensures var r, bound := ws[k].state.pending.value.obj, es[k].attempt.activate.bound;
      KeepsRecords(x.table, r.table, bound) <==> CheckUpdate(Some(x), r, bound) == Accepted
  {
    hide SafeRun, Past, KeepsRecords, Durable;
    SafeIsRun(book, ws, es);
    var w, r, bound := ws[k], ws[k].state.pending.value.obj, es[k].attempt.activate.bound;
    RunOk(book, ws, es, k);
    SafeRunOk(book, ws, es, k);
    InForceBelow(book, w, x);
    AcceptedDates(w.engine.anchor, r, bound);
    KeepsExactly(x, r, bound);
  }

  lemma AcceptedDates(anchor: Option<Object>, r: Object, now: int)
    requires CheckUpdate(anchor, r, now) == Accepted
    ensures CheckDates(r.table, now) == Accepted
  {
  }

  lemma {:induction false} InForceBelow(book: Book, w: World, x: Object)
    requires WorldOk(book, w) && Newest(book, w)
    requires w.engine.active == Some(x) || exists n :: 0 <= n < |w.obeyed| && w.obeyed[n].obj == x
    ensures Filed(book, x) && Below(Some(x), Anchor(w.state))
  {
    hide Filed, Succeeds, CheckDates, CheckUpdate;
    if w.engine.active == Some(x) {
      BelowTransitive(Some(x), w.engine.anchor, Anchor(w.state));
    } else {
      BelowTransitive(Some(x), Anchor(w.disk.visible), Anchor(w.state));
    }
  }

  /** An engine that started without a pending table, or has activated since, always keeps them. */
  lemma {:induction false} KeepsWithoutPending(book: Book, ws: seq<World>, es: seq<Event>, k: nat)
    requires SafeRun(book, ws, es) && k < |es| && Activates(ws[k], es[k])
    requires ws[k].engine.active.Some? && ws[k].engine.anchor == ws[k].engine.active
    ensures KeepsRecords(ws[k].engine.active.value.table, ws[k].state.pending.value.obj.table, es[k].attempt.activate.bound)
  {
    hide SafeRun, KeepsRecords, CheckUpdate;
    SafeIsRun(book, ws, es);
    KeepsInForceExactly(book, ws, es, k, ws[k].engine.active.value);
  }

  /** Each table put in force passes the replacement rule against the one put in force before it. */
  ghost predicate KeptRun(book: Book, ws: seq<World>, es: seq<Event>) {
    SafeRun(book, ws, es) && forall k :: 0 <= k < |es| && Activates(ws[k], es[k]) && ws[k].obeyed != [] ==>
      CheckUpdate(Some(ws[k].obeyed[|ws[k].obeyed| - 1].obj), ws[k].state.pending.value.obj,
                  es[k].attempt.activate.bound) == Accepted
  }

  lemma {:induction false} KeptRunChains(book: Book, ws: seq<World>, es: seq<Event>, k: nat)
    requires KeptRun(book, ws, es) && k < |ws|
    ensures Chain(ws[k].obeyed)
  {
    hide CheckUpdate, Trustworthy, WorldOk, Loads, Next, Newest, Allows;
    if k > 0 {
      KeptRunChains(book, ws, es, k - 1);
      var w, w' := ws[k - 1], ws[k - 1 + 1];
      assert IsStep(book, w, es[k - 1], w');
      ObeyedStep(w, es[k - 1]);
      if Activates(w, es[k - 1]) && w.obeyed != [] {
        RunOk(book, ws, es, k - 1);
        SafeRunOk(book, ws, es, k - 1);
        LastIdentifies(book, w);
        ChainPush(w.obeyed, w'.obeyed[|w.obeyed|]);
      }
    }
  }

  lemma LastIdentifies(book: Book, w: World)
    requires WorldOk(book, w) && Newest(book, w) && w.obeyed != [] && w.state.pending.Some?
    ensures Identifies(w.obeyed[|w.obeyed| - 1].obj, w.state.pending.value.obj)
  {
  }

  /** Over every such run, any two tables put in force agree up to any time that no activation in between was made before. */
  lemma {:induction false} ObeyedKeepHistory(book: Book, ws: seq<World>, es: seq<Event>, k: nat, i: nat, j: nat, t: int)
    requires KeptRun(book, ws, es) && k < |ws| && i < j < |ws[k].obeyed| && AllAfter(ws[k].obeyed, i, j, t)
    ensures var x, y := ws[k].obeyed[i].obj.table, ws[k].obeyed[j].obj.table; NoEarlier(x, y) && KeepsRecords(x, y, t)
  {
    hide KeepsRecords, Trustworthy, WorldOk, Past;
    var c := ws[k].obeyed;
    KeptRunChains(book, ws, es, k);
    SafeRunOk(book, ws, es, k);
    ChainDates(c, i, j);
    ChainHistory(c, i, j, t);
    ObeyedTable(book, ws[k], i);
    ObeyedTable(book, ws[k], j);
    AgreeMeans(c[i].obj.table, c[j].obj.table, t);
  }

  lemma ObeyedTable(book: Book, w: World, n: nat)
    requires Newest(book, w) && n < |w.obeyed|
    ensures TableOk(w.obeyed[n].obj.table)
  {
    assert Filed(book, w.obeyed[n].obj);
  }

  // ----- whether the cache still loads

  /** Nothing recorded besides what is pending lies after time t. */
  predicate Reached(i: Image, t: int) {
    (i.active.Some? ==> i.active.value.accepted <= t) && Dated(i.executed, t) && Dated(i.lastCheck, t)
  }

  /**
   What keeps the cache loadable: an admitted table could also have replaced the active one, and is
   admitted no earlier than what is recorded; an executed leap lies within the bound.
   */
  predicate Orderly(w: World, e: Event) {
    match e
    case Offer(o, v, approve, _) =>
      Admitted(w, o, v, approve) ==>
        && (w.state.active.Some? ==> CheckUpdate(Some(w.state.active.value.obj), o, MaxTime(v)) == Accepted)
        && Reached(w.state, MaxTime(v))
    case Checkpoint(v, _) => v.executed > w.state.executed ==> Dated(v.executed, MaxInt(w.state.utcBound, v.utcBound))
    case _ => true
  }

  /** From a state that loads, an event leads to one that does if and only if it is orderly. */
  lemma {:induction false} OrderlyExactly(w: World, e: Event)
    requires Enabled(w, e) && Loads(w.state)
    ensures Loads(Next(w, e).state) <==> Orderly(w, e)
  {
    hide WriteTo, Past, Succeeds;
    if e.Offer? && Admitted(w, e.obj, e.view, e.approve) {
      AcceptedDates(Anchor(w.state), e.obj, MaxTime(e.view));
    }
  }

  /** Over every run of orderly events, every image a start could find passes its checks. */
  lemma {:induction false} CacheAlwaysLoads(book: Book, ws: seq<World>, es: seq<Event>, k: nat)
    requires IsRun(book, ws, es) && k < |ws| && forall n :: 0 <= n < |es| ==> Orderly(ws[n], es[n])
    ensures Loads(ws[k].state) && forall i :: i in ws[k].disk.possible ==> Loads(i)
  {
    hide Loads, Next, Orderly, Written, ImageFiled;
    if k > 0 {
      var w, e := ws[k - 1], es[k - 1];
      CacheAlwaysLoads(book, ws, es, k - 1);
      assert IsStep(book, w, e, ws[k - 1 + 1]);
      DiskStep(w, e);
      OrderlyExactly(w, e);
    }
  }

  // ----- runs that show the guards are needed

  const JUL_2015: int := 3_644_697_600
  const JUL_2016: int := 3_676_320_000
  const JAN_2017: int := 3_692_217_600
  const JUN_2017: int := 3_707_596_800

  const FIRST_LEAP := Transition(JUL_2015 * SECOND, Insert)
  const LAST_LEAP := Transition(JAN_2017 * SECOND, Insert)

  /** A table of these records, told from the others by its update date. */
  function Edition(updated: nat, ts: seq<Transition>): Object {
    Object(Manifest(updated, JUN_2017, [], 1), Table(JUN_2017 * SECOND, updated * SECOND, ts, SECOND, 10), [])
  }

  const A := Edition(JUL_2016, [FIRST_LEAP, LAST_LEAP])
  const P := Edition(JUL_2016 + 1, [FIRST_LEAP])
  const Q := Edition(JUL_2016 + 2, [FIRST_LEAP])
  const EDITIONS: Book := map[A.manifest := A, P.manifest := P, Q.manifest := Q]

  const BEFORE: int := (JUL_2016 + 60) * SECOND
  const AFTER: int := (JAN_2017 + 1) * SECOND

  /** An offer made when UTC is known to be `now`, and approved. */
  function OfferAt(o: Object, now: int, save: Outcome): Event {
    Offer(o, View(now, true, now, 0), Ask(true, now), save)
  }

  function AttemptAt(now: int, save: Outcome): Attempt {
    Attempt(Ask(true, now), Ask(true, now), true, save)
  }

  /** The first start finds this image. */
  function Started(i: Image): World {
    World(i, false, true, Clean(i), EngineView(Held(i.active), Anchor(i), None),
          if i.active.Some? then [Activation(i.active.value.obj, i.active.value.accepted)] else [])
  }

  lemma EditionsFiled()
    ensures Filed(EDITIONS, A) && Filed(EDITIONS, P) && Filed(EDITIONS, Q)
  {
  }

  /** A restart after a save that got no further than the rename finds an untrustworthy cache. */
  lemma {:induction false} RestartCanRollBack() returns (ws: seq<World>, es: seq<Event>)
    ensures IsRun(EDITIONS, ws, es) && Loads(ws[|es|].disk.visible) && !Trustworthy(ws, es, |es|)
  {
    hide Past;
    EditionsFiled();
    var w := Started(Image(None, None, 0, 0, 0));
    var e := OfferAt(P, BEFORE, Half);
    ws, es := [w, Next(w, e)], [e];
    assert LastCertain(ws, es, 1) == LastCertain(ws, es, 0) == 0;
  }

  /** The table `P` drops a leap of `A` that is still to come, waits, and the process is restarted. */
  lemma {:induction false} PendingOverLeap() returns (ws: seq<World>, es: seq<Event>)
    ensures es == [OfferAt(P, BEFORE, Saved), Restart(false)] && SafeRun(EDITIONS, ws, es)
    ensures ws[0] == Started(Image(Some(Record(A, BEFORE)), None, BEFORE, 0, 0))
    ensures forall k :: 0 <= k < 2 ==> Orderly(ws[k], es[k])
    ensures ws[2].state == Image(Some(Record(A, BEFORE)), Some(Record(P, BEFORE)), BEFORE, 0, 0)
    ensures ws[2].committed && ws[2].engine == EngineView(Some(A), Some(P), None)
  {
    EditionsFiled();
    var w := Started(Image(Some(Record(A, BEFORE)), None, BEFORE, 0, 0));
    es := [OfferAt(P, BEFORE, Saved), Restart(false)];
    PastAt(A.table.transitions, 1, BEFORE);
    PastAt(P.table.transitions, 1, BEFORE);
    assert Admitted(w, P, es[0].view, es[0].approve);
    var w1 := Next(w, es[0]);
    var w2 := Next(w1, es[1]);
    ws := [w, w1, w2];
    assert LastCertain(ws, es, 1) == 1;
  }

  lemma {:induction false} SafePush(book: Book, ws: seq<World>, es: seq<Event>, e: Event)
    requires SafeRun(book, ws, es) && Enabled(ws[|es|], e) && !e.Restart? && (e.Offer? ==> Filed(book, e.obj))
    ensures SafeRun(book, ws + [Next(ws[|es|], e)], es + [e])
  {
    hide Init, IsStep, Next, Enabled, Holds, Completes;
    var us, ds := ws + [Next(ws[|es|], e)], es + [e];
    assert IsStep(book, ws[|es|], e, us[|es| + 1]) by { OneStep(book, ws[|es|], e); }
    forall k | 0 <= k < |ds| ensures IsStep(book, us[k], ds[k], us[k + 1]) {
      if k < |es| { assert IsStep(book, ws[k], es[k], ws[k + 1]); }
    }
    forall k | 0 <= k < |ds| && ds[k] == Restart(false) ensures Trustworthy(us, ds, k) {
      SamePast(ws, es, us, ds, k);
      assert Trustworthy(ws, es, k);
    }
  }

  lemma OneStep(book: Book, w: World, e: Event)
    requires Enabled(w, e) && (e.Offer? ==> Filed(book, e.obj))
    ensures IsStep(book, w, e, Next(w, e))
  {
  }

  lemma {:induction false} SamePast(ws: seq<World>, es: seq<Event>, us: seq<World>, ds: seq<Event>, k: nat)
    requires |ws| == |es| + 1 && |us| == |ds| + 1 && ws <= us && es <= ds && k <= |es|
    ensures LastCertain(us, ds, k) == LastCertain(ws, es, k)
  {
    hide Completes;
    if k > 0 { SamePast(ws, es, us, ds, k - 1); }
  }

  /**
   A leap that has taken effect is dropped: the waiting table was accepted before the leap, and
   after a restart it is measured against itself only.
   */
  lemma {:induction false} LeapCanBeDropped() returns (ws: seq<World>, es: seq<Event>)
    ensures SafeRun(EDITIONS, ws, es) && |es| == 3 && forall k :: 0 <= k < 3 ==> Orderly(ws[k], es[k])
    ensures Activates(ws[2], es[2]) && ws[2].engine.active == Some(A) && ws[3].engine.active == Some(P)
    ensures es[2].attempt.activate.bound == AFTER && !KeepsRecords(A.table, P.table, AFTER)
  {
    ws, es := PendingOverLeap();
    var e := Retry(AttemptAt(AFTER, Saved));
    assert CheckUpdate(Some(P), P, AFTER) == Accepted;
    SafePush(EDITIONS, ws, es, e);
    ws, es := ws + [Next(ws[2], e)], es + [e];
    assert LAST_LEAP in A.table.transitions && LAST_LEAP !in P.table.transitions;
  }

  /** And a table that replaces the waiting one leaves a cache that no start accepts. */
  lemma {:induction false} CacheCanBeRefused() returns (ws: seq<World>, es: seq<Event>)
    ensures SafeRun(EDITIONS, ws, es) && |es| == 3 && Orderly(ws[0], es[0]) && Orderly(ws[1], es[1])
    ensures forall i :: i in ws[3].disk.possible ==> !Loads(i)
  {
    ws, es := PendingOverLeap();
    EditionsFiled();
    var e := OfferAt(Q, AFTER, Saved);
    assert CheckUpdate(Some(P), Q, AFTER) == Accepted;
    PastAt(A.table.transitions, 2, AFTER);
    PastAt(Q.table.transitions, 1, AFTER);
    assert CheckUpdate(Some(A), Q, AFTER) != Accepted;
    SafePush(EDITIONS, ws, es, e);
    ws, es := ws + [Next(ws[2], e)], es + [e];
  }

  // ----- the updater itself

  /** Where replacing the cache file stops, if it does. */
  datatype Stage = Creating | Writing | Flushing | Renaming | SyncingDirectory | Nowhere

  function Ending(s: Stage): Outcome {
    match s
    case Nowhere => Saved
    case SyncingDirectory => Half
    case _ => Failed
  }

  /** A file: what was meant to be written, whether all of it was, and whether it has reached the disk. */
  datatype File = File(content: Image, whole: bool, flushed: bool)

  /** The cache directory: the file its one name leads to, and those it could lead to after losing power. */
  class Store {
    var entry: File
    var entries: set<File>
    ghost var synced: Image

    /** No loss of power can leave the name leading to a file that is not all there. */
    ghost predicate Valid()
      reads this
    {
      entry in entries && forall f :: f in entries ==> f.whole && f.flushed
    }

    ghost function Seen(): Disk
      reads this
    {
      Disk(entry.content, synced, set f | f in entries :: f.content)
    }

    constructor (i: Image)
      ensures Valid() && Seen() == Clean(i)
    {
      entry, entries, synced := File(i, true, true), {File(i, true, true)}, i;
    }

    /**
     Replaces the file, and may stop at any stage.  Wherever it does, what can be found later is a
     whole image: one that could be found before or the new one, and after the last stage only
     the new one.
     */
    method Write(i: Image, stop: Stage) returns (ok: bool)
      requires Valid()
      modifies this
      ensures Valid() && ok == stop.Nowhere? && Seen() == WriteTo(old(Seen()), i, Ending(stop))
    {
      ghost var before := Seen();
      if stop.Creating? { return false; }
      var temp := File(i, false, false);
      if stop.Writing? { return false; }
      temp := temp.(whole := true);
      if stop.Flushing? { return false; }
      temp := temp.(flushed := true);
      if stop.Renaming? { return false; }
      entry, entries := temp, entries + {temp};
      assert Seen().possible == before.possible + {i};
      if stop.SyncingDirectory? { return false; }
      entries, synced := {entry}, i;
      assert Seen().possible == {i};
      ok := true;
    }
  }

  class Updater {
    const store: Store
    var state: Image
    var dirty: bool
    var committed: bool
    var engine: EngineView
    ghost var obeyed: seq<Activation>

    ghost function Snapshot(): World
      reads this, store
    {
      World(state, dirty, committed, store.Seen(), engine, obeyed)
    }

    constructor (i: Image)
      ensures fresh(store) && store.Valid() && Snapshot().disk == Clean(i) && Snapshot() == Load(Snapshot(), i)
    {
      store := new Store(i);
      state, dirty, committed := i, false, true;
      engine := EngineView(Held(i.active), Anchor(i), None);
      obeyed := if i.active.Some? then [Activation(i.active.value.obj, i.active.value.accepted)] else [];
    }

    method SaveState(stop: Stage) returns (ok: bool)
      requires store.Valid()
      modifies this`dirty, this`committed, store
      ensures store.Valid() && ok == stop.Nowhere? && Snapshot() == Save(old(Snapshot()), Ending(stop))
    {
      ok := store.Write(state, stop);
      if !ok {
        dirty := true;
        return;
      }
      dirty := false;
      committed := true;
    }

    /** Asks the engine to approve an object. */
    method ApproveLeap(o: Object, a: Ask) returns (ok: bool)
      modifies this`engine
      ensures ok == Allows(old(engine), o, a) && engine == Approve(old(engine), o, a)
    {
      ok := a.willing && CheckUpdate(engine.anchor, o, a.bound) == Accepted;
      if ok { engine := engine.(approved := Some(o.manifest)); }
    }

    /** Asks the engine to activate what it approved. */
    method ActivateLeap(o: Object, a: Ask) returns (ok: bool)
      modifies this`engine, this`obeyed
      ensures ok == Engages(old(engine), o, a) && engine == Engage(old(engine), o, a)
      ensures obeyed == old(obeyed) + if ok then [Activation(o, a.bound)] else []
    {
      ok := a.willing && CheckUpdate(engine.anchor, o, a.bound) == Accepted && engine.approved == Some(o.manifest);
      if ok {
        engine := EngineView(Some(o), Some(o), None);
        obeyed := obeyed + [Activation(o, a.bound)];
      }
    }

    method TryActivate(t: Attempt, stop: Stage)
      requires store.Valid() && t.save == Ending(stop)
      modifies this, store
      ensures store.Valid() && Snapshot() == Activate(old(Snapshot()), t)
    {
      hide CheckUpdate, WriteTo, Ending, Store.Valid, Store.Seen;
      if state.pending.None? || !committed { return; }
      var r := state.pending.value;
      var ok := ApproveLeap(r.obj, t.approve);
      if !ok { return; }
      ok := ActivateLeap(r.obj, t.activate);
      if !ok || !t.acknowledged { return; }
      state := state.(active := Some(r), pending := None);
      dirty := true;
      ok := SaveState(stop);
    }

    /** Approval, durable commit, and only then activation: an offer, followed by an attempt if it was saved. */
    method TryInstall(o: Object, v: View, approve: Ask, stop: Stage, t: Attempt, compact: Stage)
      requires store.Valid() && t.save == Ending(compact)
      modifies this, store
      ensures store.Valid()
      ensures var w := Install(old(Snapshot()), o, v, approve, Ending(stop));
        Snapshot() == if Admitted(old(Snapshot()), o, v, approve) && stop.Nowhere? then Activate(w, t) else w
    {
      hide CheckUpdate, Activate, Save, WriteTo, Ending, Store.Valid, Store.Seen;
      if !v.known { return; }
      var now := v.now;
      if v.utcBound > now { now := v.utcBound; }
      if CheckUpdate(Anchor(state), o, now) != Accepted { return; }
      if state.active.Some? && state.pending.None? && state.active.value.obj.manifest == o.manifest { return; }
      var ok := ApproveLeap(o, approve);
      if !ok { return; }
      // Pending is kept from here on, so that no retry can fall back to a lower anchor.
      state := state.(pending := Some(Record(o, now)), utcBound := now);
      committed := false;
      dirty := true;
      assert Snapshot() == Pending(old(Snapshot()), Record(o, now));
      ok := SaveState(stop);
      if ok { TryActivate(t, compact); }
    }

    method TakeCheckpoint(v: View, force: bool)
      modifies this`state, this`dirty
      ensures Snapshot() == Next(old(Snapshot()), Checkpoint(v, force))
    {
      var executed := v.executed > state.executed;
      var expired := state.active.Some? && v.utcBound >= state.active.value.obj.table.expiry
                     && state.utcBound < state.active.value.obj.table.expiry;
      if executed {
        state := state.(executed := v.executed);
        dirty := true;
      }
      if v.utcBound > state.utcBound && (force || executed || expired || v.utcBound - state.utcBound >= CHECKPOINT_INTERVAL) {
        state := state.(utcBound := v.utcBound);
        dirty := true;
      }
    }

    method NoteChecked(v: View)
      modifies this`state, this`dirty
      ensures Snapshot() == Next(old(Snapshot()), Checked(v))
    {
      if v.known {
        state := state.(lastCheck := v.now);
        if v.utcBound > state.utcBound { state := state.(utcBound := v.utcBound); }
        if v.now > state.utcBound { state := state.(utcBound := v.now); }
        dirty := true;
      }
    }
  }
}
