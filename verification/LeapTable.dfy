/**
 Leap-second tables and the rule by which one may replace another.  Times are whole nanoseconds
 on the UTC calendar scale, counted from the start of 1900; zero is the unset time.  Equal manifests
 stand for equal bytes, SHA-256 being taken as collision-free.
 */
module LeapTable {
  import opened Basics
  import opened Bytes

  const SECOND: int := 1_000_000_000
  const DAY: int := 86_400 * SECOND
  const FUTURE_SLACK: int := 300 * SECOND
  const MAX_COVERAGE: int := 400 * DAY

  datatype Leap = NoLeap | Insert | Delete | Unknown

  /** A leap second: when the new offset starts to apply, and which way it goes. */
  datatype Transition = Transition(at: int, leap: Leap)

  datatype Table = Table(expiry: int, updated: int, transitions: seq<Transition>, baseline: int, offset: int)

  /** Dates are seconds since 1900. */
  datatype Manifest = Manifest(updated: nat, expires: nat, digest: Bytes, size: nat)

  datatype Object = Object(manifest: Manifest, table: Table, data: Bytes)

  datatype Reason = Metadata | TimeUnknown | Expired | Date | Rollback | Conflict | History | Armed | Generation

  datatype Verdict = Accepted | Rejected(reason: Reason)

  // ----- reading a table

  /** One data line of a leap-seconds list: when an offset takes effect. */
  datatype Line = Line(at: int, offset: int)

  /** How many leap days there are up to the end of a year. */
  function LeapDays(year: nat): int {
    year / 4 - year / 100 + year / 400
  }

  /** The day on which a year starts, counted from the start of 1900. */
  function YearStart(year: nat): int
    requires year >= 1900
  {
    365 * (year - 1900) + LeapDays(year - 1) - LeapDays(1899)
  }

  /** The first of July. */
  function MidYear(year: nat): int
    requires year >= 1900
  {
    YearStart(year) + 181 + LeapDays(year) - LeapDays(year - 1)
  }

  /** Midnight on the first of January or July. */
  predicate StartsHalfYear(at: int) {
    exists year: nat | 1900 <= year <= 9999 :: at == YearStart(year) * DAY || at == MidYear(year) * DAY
  }

  ghost function DaysIn(year: nat): int {
    if year % 4 == 0 && (year % 100 != 0 || year % 400 == 0) then 366 else 365
  }

  /** The calendar is the Gregorian one: year after year, and January to June within a year. */
  lemma {:induction false} CalendarIsGregorian(year: nat)
    requires year >= 1900
    ensures YearStart(1900) == 0 && YearStart(year + 1) == YearStart(year) + DaysIn(year)
    ensures MidYear(year) == YearStart(year) + 31 + (DaysIn(year) - 337) + 31 + 30 + 31 + 30
    ensures year <= 9999 ==> StartsHalfYear(YearStart(year) * DAY) && StartsHalfYear(MidYear(year) * DAY)
  {
    LeapDayIn(year);
  }

  lemma LeapDayIn(year: nat)
    requires year > 0
    ensures LeapDays(year) == LeapDays(year - 1) + DaysIn(year) - 365
  {
    MultipleOf(year, 4);
    MultipleOf(year, 100);
    MultipleOf(year, 400);
    if year % 100 == 0 { assert year == 4 * (25 * (year / 100)); }
    if year % 400 == 0 { assert year == 100 * (4 * (year / 400)); }
  }

  lemma MultipleOf(n: nat, d: nat)
    requires n > 0 && d > 0
    ensures n / d - (n - 1) / d == if n % d == 0 then 1 else 0
  {
    var q, r := n / d, n % d;
    assert n == q * d + r;
    if r == 0 {
      assert (q - 1) * d == q * d - d;
      QuotientIs(n - 1, d, q - 1, d - 1);
    } else {
      QuotientIs(n - 1, d, q, r - 1);
    }
  }

  lemma QuotientIs(n: nat, d: int, q: int, r: nat)
    requires r < d && n == q * d + r
    ensures n / d == q
  {
    var x := n / d;
    OnlyZeroBetween(x - q, d);
    assert -d < (x - q) * d < d by {
      var y := n % d;
      assert (x - q) * d == x * d - q * d == r - y;
    }
  }

  /** The multiples of d other than zero are at least d away from it. */
  lemma OnlyZeroBetween(k: int, d: int)
    requires d > 0
    ensures k != 0 ==> k * d >= d || k * d <= -d
  {
    if k > 0 { assert (k - 1) * d >= 0; } else if k < 0 { assert (-k - 1) * d >= 0; }
  }

  predicate LineValid(l: Line) {
    1 <= l.offset <= 255 && StartsHalfYear(l.at)
  }

  lemma HalfYearIsMidnight(at: int)
    requires StartsHalfYear(at)
    ensures at % DAY == 0
  {
    hide YearStart, MidYear;
    var year: nat :| 1900 <= year <= 9999 && (at == YearStart(year) * DAY || at == MidYear(year) * DAY);
    WholeDays(if at == YearStart(year) * DAY then YearStart(year) else MidYear(year));
  }

  lemma WholeDays(n: int)
    ensures (n * DAY) % DAY == 0
  {
  }

  /** The later of two lines that follow each other: after it in time, one second more or less in offset. */
  predicate LineOk(prev: Line, cur: Line) {
    prev.at < cur.at && (cur.offset - prev.offset == 1 || cur.offset - prev.offset == -1)
  }

  ghost predicate LinesOk(lines: seq<Line>) {
    (forall l :: l in lines ==> LineValid(l)) && forall i :: 0 <= i < |lines| - 1 ==> LineOk(lines[i], lines[i + 1])
  }

  function TransitionTo(prev: Line, cur: Line): Transition {
    Transition(cur.at, if cur.offset == prev.offset + 1 then Insert else Delete)
  }

  /** ts are the transitions between the first k lines. */
  ghost predicate Between(ts: seq<Transition>, lines: seq<Line>, k: nat) {
    && 0 < k <= |lines| && |ts| == k - 1
    && forall i :: 0 <= i < k - 1 ==> LineOk(lines[i], lines[i + 1]) && ts[i] == TransitionTo(lines[i], lines[i + 1])
  }

  ghost predicate Increasing(ts: seq<Transition>) {
    forall i, j :: 0 <= i < j < |ts| ==> ts[i].at < ts[j].at
  }

  /** What every parsed table promises: ordered records at midnights after the baseline, all before expiry. */
  ghost predicate TableOk(t: Table) {
    && Increasing(t.transitions)
    && (forall i :: 0 <= i < |t.transitions| ==> t.baseline < t.transitions[i].at < t.expiry)
    && (forall x :: x in t.transitions ==> x.at % DAY == 0 && x.leap in {Insert, Delete})
    && (t.updated != 0 ==> t.updated < t.expiry)
  }

  lemma {:induction false} LinesIncrease(ts: seq<Transition>, lines: seq<Line>, i: nat, j: nat)
    requires Between(ts, lines, |lines|) && i < j < |lines|
    ensures lines[i].at < lines[j].at
  {
    assert LineOk(lines[j - 1], lines[j - 1 + 1]);
    if i < j - 1 { LinesIncrease(ts, lines, i, j - 1); }
  }

  lemma {:induction false} BuiltOk(t: Table, lines: seq<Line>)
    requires Between(t.transitions, lines, |lines|) && t.baseline == lines[0].at && t.expiry > lines[|lines| - 1].at
    requires (t.updated != 0 ==> t.updated < t.expiry) && forall l :: l in lines ==> LineValid(l)
    ensures TableOk(t)
  {
    var ts := t.transitions;
    forall i | 0 <= i < |ts| ensures t.baseline < ts[i].at < t.expiry {
      LinesIncrease(ts, lines, 0, i + 1);
      if i + 1 < |lines| - 1 { LinesIncrease(ts, lines, i + 1, |lines| - 1); }
    }
    forall i, j | 0 <= i < j < |ts| ensures ts[i].at < ts[j].at {
      LinesIncrease(ts, lines, i + 1, j + 1);
    }
    forall x | x in ts ensures x.at % DAY == 0 && x.leap in {Insert, Delete} {
      var i :| 0 <= i < |ts| && ts[i] == x;
      assert ts[i] == TransitionTo(lines[i], lines[i + 1]) && lines[i + 1] in lines;
      HalfYearIsMidnight(lines[i + 1].at);
    }
  }

  /**
   Builds the table from its data lines.  It succeeds exactly when there are two or more, they
   start half-years with offsets in range, are in order, and the expiry lies after the last of them
   and after the update date.
   */
  method Build(lines: seq<Line>, expiry: int, updated: int) returns (r: Option<Table>)
    ensures r.Some? <==>
      |lines| >= 2 && expiry > lines[|lines| - 1].at && (updated != 0 ==> expiry > updated) && LinesOk(lines)
    ensures r.Some? ==>
      && TableOk(r.value) && Between(r.value.transitions, lines, |lines|)
      && r.value == Table(expiry, updated, r.value.transitions, lines[0].at, lines[0].offset)
  {
    hide TableOk, StartsHalfYear;
    for i := 0 to |lines|
      invariant forall l :: l in lines[..i] ==> LineValid(l)
    {
      if lines[i].offset < 1 || lines[i].offset > 255 || !StartsHalfYear(lines[i].at) {
        assert lines[i] in lines;
        return None;
      }
      assert lines[..i + 1] == lines[..i] + [lines[i]];
    }
    assert lines[..|lines|] == lines;
    if |lines| < 2 || expiry <= lines[|lines| - 1].at || (updated != 0 && expiry <= updated) {
      return None;
    }
    var ts := [];
    for i := 1 to |lines|
      invariant Between(ts, lines, i)
    {
      var prev, cur := lines[i - 1], lines[i - 1 + 1];
      if cur.at <= prev.at {
        return None;
      }
      var delta := cur.offset - prev.offset;
      if delta == 1 {
        ts := ts + [Transition(cur.at, Insert)];
      } else if delta == -1 {
        ts := ts + [Transition(cur.at, Delete)];
      } else {
        return None;
      }
    }
    r := Some(Table(expiry, updated, ts, lines[0].at, lines[0].offset));
    BuiltOk(r.value, lines);
  }

  // ----- what a table says

  ghost function Shift(ts: seq<Transition>): int {
    if ts == [] then 0 else Shift(ts[..|ts| - 1]) + if ts[|ts| - 1].leap == Insert then 1 else -1
  }

  /** The offset of atomic time from UTC at a time the table covers. */
  ghost function OffsetAt(t: Table, time: int): int {
    t.offset + Shift(Past(t.transitions, time))
  }

  /** A built table gives, at every time from its baseline on, the offset of the last line in effect. */
  lemma {:induction false} BuiltGivesOffsets(t: Table, lines: seq<Line>, k: nat, time: int)
    requires Between(t.transitions, lines, |lines|) && t.offset == lines[0].offset
    requires k < |lines| && lines[k].at <= time && (k + 1 < |lines| ==> time < lines[k + 1].at)
    ensures OffsetAt(t, time) == lines[k].offset
  {
    var ts := t.transitions;
    forall i | 0 <= i < k ensures ts[i].at <= time {
      assert ts[i] == TransitionTo(lines[i], lines[i + 1]);
      if i + 1 < k { LinesIncrease(ts, lines, i + 1, k); }
    }
    if k < |ts| { assert ts[k] == TransitionTo(lines[k], lines[k + 1]); }
    PastAt(ts, k, time);
    ShiftOfLines(ts, lines, k);
  }

  lemma {:induction false} ShiftOfLines(ts: seq<Transition>, lines: seq<Line>, k: nat)
    requires Between(ts, lines, |lines|) && k < |lines|
    ensures Shift(ts[..k]) == lines[k].offset - lines[0].offset
  {
    if k > 0 {
      ShiftOfLines(ts, lines, k - 1);
      assert ts[..k][..k - 1] == ts[..k - 1];
      assert ts[k - 1] == TransitionTo(lines[k - 1], lines[k - 1 + 1]);
    }
  }

  /** Records are at least a day apart. */
  lemma RecordsApart(t: Table, i: nat, j: nat)
    requires TableOk(t) && i < j < |t.transitions|
    ensures t.transitions[i].at + DAY <= t.transitions[j].at
  {
    var a, b := t.transitions[i], t.transitions[j];
    assert a in t.transitions && b in t.transitions;
    MidnightsApart(a.at, b.at);
  }

  lemma MidnightsApart(a: int, b: int)
    requires a < b && a % DAY == 0 && b % DAY == 0
    ensures a + DAY <= b
  {
  }

  // ----- replacing a table

  /** The leading records that have taken effect by the cutoff. */
  function Past(ts: seq<Transition>, cutoff: int): (p: seq<Transition>)
    ensures p <= ts
  {
    if ts == [] || ts[0].at > cutoff then [] else [ts[0]] + Past(ts[1..], cutoff)
  }

  lemma {:induction false} PastAt(ts: seq<Transition>, i: nat, cutoff: int)
    requires i <= |ts| && (forall k :: 0 <= k < i ==> ts[k].at <= cutoff) && (i < |ts| ==> ts[i].at > cutoff)
    ensures Past(ts, cutoff) == ts[..i]
  {
    if i > 0 {
      PastAt(ts[1..], i - 1, cutoff);
      assert ts[..i] == [ts[0]] + ts[1..][..i - 1];
    }
  }

  method PastOf(ts: seq<Transition>, cutoff: int) returns (p: seq<Transition>)
    ensures p == Past(ts, cutoff)
  {
    var i := 0;
    while i < |ts| && ts[i].at <= cutoff
      invariant 0 <= i <= |ts| && forall k :: 0 <= k < i ==> ts[k].at <= cutoff
    {
      i := i + 1;
    }
    PastAt(ts, i, cutoff);
    p := ts[..i];
  }

  /** How far the old table's history binds its successor: to the present, within its own coverage. */
  function Cutoff(prior: Table, now: int): int {
    if now >= prior.expiry then prior.expiry - 1 else now
  }

  /** Dates and coverage of a table at time now, whatever it replaces. */
  function CheckDates(n: Table, now: int): Verdict {
    if now == 0 then Rejected(TimeUnknown)
    else if now >= n.expiry then Rejected(Expired)
    else if now < n.baseline || n.updated > now + FUTURE_SLACK || n.expiry > now + MAX_COVERAGE then Rejected(Date)
    else Accepted
  }

  /** May `next` replace `anchor` at time now? */
  function CheckUpdate(anchor: Option<Object>, next: Object, now: int): Verdict {
    var n := next.table;
    if CheckDates(n, now) != Accepted then CheckDates(n, now)
    else if anchor.None? || next.manifest == anchor.value.manifest then Accepted
    else
      var o := anchor.value.table;
      if n.updated < o.updated || n.expiry < o.expiry then Rejected(Rollback)
      else if n.updated == o.updated && n.expiry == o.expiry then Rejected(Conflict)
      else if n.baseline != o.baseline || n.offset != o.offset then Rejected(History)
      else if n.updated == o.updated && n.transitions != o.transitions then Rejected(History)
      else if Past(o.transitions, Cutoff(o, now)) != Past(n.transitions, Cutoff(o, now)) then Rejected(History)
      else Accepted
  }

  // ----- chains of replacements

  /** An object and the UTC bound at which it replaced its predecessor. */
  datatype Activation = Activation(obj: Object, bound: int)

  /** Equal manifests mean equal objects. */
  ghost predicate Identifies(a: Object, b: Object) {
    a.manifest == b.manifest ==> a == b
  }

  /** What each manifest stands for, the same throughout a run. */
  type Book = map<Manifest, Object>

  /** A parsed object, the one its manifest stands for. */
  ghost predicate Filed(book: Book, o: Object) {
    o.manifest in book && book[o.manifest] == o && TableOk(o.table)
  }

  ghost predicate Follows(a: Activation, b: Activation) {
    CheckUpdate(Some(a.obj), b.obj, b.bound) == Accepted && Identifies(a.obj, b.obj)
  }

  ghost predicate Chain(c: seq<Activation>) {
    forall i :: 0 <= i < |c| - 1 ==> Follows(c[i], c[i + 1])
  }

  lemma {:induction false} ChainPush(c: seq<Activation>, a: Activation)
    requires Chain(c) && (c != [] ==> Follows(c[|c| - 1], a))
    ensures Chain(c + [a])
  {
    hide Follows;
    var d := c + [a];
    forall i | 0 <= i < |d| - 1 ensures Follows(d[i], d[i + 1]) {
      if i < |c| - 1 { assert Follows(c[i], c[i + 1]); }
    }
  }

  /** A newer table never has earlier dates or another baseline. */
  ghost predicate NoEarlier(o: Table, n: Table) {
    o.updated <= n.updated && o.expiry <= n.expiry && o.baseline == n.baseline && o.offset == n.offset
  }

  /** Two tables agree on every record up to the cutoff. */
  ghost predicate Agree(o: Table, n: Table, cutoff: int) {
    Past(o.transitions, cutoff) == Past(n.transitions, cutoff)
  }

  /** What acceptance says of the two objects, whenever it was: the same one, or a later one with at most a longer life. */
  ghost predicate Succeeds(o: Object, n: Object) {
    || n == o
    || (&& NoEarlier(o.table, n.table) && !(n.table.updated == o.table.updated && n.table.expiry == o.table.expiry)
        && (n.table.updated == o.table.updated ==> n.table.transitions == o.table.transitions))
  }

  lemma SucceedsTransitive(a: Object, b: Object, c: Object)
    requires Succeeds(a, b) && Succeeds(b, c)
    ensures Succeeds(a, c)
  {
  }

  lemma SucceedsOnce(a: Object, b: Object)
    requires Succeeds(a, b) && Succeeds(b, a)
    ensures a == b
  {
  }

  /** Acceptance is the dates, the order of the two objects, and agreement on the records in effect. */
  lemma AcceptedExactly(o: Object, n: Object, now: int)
    requires Identifies(o, n)
    ensures CheckUpdate(Some(o), n, now) == Accepted <==>
      CheckDates(n.table, now) == Accepted && Succeeds(o, n) && Agree(o.table, n.table, Cutoff(o.table, now))
  {
  }

  lemma StepResult(a: Activation, b: Activation)
    requires Follows(a, b)
    ensures NoEarlier(a.obj.table, b.obj.table)
    ensures Agree(a.obj.table, b.obj.table, Cutoff(a.obj.table, b.bound))
  {
  }

  lemma {:induction false} PastOfPast(ts: seq<Transition>, c: int, d: int)
    requires c <= d
    ensures Past(Past(ts, d), c) == Past(ts, c)
  {
    if ts != [] && ts[0].at <= c {
      assert Past(ts, d)[1..] == Past(ts[1..], d);
      PastOfPast(ts[1..], c, d);
    }
  }

  lemma AgreeEarlier(o: Table, n: Table, c: int, d: int)
    requires Agree(o, n, d) && c <= d
    ensures Agree(o, n, c)
  {
    PastOfPast(o.transitions, c, d);
    PastOfPast(n.transitions, c, d);
  }

  /** Along any chain dates never decrease and the baseline never changes. */
  lemma {:induction false} ChainDates(c: seq<Activation>, i: nat, j: nat)
    requires Chain(c) && i <= j < |c|
    ensures NoEarlier(c[i].obj.table, c[j].obj.table)
  {
    if i < j {
      ChainDates(c, i, j - 1);
      assert Follows(c[j - 1], c[j - 1 + 1]);
      StepResult(c[j - 1], c[j]);
    }
  }

  /** No replacement from the i-th object to the j-th was made before time t. */
  ghost predicate AllAfter(c: seq<Activation>, i: nat, j: nat, t: int) {
    forall k :: i < k <= j && k < |c| ==> t <= c[k].bound
  }

  /**
   Every later table has the same leap records as an earlier one, up to the earlier one's
   coverage and any time that no replacement in between was made before.
   */
  lemma {:induction false} ChainHistory(c: seq<Activation>, i: nat, j: nat, t: int)
    requires Chain(c) && i < j < |c| && AllAfter(c, i, j, t)
    ensures Agree(c[i].obj.table, c[j].obj.table, Cutoff(c[i].obj.table, t))
    decreases j - i
  {
    assert Follows(c[i], c[i + 1]);
    StepResult(c[i], c[i + 1]);
    AgreeEarlier(c[i].obj.table, c[i + 1].obj.table, Cutoff(c[i].obj.table, t), Cutoff(c[i].obj.table, c[i + 1].bound));
    if i + 1 < j {
      ChainHistory(c, i + 1, j, t);
      AgreeEarlier(c[i + 1].obj.table, c[j].obj.table, Cutoff(c[i].obj.table, t), Cutoff(c[i + 1].obj.table, t));
    }
  }

  lemma {:induction false} PastHolds(ts: seq<Transition>, cutoff: int, x: Transition)
    requires Increasing(ts)
    ensures x in Past(ts, cutoff) <==> x in ts && x.at <= cutoff
  {
    if ts != [] {
      assert forall i :: 0 < i < |ts| ==> ts[0].at < ts[i].at;
      assert x in ts <==> x == ts[0] || x in ts[1..];
      if ts[0].at <= cutoff { PastHolds(ts[1..], cutoff, x); }
    }
  }

  /** Said of single records: none that had taken effect is ever dropped, moved or added. */
  lemma {:induction false} NoRetroactiveChange(c: seq<Activation>, i: nat, j: nat, x: Transition)
    requires Chain(c) && i < j < |c| && TableOk(c[i].obj.table) && TableOk(c[j].obj.table)
    requires AllAfter(c, i, j, x.at) && x.at < c[i].obj.table.expiry
    ensures x in c[i].obj.table.transitions <==> x in c[j].obj.table.transitions
  {
    ChainHistory(c, i, j, x.at);
    PastHolds(c[i].obj.table.transitions, x.at, x);
    PastHolds(c[j].obj.table.transitions, x.at, x);
  }

  /** Every record in effect at `now` within o's coverage is in both tables or in neither. */
  ghost predicate KeepsRecords(o: Table, n: Table, now: int) {
    forall x: Transition :: x.at <= now && x.at < o.expiry ==> (x in o.transitions <==> x in n.transitions)
  }

  lemma {:induction false} IncreasingOnce(s: seq<Transition>, t: seq<Transition>)
    requires Increasing(s) && Increasing(t) && forall x: Transition :: x in s <==> x in t
    ensures s == t
  {
    assert t == [] || t[0] in t;
    if s != [] {
      assert s[0] in t && t != [] && t[0] in s;
      FirstRecord(s, t[0]);
      FirstRecord(t, s[0]);
      forall x: Transition ensures x in s[1..] <==> x in t[1..] {
        TailRecord(s, x);
        TailRecord(t, x);
      }
      IncreasingOnce(s[1..], t[1..]);
      assert s == [s[0]] + s[1..] && t == [t[0]] + t[1..];
    }
  }

  lemma FirstRecord(s: seq<Transition>, x: Transition)
    requires Increasing(s) && x in s
    ensures s[0].at <= x.at && (x.at <= s[0].at ==> x == s[0])
  {
  }

  lemma TailRecord(s: seq<Transition>, x: Transition)
    requires Increasing(s) && s != []
    ensures x in s[1..] <==> x in s && x != s[0]
  {
  }

  /** Agreement up to the cutoff is agreement on every single record in effect. */
  lemma {:induction false} AgreeMeans(o: Table, n: Table, now: int)
    requires TableOk(o) && TableOk(n)
    ensures Agree(o, n, Cutoff(o, now)) <==> KeepsRecords(o, n, now)
  {
    var cut := Cutoff(o, now);
    forall x: Transition
      ensures x in Past(o.transitions, cut) <==> x in o.transitions && x.at <= cut
      ensures x in Past(n.transitions, cut) <==> x in n.transitions && x.at <= cut
    {
      PastHolds(o.transitions, cut, x);
      PastHolds(n.transitions, cut, x);
    }
    if KeepsRecords(o, n, now) {
      IncreasingOnce(Past(o.transitions, cut), Past(n.transitions, cut));
    }
  }

  /**
   A table that succeeds another, by whatever steps, keeps the records in effect if and only if
   the replacement rule would let it replace that one directly.
   */
  lemma {:induction false} KeepsExactly(o: Object, n: Object, now: int)
    requires Succeeds(o, n) && Identifies(o, n) && TableOk(o.table) && TableOk(n.table)
    requires CheckDates(n.table, now) == Accepted
    ensures CheckUpdate(Some(o), n, now) == Accepted <==> KeepsRecords(o.table, n.table, now)
  {
    AcceptedExactly(o, n, now);
    AgreeMeans(o.table, n.table, now);
  }
}
