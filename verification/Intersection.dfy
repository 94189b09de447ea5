/**
 The intersection algorithm of RFC 5905 section 11.2.1, as the selector runs it: sort the
 endpoints and midpoints of all correctness intervals, then, allowing ever more falsetickers,
 scan from both ends for the points that enough intervals cover.
 */
module Intersection {
  import opened Counting

  /** A candidate by its place in the list of sources: estimate, root distance and jitter.  Its correctness interval is current +- distance. */
  datatype Source = Source(id: nat, current: real, distance: real, jitter: real)

  /** t is -1 for a low endpoint, 0 for a midpoint and +1 for a high endpoint. */
  datatype Edge = Edge(v: real, t: int)

  datatype Outcome = NotFound | Found(allow: nat, low: real, high: real)

  // ----- what the algorithm is for

  ghost function Covers(x: real): Source -> bool {
    (s: Source) => s.current - s.distance <= x <= s.current + s.distance
  }

  ghost function MidBelow(x: real): Source -> bool {
    (s: Source) => s.current < x
  }

  ghost function MidAbove(x: real): Source -> bool {
    (s: Source) => s.current > x
  }

  predicate Overlaps(s: Source, low: real, high: real) {
    !(s.current + s.distance < low || s.current - s.distance > high)
  }

  /** The intervals share a point. */
  lemma OverlapsMeans(s: Source, low: real, high: real)
    requires s.distance >= 0.0 && low <= high
    ensures Overlaps(s, low, high) <==> exists x: real :: low <= x <= high && Covers(x)(s)
  {
    if Overlaps(s, low, high) {
      var x := if low >= s.current - s.distance then low else s.current - s.distance;
      assert low <= x <= high && Covers(x)(s);
    }
  }

  /** How many correctness intervals contain x. */
  ghost function Coverage(c: seq<Source>, x: real): nat {
    Count(c, Covers(x))
  }

  ghost predicate Least(c: seq<Source>, m: int, low: real) {
    Coverage(c, low) >= m && forall x :: Coverage(c, x) >= m ==> low <= x
  }

  ghost predicate Greatest(c: seq<Source>, m: int, high: real) {
    Coverage(c, high) >= m && forall x :: Coverage(c, x) >= m ==> x <= high
  }

  /** The interval an allowance of `allow` falsetickers admits. */
  ghost predicate Admits(c: seq<Source>, allow: nat, low: real, high: real) {
    && Least(c, |c| - allow, low) && Greatest(c, |c| - allow, high)
    && Count(c, MidBelow(low)) + Count(c, MidAbove(high)) <= allow
    && low < high
  }

  /** No interval is admitted under this allowance. */
  ghost predicate Barren(c: seq<Source>, allow: nat) {
    forall l, h :: !Admits(c, allow, l, h)
  }

  /** The interval of the smallest allowance below half that admits one; none if none does. */
  ghost predicate Selects(c: seq<Source>, o: Outcome) {
    match o
    case Found(allow, low, high) =>
      && 2 * allow < |c| && Admits(c, allow, low, high)
      && forall a: nat :: a < allow ==> Barren(c, a)
    case NotFound =>
      forall a: nat :: 2 * a < |c| ==> Barren(c, a)
  }

  // ----- edges

  predicate Before(a: Edge, b: Edge) {
    a.v < b.v || (a.v == b.v && a.t <= b.t)
  }

  ghost predicate Sorted(es: seq<Edge>) {
    forall i, j :: 0 <= i < j < |es| ==> Before(es[i], es[j])
  }

  ghost predicate SameCounts(a: seq<Edge>, b: seq<Edge>) {
    forall p: Edge -> bool :: Count(a, p) == Count(b, p)
  }

  function EdgesOf(c: seq<Source>): seq<Edge> {
    if c == [] then [] else [LowEdge(c[0]), MidEdge(c[0]), HighEdge(c[0])] + EdgesOf(c[1..])
  }

  function LowEdge(s: Source): Edge {
    Edge(s.current - s.distance, -1)
  }

  function MidEdge(s: Source): Edge {
    Edge(s.current, 0)
  }

  function HighEdge(s: Source): Edge {
    Edge(s.current + s.distance, 1)
  }

  ghost function IsMid(): Edge -> bool {
    (e: Edge) => e.t == 0
  }

  ghost function LowUpTo(x: real): Edge -> bool {
    (e: Edge) => e.t == -1 && e.v <= x
  }

  ghost function HighBelow(x: real): Edge -> bool {
    (e: Edge) => e.t == 1 && e.v < x
  }

  ghost function MidEdgeBelow(x: real): Edge -> bool {
    (e: Edge) => e.t == 0 && e.v < x
  }

  ghost function IsLow(): Edge -> bool {
    (e: Edge) => e.t == -1
  }

  ghost function IsHigh(): Edge -> bool {
    (e: Edge) => e.t == 1
  }

  ghost predicate NonNegative(c: seq<Source>) {
    forall i :: 0 <= i < |c| ==> c[i].distance >= 0.0
  }

  ghost predicate KindsOk(es: seq<Edge>) {
    forall i :: 0 <= i < |es| ==> -1 <= es[i].t <= 1
  }

  /** The running count of intervals entered and not yet left. */
  ghost function Chime(es: seq<Edge>): int {
    if es == [] then 0 else Chime(es[..|es| - 1]) - es[|es| - 1].t
  }

  function Insert(e: Edge, es: seq<Edge>): seq<Edge> {
    if es == [] || Before(e, es[0]) then [e] + es else [es[0]] + Insert(e, es[1..])
  }

  function SortEdges(es: seq<Edge>): seq<Edge> {
    if es == [] then [] else Insert(es[0], SortEdges(es[1..]))
  }

  lemma {:induction false} InsertCount(e: Edge, es: seq<Edge>, p: Edge -> bool)
    ensures Count(Insert(e, es), p) == Count(es, p) + if p(e) then 1 else 0
  {
    if es == [] || Before(e, es[0]) {
      assert ([e] + es)[1..] == es;
    } else {
      InsertCount(e, es[1..], p);
      assert ([es[0]] + Insert(e, es[1..]))[1..] == Insert(e, es[1..]);
    }
  }

  lemma {:induction false} InsertSorted(e: Edge, es: seq<Edge>)
    requires Sorted(es)
    ensures Sorted(Insert(e, es))
    ensures forall x :: x in Insert(e, es) ==> x == e || x in es
  {
    if es == [] || Before(e, es[0]) {
    } else {
      InsertSorted(e, es[1..]);
      var r := Insert(e, es[1..]);
      forall j | 0 <= j < |r| ensures Before(es[0], r[j]) {
        assert r[j] in r;
      }
    }
  }

  lemma {:induction false} SortEdgesOk(es: seq<Edge>)
    ensures Sorted(SortEdges(es)) && SameCounts(SortEdges(es), es)
  {
    if es != [] {
      SortEdgesOk(es[1..]);
      InsertSorted(es[0], SortEdges(es[1..]));
      forall p: Edge -> bool ensures Count(SortEdges(es), p) == Count(es, p) {
        InsertCount(es[0], SortEdges(es[1..]), p);
      }
    }
  }

  lemma {:induction false} ChimeCounts(es: seq<Edge>)
    requires KindsOk(es)
    ensures Chime(es) == Count(es, IsLow()) - Count(es, IsHigh())
  {
    if es != [] {
      var h, e := es[..|es| - 1], es[|es| - 1];
      ChimeCounts(h);
      assert es == h + [e];
      CountPush(h, e, IsLow());
      CountPush(h, e, IsHigh());
    }
  }

  lemma {:induction false} EdgeCounts(c: seq<Source>, x: real)
    requires NonNegative(c)
    ensures Coverage(c, x) == Count(EdgesOf(c), LowUpTo(x)) - Count(EdgesOf(c), HighBelow(x))
    ensures Count(c, MidBelow(x)) == Count(EdgesOf(c), MidEdgeBelow(x))
    ensures Count(EdgesOf(c), IsMid()) == |c|
  {
    if c != [] {
      EdgeCounts(c[1..], x);
      FirstEdges(c, LowUpTo(x));
      FirstEdges(c, HighBelow(x));
      FirstEdges(c, MidEdgeBelow(x));
      FirstEdges(c, IsMid());
    }
  }

  // ----- the upward scan

  /** es is a sorted arrangement of the edges of c. */
  ghost predicate Arranges(es: seq<Edge>, c: seq<Source>) {
    Sorted(es) && KindsOk(es) && NonNegative(c) && SameCounts(es, EdgesOf(c))
  }

  /** Everything the scan has passed when it has entered every interval that begins at or before x. */
  predicate Passed(e: Edge, x: real) {
    e.v < x || (e.v == x && e.t == -1)
  }

  lemma {:induction false} Cut(es: seq<Edge>, c: seq<Source>, x: real) returns (k: nat)
    requires Arranges(es, c)
    ensures k <= |es|
    ensures forall i :: 0 <= i < k ==> Passed(es[i], x)
    ensures forall i :: k <= i < |es| ==> !Passed(es[i], x)
    ensures Chime(es[..k]) == Coverage(c, x)
    ensures Count(es[..k], IsMid()) == Count(c, MidBelow(x))
  {
    k := 0;
    while k < |es| && Passed(es[k], x)
      invariant k <= |es| && forall i :: 0 <= i < k ==> Passed(es[i], x)
    {
      k := k + 1;
    }
    forall i | k <= i < |es| ensures !Passed(es[i], x) {
      if k < i { assert Before(es[k], es[i]); }
    }
    var a, b := es[..k], es[k..];
    assert es == a + b;
    ChimeCounts(a);
    CountSplit(a, b, LowUpTo(x), IsLow());
    CountSplit(a, b, HighBelow(x), IsHigh());
    CountSplit(a, b, MidEdgeBelow(x), IsMid());
    EdgeCounts(c, x);
  }

  lemma {:induction false} CountSplit(a: seq<Edge>, b: seq<Edge>, p: Edge -> bool, q: Edge -> bool)
    requires forall i :: 0 <= i < |a| ==> p(a[i]) == q(a[i])
    requires forall i :: 0 <= i < |b| ==> !p(b[i])
    ensures Count(a + b, p) == Count(a, q)
  {
    CountConcat(a, b, p);
    CountSame(a, p, q);
    CountNone(b, p);
  }

  /** i is the first edge at which the running count reaches m. */
  ghost predicate Reaches(es: seq<Edge>, m: int, i: nat) {
    && i < |es| && Chime(es[..i + 1]) >= m
    && forall j: nat :: j <= i ==> Chime(es[..j]) < m
  }

  /** The first edge that reaches m is the least point covered m times, with the midpoints before it counted. */
  lemma {:induction false} ReachIsLeast(es: seq<Edge>, c: seq<Source>, m: int, i: nat)
    requires Arranges(es, c) && Reaches(es, m, i)
    ensures Least(c, m, es[i].v)
    ensures Count(es[..i], IsMid()) == Count(c, MidBelow(es[i].v))
  {
    forall x | Coverage(c, x) >= m ensures es[i].v <= x {
      var k := Cut(es, c, x);
      assert k > i;
    }
    assert es[..i + 1][..i] == es[..i];
    assert Chime(es[..i]) < m;
    assert es[i].t == -1;
    var k := Cut(es, c, es[i].v);
    assert Passed(es[i], es[i].v);
    TailOfLows(es, i, k);
  }

  /** Edges between the reaching one and the cut at its value are further low endpoints there. */
  lemma {:induction false} TailOfLows(es: seq<Edge>, i: nat, k: nat)
    requires Sorted(es) && KindsOk(es) && i < k <= |es| && es[i].t == -1
    requires forall j :: 0 <= j < k ==> Passed(es[j], es[i].v)
    ensures Chime(es[..k]) >= Chime(es[..i + 1])
    ensures Count(es[..k], IsMid()) == Count(es[..i], IsMid())
    decreases k
  {
    assert es[..k] == es[..k - 1] + [es[k - 1]];
    assert es[..k][..k - 1] == es[..k - 1];
    CountPush(es[..k - 1], es[k - 1], IsMid());
    if i < k - 1 {
      assert Before(es[i], es[k - 1]);
      TailOfLows(es, i, k - 1);
    }
  }

  lemma {:induction false} NeverReached(es: seq<Edge>, c: seq<Source>, m: int)
    requires Arranges(es, c) && forall j: nat :: j <= |es| ==> Chime(es[..j]) < m
    ensures forall x :: Coverage(c, x) < m
  {
    forall x ensures Coverage(c, x) < m {
      var k := Cut(es, c, x);
    }
  }

  // ----- the downward scan is the upward scan of the mirror image

  function FlipEdge(e: Edge): Edge {
    Edge(-e.v, -e.t)
  }

  ghost function FlipSource(s: Source): Source {
    s.(current := -s.current)
  }

  ghost function Flipped(es: seq<Edge>): (r: seq<Edge>)
    ensures |r| == |es| && forall i :: 0 <= i < |r| ==> r[i] == FlipEdge(es[|es| - 1 - i])
  {
    seq(|es|, i requires 0 <= i < |es| => FlipEdge(es[|es| - 1 - i]))
  }

  ghost function Mirror(c: seq<Source>): (r: seq<Source>)
    ensures |r| == |c| && forall i :: 0 <= i < |r| ==> r[i] == FlipSource(c[i])
  {
    seq(|c|, i requires 0 <= i < |c| => FlipSource(c[i]))
  }

  ghost function AfterFlip(p: Edge -> bool): Edge -> bool {
    (e: Edge) => p(FlipEdge(e))
  }

  lemma {:induction false} FlippedCount(es: seq<Edge>, p: Edge -> bool)
    ensures Count(Flipped(es), p) == Count(es, AfterFlip(p))
  {
    if es != [] {
      FlippedCount(es[1..], p);
      assert Flipped(es) == Flipped(es[1..]) + [FlipEdge(es[0])];
      CountPush(Flipped(es[1..]), FlipEdge(es[0]), p);
    }
  }

  lemma {:induction false} MirrorEdgeCount(c: seq<Source>, p: Edge -> bool)
    ensures Count(EdgesOf(Mirror(c)), p) == Count(EdgesOf(c), AfterFlip(p))
  {
    if c != [] {
      var d, s := Mirror(c), c[0];
      assert d[1..] == Mirror(c[1..]);
      MirrorEdgeCount(c[1..], p);
      FirstEdges(c, AfterFlip(p));
      FirstEdges(d, p);
      assert d[0] == FlipSource(s);
      assert FlipEdge(LowEdge(s)) == HighEdge(d[0]);
      assert FlipEdge(MidEdge(s)) == MidEdge(d[0]);
      assert FlipEdge(HighEdge(s)) == LowEdge(d[0]);
    }
  }

  lemma {:induction false} FirstEdges(c: seq<Source>, p: Edge -> bool)
    requires c != []
    ensures Count(EdgesOf(c), p) == Count(EdgesOf(c[1..]), p) + (if p(LowEdge(c[0])) then 1 else 0)
      + (if p(MidEdge(c[0])) then 1 else 0) + (if p(HighEdge(c[0])) then 1 else 0)
  {
    var s := c[0];
    CountConcat([LowEdge(s), MidEdge(s), HighEdge(s)], EdgesOf(c[1..]), p);
    CountThree(LowEdge(s), MidEdge(s), HighEdge(s), p);
  }

  lemma {:induction false} CountThree(a: Edge, b: Edge, c: Edge, p: Edge -> bool)
    ensures Count([a, b, c], p) == (if p(a) then 1 else 0) + (if p(b) then 1 else 0) + (if p(c) then 1 else 0)
  {
    assert [a, b, c][1..] == [b, c] && [b, c][1..] == [c] && [c][1..] == [];
    assert Count([c], p) == if p(c) then 1 else 0;
    assert Count([b, c], p) == (if p(b) then 1 else 0) + Count([c], p);
  }

  lemma {:induction false} FlippedArranges(es: seq<Edge>, c: seq<Source>)
    requires Arranges(es, c)
    ensures Arranges(Flipped(es), Mirror(c))
  {
    forall p: Edge -> bool ensures Count(Flipped(es), p) == Count(EdgesOf(Mirror(c)), p) {
      FlippedCount(es, p);
      MirrorEdgeCount(c, p);
    }
  }

  lemma {:induction false} MirrorCounts(c: seq<Source>, x: real)
    ensures Coverage(Mirror(c), -x) == Coverage(c, x)
    ensures Count(Mirror(c), MidBelow(-x)) == Count(c, MidAbove(x))
  {
    if c != [] {
      assert Mirror(c)[1..] == Mirror(c[1..]);
      MirrorCounts(c[1..], x);
    }
  }

  lemma {:induction false} MirrorLeast(c: seq<Source>, m: int, low: real)
    requires Least(Mirror(c), m, low)
    ensures Greatest(c, m, -low)
  {
    MirrorCounts(c, -low);
    forall x | Coverage(c, x) >= m ensures x <= -low {
      MirrorCounts(c, x);
    }
  }

  // ----- the scans

  /** A scan for the count m over es found its first edge at `at`, or passed every edge. */
  ghost predicate Scanned(es: seq<Edge>, m: int, hit: bool, v: real, mids: nat, at: nat) {
    if hit then Reaches(es, m, at) && v == es[at].v && mids == Count(es[..at], IsMid())
    else mids == Count(es, IsMid()) && forall j: nat :: j <= |es| ==> Chime(es[..j]) < m
  }

  /** The same from the other end: a scan over the edges flipped about zero. */
  ghost predicate ScannedDown(es: seq<Edge>, m: int, hit: bool, v: real, mids: nat, at: nat) {
    Scanned(Flipped(es), m, hit, -v, mids, at)
  }

  lemma {:induction false} PrefixStep(es: seq<Edge>, i: nat)
    requires i < |es|
    ensures Chime(es[..i + 1]) == Chime(es[..i]) - es[i].t
    ensures Count(es[..i + 1], IsMid()) == Count(es[..i], IsMid()) + if es[i].t == 0 then 1 else 0
  {
    assert es[..i + 1] == es[..i] + [es[i]] && es[..i + 1][..i] == es[..i];
    CountPush(es[..i], es[i], IsMid());
  }

  /** A scan for the count m has passed the first i edges, with these counts so far. */
  ghost predicate Scanning(es: seq<Edge>, i: nat, m: int, chime: int, mids: nat) {
    && i <= |es| && chime == Chime(es[..i]) && mids == Count(es[..i], IsMid())
    && forall j: nat :: j <= i ==> Chime(es[..j]) < m
  }

  lemma ScanningNone(es: seq<Edge>, m: int)
    requires m >= 1
    ensures Scanning(es, 0, m, 0, 0)
  {
  }

  lemma {:induction false} ScanningStep(es: seq<Edge>, i: nat, m: int, chime: int, mids: nat)
    requires i < |es| && Scanning(es, i, m, chime, mids)
    ensures chime - es[i].t >= m ==> Scanned(es, m, true, es[i].v, mids, i)
    ensures chime - es[i].t < m ==> Scanning(es, i + 1, m, chime - es[i].t, mids + if es[i].t == 0 then 1 else 0)
  {
    hide Chime, Count;
    PrefixStep(es, i);
  }

  lemma ScanningAll(es: seq<Edge>, m: int, chime: int, mids: nat, v: real, at: nat)
    requires Scanning(es, |es|, m, chime, mids)
    ensures Scanned(es, m, false, v, mids, at)
  {
    assert es[..|es|] == es;
  }

  method ScanUp(es: seq<Edge>, m: int) returns (hit: bool, lo: real, mids: nat)
    requires m >= 1
    ensures exists at: nat :: Scanned(es, m, hit, lo, mids, at)
  {
    hide Scanning, Scanned;
    hit, lo, mids := false, 0.0, 0;
    var chime, i := 0, 0;
    ScanningNone(es, m);
    while i < |es|
      invariant 0 <= i <= |es| && Scanning(es, i, m, chime, mids)
    {
      var e := es[i];
      ScanningStep(es, i, m, chime, mids);
      chime := chime - e.t;
      if chime >= m {
        return true, e.v, mids;
      }
      if e.t == 0 { mids := mids + 1; }
      i := i + 1;
    }
    ScanningAll(es, m, chime, mids, lo, 0);
  }

  method ScanDown(es: seq<Edge>, m: int) returns (hit: bool, hi: real, mids: nat)
    requires m >= 1
    ensures exists at: nat :: ScannedDown(es, m, hit, hi, mids, at)
  {
    hide Scanning, Scanned, Flipped;
    hit, hi, mids := false, 0.0, 0;
    var chime, i := 0, |es|;
    ghost var fs := Flipped(es);
    ScanningNone(fs, m);
    while i > 0
      invariant 0 <= i <= |es| && Scanning(fs, |es| - i, m, chime, mids)
    {
      i := i - 1;
      var e := es[i];
      ghost var k := |es| - 1 - i;
      assert fs[k] == FlipEdge(e);
      ScanningStep(fs, k, m, chime, mids);
      chime := chime + e.t;
      if chime >= m {
        assert ScannedDown(es, m, true, e.v, mids, k);
        return true, e.v, mids;
      }
      if e.t == 0 { mids := mids + 1; }
    }
    ScanningAll(fs, m, chime, mids, -hi, 0);
    assert ScannedDown(es, m, false, hi, mids, 0);
  }

  lemma {:induction false} UpScanMeans(c: seq<Source>, es: seq<Edge>, m: int, hit: bool, v: real, mids: nat, at: nat)
    requires Arranges(es, c) && Scanned(es, m, hit, v, mids, at)
    ensures hit ==> Least(c, m, v) && mids == Count(c, MidBelow(v))
    ensures !hit ==> mids == |c| && forall x :: Coverage(c, x) < m
  {
    if hit {
      ReachIsLeast(es, c, m, at);
    } else {
      NeverReached(es, c, m);
      EdgeCounts(c, 0.0);
    }
  }

  lemma {:induction false} DownScanMeans(c: seq<Source>, es: seq<Edge>, m: int, hit: bool, v: real, mids: nat, at: nat)
    requires Arranges(es, c) && Scanned(Flipped(es), m, hit, -v, mids, at)
    ensures hit ==> Greatest(c, m, v) && mids == Count(c, MidAbove(v))
    ensures !hit ==> mids == |c| && forall x :: Coverage(c, x) < m
  {
    FlippedArranges(es, c);
    UpScanMeans(Mirror(c), Flipped(es), m, hit, -v, mids, at);
    if hit {
      MirrorLeast(c, m, -v);
      MirrorCounts(c, v);
    } else {
      forall x ensures Coverage(c, x) < m { MirrorCounts(c, x); }
    }
  }

  /** What one allowance's pair of scans decides. */
  lemma {:induction false} ScansDecide(c: seq<Source>, es: seq<Edge>, allow: nat, up: bool, lo: real, mids: nat, at: nat,
                                       down: bool, hi: real, mids': nat, at': nat)
    requires Arranges(es, c) && 2 * allow < |c|
    requires Scanned(es, |c| - allow, up, lo, mids, at)
    requires Scanned(Flipped(es), |c| - allow, down, -hi, mids', at')
    ensures if mids + mids' <= allow && hi > lo then Admits(c, allow, lo, hi) else Barren(c, allow)
  {
    UpScanMeans(c, es, |c| - allow, up, lo, mids, at);
    DownScanMeans(c, es, |c| - allow, down, hi, mids', at');
    BoundsDecide(c, allow, up, lo, mids, down, hi, mids');
  }

  lemma {:induction false} BoundsDecide(c: seq<Source>, allow: nat, up: bool, lo: real, mids: nat,
                                        down: bool, hi: real, mids': nat)
    requires 2 * allow < |c|
    requires if up then Least(c, |c| - allow, lo) && mids == Count(c, MidBelow(lo))
             else mids == |c| && forall x :: Coverage(c, x) < |c| - allow
    requires if down then Greatest(c, |c| - allow, hi) && mids' == Count(c, MidAbove(hi))
             else mids' == |c| && forall x :: Coverage(c, x) < |c| - allow
    ensures if mids + mids' <= allow && hi > lo then Admits(c, allow, lo, hi) else Barren(c, allow)
  {
    forall l, h | Admits(c, allow, l, h) ensures mids + mids' <= allow && hi > lo {
      if up && down {
        assert l == lo && h == hi;
      }
    }
  }

  /** Raises the allowance until an interval is admitted. */
  method FindInterval(c: seq<Source>) returns (o: Outcome)
    requires NonNegative(c)
    ensures Selects(c, o)
  {
    hide Scanned, Arranges, Admits, Barren;
    var n := |c|;
    var es := SortEdges(EdgesOf(c));
    SortedArranges(c);
    var allow := 0;
    while 2 * allow < n
      invariant forall a: nat :: a < allow ==> Barren(c, a)
    {
      var up, lo, mids := ScanUp(es, n - allow);
      var down, hi, mids' := ScanDown(es, n - allow);
      ghost var at: nat :| Scanned(es, n - allow, up, lo, mids, at);
      ghost var at': nat :| ScannedDown(es, n - allow, down, hi, mids', at');
      ScansDecide(c, es, allow, up, lo, mids, at, down, hi, mids', at');
      // Too many midpoints left outside: one candidate more is given up.
      if mids + mids' <= allow && hi > lo {
        return Found(allow, lo, hi);
      }
      allow := allow + 1;
    }
    o := NotFound;
  }

  /**
   Finds the intersection interval and the sources that overlap it, in their given order.
   Root distances are never negative.
   */
  method Intersect(c: seq<Source>) returns (o: Outcome, survivors: seq<Source>)
    requires NonNegative(c)
    ensures Selects(c, o)
    ensures survivors == if o.Found? then Overlapping(c, o.low, o.high) else []
  {
    o := FindInterval(c);
    survivors := [];
    if o.NotFound? { return; }
    for i := 0 to |c|
      invariant survivors == Overlapping(c[..i], o.low, o.high)
    {
      OverlappingPush(c[..i], c[i], o.low, o.high);
      assert c[..i + 1] == c[..i] + [c[i]];
      if !(c[i].current + c[i].distance < o.low || c[i].current - c[i].distance > o.high) {
        survivors := survivors + [c[i]];
      }
    }
    assert c[..|c|] == c;
  }

  ghost function Overlapping(c: seq<Source>, low: real, high: real): seq<Source> {
    if c == [] then []
    else (if Overlaps(c[0], low, high) then [c[0]] else []) + Overlapping(c[1..], low, high)
  }

  lemma {:induction false} OverlappingPush(c: seq<Source>, s: Source, low: real, high: real)
    ensures Overlapping(c + [s], low, high) == Overlapping(c, low, high) + if Overlaps(s, low, high) then [s] else []
  {
    if c == [] {
      assert [s][1..] == [];
    } else {
      assert (c + [s])[1..] == c[1..] + [s];
      OverlappingPush(c[1..], s, low, high);
    }
  }

  lemma {:induction false} SortedArranges(c: seq<Source>)
    requires NonNegative(c)
    ensures Arranges(SortEdges(EdgesOf(c)), c)
  {
    SortEdgesOk(EdgesOf(c));
    KindsOfEdges(c);
    SortKinds(EdgesOf(c));
  }

  lemma {:induction false} KindsOfEdges(c: seq<Source>)
    ensures KindsOk(EdgesOf(c))
  {
    if c != [] { KindsOfEdges(c[1..]); }
  }

  lemma {:induction false} SortKinds(es: seq<Edge>)
    requires KindsOk(es)
    ensures KindsOk(SortEdges(es))
  {
    if es != [] {
      SortKinds(es[1..]);
      SortEdgesOk(es[1..]);
      InsertSorted(es[0], SortEdges(es[1..]));
      forall i | 0 <= i < |SortEdges(es)| ensures -1 <= SortEdges(es)[i].t <= 1 {
        assert SortEdges(es)[i] in Insert(es[0], SortEdges(es[1..]));
      }
    }
  }

  // ----- results about the selected interval

  /** The outcome is determined by the candidates. */
  lemma {:induction false} SelectsOnce(c: seq<Source>, o: Outcome, o': Outcome)
    requires Selects(c, o) && Selects(c, o')
    ensures o == o'
  {
    assert o.Found? ==> !Barren(c, o.allow);
    assert o'.Found? ==> !Barren(c, o'.allow);
  }

  lemma {:induction false} AdmitsAlike(c: seq<Source>, d: seq<Source>, a: nat, l: real, h: real)
    requires multiset(c) == multiset(d) && |c| == |d| && Admits(c, a, l, h)
    ensures Admits(d, a, l, h)
  {
    forall x ensures Coverage(c, x) == Coverage(d, x) {
      CountPermutation(c, d, Covers(x));
    }
    CountPermutation(c, d, MidBelow(l));
    CountPermutation(c, d, MidAbove(h));
  }

  /** The order of the sources does not matter. */
  lemma {:induction false} OrderIndependent(c: seq<Source>, d: seq<Source>, o: Outcome)
    requires multiset(c) == multiset(d) && Selects(c, o)
    ensures Selects(d, o)
  {
    assert |c| == |multiset(c)| == |multiset(d)| == |d|;
    if o.Found? { AdmitsAlike(c, d, o.allow, o.low, o.high); }
    forall a: nat | Barren(c, a) ensures Barren(d, a) {
      forall l, h ensures !Admits(d, a, l, h) {
        if Admits(d, a, l, h) { AdmitsAlike(d, c, a, l, h); }
      }
    }
  }

  ghost function OverlapsBand(low: real, high: real): Source -> bool {
    (s: Source) => Overlaps(s, low, high)
  }

  lemma {:induction false} OverlappingCount(c: seq<Source>, low: real, high: real)
    ensures |Overlapping(c, low, high)| == Count(c, OverlapsBand(low, high))
  {
    if c != [] { OverlappingCount(c[1..], low, high); }
  }

  /**
   A successful intersection keeps a strict majority, leaves at most `allow` midpoints outside,
   and encloses every value that all but `allow` of the sources would accept.
   */
  lemma {:induction false} MajoritySurvives(c: seq<Source>, o: Outcome)
    requires Selects(c, o) && o.Found?
    ensures 2 * |Overlapping(c, o.low, o.high)| > |c|
    ensures |Overlapping(c, o.low, o.high)| >= |c| - o.allow
    ensures Count(c, MidBelow(o.low)) + Count(c, MidAbove(o.high)) <= o.allow
    ensures forall x :: Coverage(c, x) >= |c| - o.allow ==> o.low <= x <= o.high
  {
    OverlappingCount(c, o.low, o.high);
    CountImplies(c, Covers(o.low), OverlapsBand(o.low, o.high));
  }
}
