/** Cutting a run window into spans of whole months, and what replaying the
    obligations span by span amounts to. */
module Schedule {
  import opened Words
  import opened Calendar
  import Sorting
  import Obligations

  datatype Window = Window(start: int, days: int) {
    function End(): int {
      start + days * DAY
    }
  }

  datatype Strategy = Strategy(monthsPerChunk: int, lookaheadDays: int) {
    predicate Valid() {
      monthsPerChunk > 0 && 0 <= lookaheadDays <= 60
    }
  }

  datatype Span = Span(index: nat, active: Window, lookahead: int, firstDay: int)

  datatype Result = Scheduled(spans: seq<Span>) | Rejected

  /** None when the gap is not a whole number of days. */
  function WholeDaysBetween(a: int, b: int): Option<int> {
    if (b - a) % DAY != 0 then None else Some((b - a) / DAY)
  }

  method Unpartitioned(run: Window) returns (spans: seq<Span>)
    ensures spans == if run.days <= 0 then [] else [Span(0, run, run.End(), 0)]
  {
    if run.days <= 0 {
      return [];
    }
    spans := [Span(0, run, run.End(), 0)];
  }

  // The start, the month boundaries inside, the end.
  predicate AreBounds(bounds: seq<int>, run: Window, m: int) {
    && |bounds| >= 2 && bounds[0] == run.start && bounds[|bounds| - 1] == run.End()
    && (forall i :: 0 < i < |bounds| - 1 ==> bounds[i] == Boundary(run, m, i) && run.start < bounds[i] < run.End())
    && Boundary(run, m, |bounds| - 1) >= run.End()
  }

  // The k-th month boundary after the window's own month.
  function Boundary(run: Window, m: int, k: int): int {
    MonthFirst(MonthOf(run.start) + k * m)
  }

  lemma ProductRises(m: int, j: int, k: int)
    requires m > 0 && j <= k
    ensures k * m - j * m >= k - j
  {
    var d := k - j;
    Distributes(j, d, m);
    AtLeast(d, m);
  }

  lemma Distributes(a: int, b: int, m: int)
    ensures (a + b) * m == a * m + b * m
  {
  }

  lemma AtLeast(d: int, m: int)
    requires d >= 0 && m > 0
    ensures d * m >= d
  {
    Distributes(d, 0, m);
  }

  lemma BoundariesRise(run: Window, m: int, j: int, k: int)
    requires m > 0 && j <= k
    ensures Boundary(run, m, j) + (k - j) * 28 * DAY <= Boundary(run, m, k)
  {
    hide MonthFirst, MonthOf;
    ProductRises(m, j, k);
    MonthFirstRises(MonthOf(run.start) + j * m, MonthOf(run.start) + k * m);
  }

  // No boundary but the window's own month start is at or before its start.
  lemma BoundariesAfterStart(run: Window, m: int, k: int)
    requires m > 0 && k > 0
    ensures run.start < Boundary(run, m, k)
  {
    hide MonthFirst, MonthOf;
    InMonth(run.start, MonthOf(run.start));
    ProductRises(m, 0, k);
    MonthFirstRises(MonthOf(run.start) + 1, MonthOf(run.start) + k * m);
  }

  method FutureBounds(run: Window, m: int) returns (bounds: seq<int>)
    requires m > 0 && run.days > 0
    ensures AreBounds(bounds, run, m)
  {
    hide MonthFirst, MonthOf, MonthStart, AddMonths;
    MonthStartIs(run.start);
    var anchor := MonthStart(run.start);
    bounds := [run.start];
    var k := 1;
    MonthFirstMoves(MonthOf(run.start), m);
    var next := AddMonths(anchor, k * m);
    while next < run.End()
      invariant k >= 1 && |bounds| == k && bounds[0] == run.start && next == Boundary(run, m, k)
      invariant forall i :: 0 < i < k ==> bounds[i] == Boundary(run, m, i) && run.start < bounds[i] < run.End()
      decreases run.End() - next
    {
      BoundariesAfterStart(run, m, k);
      if next > run.start {
        bounds := bounds + [next];
      }
      BoundariesRise(run, m, k, k + 1);
      k := k + 1;
      MonthFirstMoves(MonthOf(run.start), k * m);
      next := AddMonths(anchor, k * m);
    }
    bounds := bounds + [run.End()];
  }

  function SpanAt(bounds: seq<int>, i: nat, run: Window, s: Strategy): Span
    requires i + 1 < |bounds|
  {
    Span(i, Window(bounds[i], (bounds[i + 1] - bounds[i]) / DAY), Min(bounds[i + 1] + s.lookaheadDays * DAY, run.End()),
         (bounds[i] - run.start) / DAY)
  }

  // A window that starts off midnight cannot be cut at a midnight.
  predicate CutsUnevenly(run: Window, m: int) {
    run.start % DAY != 0 && Boundary(run, m, 1) < run.End()
  }

  lemma BoundaryAtMidnight(run: Window, m: int, k: int)
    ensures Boundary(run, m, k) % DAY == 0
  {
    hide MonthOf, DayNumber;
  }

  lemma BoundsAlign(bounds: seq<int>, run: Window, m: int)
    requires AreBounds(bounds, run, m) && m > 0 && run.days > 0
    ensures CutsUnevenly(run, m) <==> !Aligned(bounds, 0)
    ensures !CutsUnevenly(run, m) ==> forall i: nat :: i + 1 < |bounds| ==> Aligned(bounds, i) && (bounds[i] - run.start) % DAY == 0
  {
    hide Boundary;
    MultipleOfDay(run.start, run.days);
    BoundaryAtMidnight(run, m, 1);
    forall i: nat | 0 < i < |bounds| - 1 ensures bounds[i] % DAY == 0 {
      BoundaryAtMidnight(run, m, i);
    }
    if !CutsUnevenly(run, m) {
      forall i: nat | i + 1 < |bounds| ensures Aligned(bounds, i) && (bounds[i] - run.start) % DAY == 0 {
        GapAligns(bounds[i], bounds[i + 1], run.start % DAY);
        GapAligns(run.start, bounds[i], run.start % DAY);
      }
    } else if Aligned(bounds, 0) {
      GapUneven(bounds[0], bounds[1]);
    }
  }

  lemma GapAligns(a: int, b: int, r: int)
    requires a % DAY == r && b % DAY == r
    ensures (b - a) % DAY == 0
  {
  }

  lemma GapUneven(a: int, b: int)
    requires (b - a) % DAY == 0
    ensures a % DAY == b % DAY
  {
  }

  lemma MultipleOfDay(start: int, days: int)
    ensures (start + days * DAY - start) % DAY == 0 && (start + days * DAY) % DAY == start % DAY
  {
  }

  predicate Aligned(bounds: seq<int>, i: nat)
    requires i + 1 < |bounds|
  {
    (bounds[i + 1] - bounds[i]) % DAY == 0
  }

  ghost predicate Tiles(spans: seq<Span>, run: Window, s: Strategy) {
    exists bounds :: AreBounds(bounds, run, s.monthsPerChunk) && Cut(spans, bounds, run, s)
  }

  ghost predicate Cut(spans: seq<Span>, bounds: seq<int>, run: Window, s: Strategy) {
    && |spans| + 1 == |bounds|
    && forall i: nat :: i < |spans| ==> CutAt(spans[i], bounds, i, run, s)
  }

  predicate CutAt(span: Span, bounds: seq<int>, i: nat, run: Window, s: Strategy)
    requires i + 1 < |bounds|
  {
    Aligned(bounds, i) && (bounds[i] - run.start) % DAY == 0 && span == SpanAt(bounds, i, run, s)
  }

  /** Cuts the window at month boundaries. It is rejected for an invalid strategy,
      and when a window off midnight would have to be cut. */
  method Partition(run: Window, s: Strategy) returns (r: Result)
    ensures r == Rejected <==>
              s.monthsPerChunk <= 0 || s.lookaheadDays < 0 || s.lookaheadDays > 60 ||
              (run.days > 0 && CutsUnevenly(run, s.monthsPerChunk))
    ensures r.Scheduled? && run.days <= 0 ==> r.spans == []
    ensures r.Scheduled? && run.days > 0 ==> Tiles(r.spans, run, s)
  {
    hide AreBounds, CutsUnevenly, MonthFirst, MonthOf, Boundary;
    if !s.Valid() {
      return Rejected;
    }
    if run.days <= 0 {
      return Scheduled([]);
    }
    var bounds := FutureBounds(run, s.monthsPerChunk);
    AtLeastTwo(bounds, run, s.monthsPerChunk);
    BoundsAlign(bounds, run, s.monthsPerChunk);
    var spans: seq<Span> := [];
    for i := 0 to |bounds| - 1
      invariant |spans| == i && (i > 0 ==> Aligned(bounds, 0))
      invariant forall k: nat :: k < i ==> CutAt(spans[k], bounds, k, run, s)
    {
      var days := WholeDaysBetween(bounds[i], bounds[i + 1]);
      var firstDay := WholeDaysBetween(run.start, bounds[i]);
      if days == None || firstDay == None {
        return Rejected;
      }
      var ahead := bounds[i + 1] + s.lookaheadDays * DAY;
      spans := spans + [Span(i, Window(bounds[i], days.value), if ahead < run.End() then ahead else run.End(), firstDay.value)];
    }
    assert Cut(spans, bounds, run, s);
    r := Scheduled(spans);
  }

  lemma AtLeastTwo(bounds: seq<int>, run: Window, m: int)
    requires AreBounds(bounds, run, m)
    ensures |bounds| >= 2 && bounds[0] == run.start && bounds[|bounds| - 1] == run.End()
  {
  }

  // ---- What the spans are ----

  lemma BoundsRise(bounds: seq<int>, run: Window, m: int, i: int, j: int)
    requires AreBounds(bounds, run, m) && m > 0 && run.days > 0 && 0 <= i < j < |bounds|
    ensures bounds[i] < bounds[j]
  {
    hide Boundary;
    if 0 < i && j < |bounds| - 1 {
      BoundariesRise(run, m, i, j);
    }
  }

  /** Each span starts where the one before ends; they start and end with the
      window, have at least a day, start on chunk boundaries, number their first
      day from the window's start, and look ahead no further than its end. */
  lemma SpansTile(spans: seq<Span>, run: Window, s: Strategy)
    requires s.Valid() && run.days > 0 && Tiles(spans, run, s)
    ensures spans != [] && spans[0].active.start == run.start && spans[|spans| - 1].active.End() == run.End()
    ensures forall i: nat :: i < |spans| ==> SpanSound(spans[i], run, i)
    ensures forall i: nat :: i + 1 < |spans| ==>
              spans[i + 1].active.start == spans[i].active.End() == Boundary(run, s.monthsPerChunk, i + 1)
  {
    hide AreBounds, Boundary, Cut;
    var bounds :| AreBounds(bounds, run, s.monthsPerChunk) && Cut(spans, bounds, run, s);
    AtLeastTwo(bounds, run, s.monthsPerChunk);
    CutLength(spans, bounds, run, s);
    forall i: nat | i < |spans| ensures SpanFits(spans, bounds, run, i) {
      OneSpan(spans, bounds, run, s, i);
    }
    assert SpanFits(spans, bounds, run, 0) && SpanFits(spans, bounds, run, |spans| - 1);
    forall i: nat | i + 1 < |spans|
      ensures spans[i + 1].active.start == spans[i].active.End() == Boundary(run, s.monthsPerChunk, i + 1)
    {
      assert SpanFits(spans, bounds, run, i) && SpanFits(spans, bounds, run, i + 1);
      InnerBounds(bounds, run, s.monthsPerChunk, i + 1);
    }
    forall i: nat | i < |spans| ensures SpanSound(spans[i], run, i) {
      assert SpanFits(spans, bounds, run, i);
    }
  }

  predicate SpanSound(span: Span, run: Window, i: nat) {
    && span.index == i && span.active.days > 0
    && span.firstDay * DAY == span.active.start - run.start
    && span.active.End() <= span.lookahead <= run.End()
  }

  lemma CutLength(spans: seq<Span>, bounds: seq<int>, run: Window, s: Strategy)
    requires Cut(spans, bounds, run, s)
    ensures |bounds| == |spans| + 1
  {
  }

  predicate SpanFits(spans: seq<Span>, bounds: seq<int>, run: Window, i: nat)
    requires i < |spans| && |bounds| == |spans| + 1
  {
    && SpanSound(spans[i], run, i)
    && spans[i].active.start == bounds[i] && spans[i].active.End() == bounds[i + 1]
  }

  lemma OneSpan(spans: seq<Span>, bounds: seq<int>, run: Window, s: Strategy, i: nat)
    requires s.Valid() && run.days > 0 && AreBounds(bounds, run, s.monthsPerChunk) && Cut(spans, bounds, run, s)
    requires i < |spans| && |bounds| == |spans| + 1
    ensures SpanFits(spans, bounds, run, i)
  {
    hide AreBounds, Boundary;
    AtLeastTwo(bounds, run, s.monthsPerChunk);
    assert CutAt(spans[i], bounds, i, run, s);
    WholeDays(bounds[i + 1] - bounds[i]);
    WholeDays(bounds[i] - run.start);
    BoundsRise(bounds, run, s.monthsPerChunk, i, i + 1);
    if i + 1 < |bounds| - 1 {
      BoundsRise(bounds, run, s.monthsPerChunk, i + 1, |bounds| - 1);
    }
  }

  lemma WholeDays(n: int)
    requires n % DAY == 0
    ensures n / DAY * DAY == n && (n > 0 ==> n / DAY > 0)
  {
  }

  lemma InnerBounds(bounds: seq<int>, run: Window, m: int, i: nat)
    requires AreBounds(bounds, run, m) && 0 < i < |bounds| - 1
    ensures bounds[i] == Boundary(run, m, i)
  {
  }

  predicate Holds(span: Span, t: int) {
    span.active.start <= t < span.active.End()
  }

  /** Every instant of the window lies in exactly one span, and no other does. */
  lemma EachInstantOnce(spans: seq<Span>, run: Window, s: Strategy, t: int)
    requires s.Valid() && run.days > 0 && Tiles(spans, run, s)
    ensures (exists i: nat :: i < |spans| && Holds(spans[i], t)) <==> run.start <= t < run.start + 86400 * run.days
    ensures forall i: nat, j: nat :: i < j < |spans| ==> !(Holds(spans[i], t) && Holds(spans[j], t))
  {
    hide Tiles, Boundary;
    SpansTile(spans, run, s);
    InAscendingOrder(spans);
    if run.start <= t < run.End() {
      Finds(spans, t, |spans|);
    }
  }

  ghost predicate Contiguous(spans: seq<Span>) {
    && (forall i: nat :: i < |spans| ==> spans[i].active.days > 0)
    && forall i: nat :: i + 1 < |spans| ==> spans[i + 1].active.start == spans[i].active.End()
  }

  lemma {:induction false} InAscendingOrder(spans: seq<Span>)
    requires Contiguous(spans)
    ensures forall i: nat, j: nat :: i < j < |spans| ==> spans[i].active.End() <= spans[j].active.start
  {
    if spans != [] {
      var m := |spans| - 1;
      InAscendingOrder(spans[..m]);
      forall i: nat | i < m ensures spans[i].active.End() <= spans[m].active.start {
        if i < m - 1 {
          assert spans[..m][i].active.End() <= spans[..m][m - 1].active.start;
        }
      }
    }
  }

  lemma {:induction false} Finds(spans: seq<Span>, t: int, n: nat)
    requires Contiguous(spans) && 0 < n <= |spans| && spans[0].active.start <= t < spans[n - 1].active.End()
    ensures exists i: nat :: i < n && Holds(spans[i], t)
  {
    if t < spans[n - 1].active.start {
      Finds(spans, t, n - 1);
    } else {
      assert Holds(spans[n - 1], t);
    }
  }

  // ---- Replaying the obligations span by span ----

  function Replayed(spans: seq<Span>, emission: nat -> seq<Obligations.Event>, people: nat, n: nat): seq<Obligations.Event>
    requires n <= |spans|
  {
    if n == 0 then []
    else Replayed(spans, emission, people, n - 1) +
         Obligations.Regenerated(emission, people, spans[n - 1].active.start, spans[n - 1].active.End())
  }

  lemma {:induction false} ReplayedIsChunks(spans: seq<Span>, bounds: seq<int>, emission: nat -> seq<Obligations.Event>, people: nat, n: nat)
    requires n <= |spans| && |bounds| == |spans| + 1
    requires forall i: nat :: i < |spans| ==> bounds[i] == spans[i].active.start && bounds[i + 1] == spans[i].active.End()
    ensures Replayed(spans, emission, people, n) == Obligations.Chunks(emission, people, bounds, n)
  {
    hide Obligations.Regenerated;
    if n > 0 {
      ReplayedIsChunks(spans, bounds, emission, people, n - 1);
    }
  }

  /** Regenerating the obligations of each span in turn yields the whole stream
      of the run window, ties in their order. */
  lemma ReplayIsWhole(spans: seq<Span>, run: Window, s: Strategy, emission: nat -> seq<Obligations.Event>, people: nat)
    requires s.Valid() && run.days > 0 && Tiles(spans, run, s)
    ensures Replayed(spans, emission, people, |spans|) ==
              Sorting.Filter(Obligations.Materialised(emission, people), Obligations.Within(run.start, run.End()))
  {
    hide Tiles, Boundary, Obligations.Chunks, Obligations.Materialised, Replayed;
    SpansTile(spans, run, s);
    InAscendingOrder(spans);
    var bounds := seq(|spans| + 1, i requires 0 <= i <= |spans| => if i < |spans| then spans[i].active.start else run.End());
    ReplayedIsChunks(spans, bounds, emission, people, |spans|);
    assert Obligations.Ascending(bounds);
    Obligations.ChunksAreWhole(emission, people, bounds, |spans|);
  }
}
