/** Scheduled obligations: a stream that may keep only a range of instants, and
    the synthesis that replays every person to regenerate any range of it. */
module Obligations {
  import opened Words
  import opened Sorting

  datatype Event = Event(person: nat, timestamp: int, inflow: bool, counterparty: nat, amount: real,
                         channel: nat, product: nat, productId: nat)

  const BURDEN_MONTHS := 3

  predicate Earlier(a: Event, b: Event) {
    a.timestamp <= b.timestamp
  }

  predicate InRange(e: Event, start: int, end: int) {
    start <= e.timestamp < end
  }

  function Within(start: int, end: int): Event -> bool {
    e => InRange(e, start, end)
  }

  lemma EarlierOrders()
    ensures TotalPreorder(Earlier)
  {
  }

  // The index of the first event not before t, from a position on.
  function LowerBound(s: seq<Event>, t: int, from: nat): (i: nat)
    requires from <= |s|
    ensures from <= i <= |s|
    decreases |s| - from
  {
    if from < |s| && s[from].timestamp < t then LowerBound(s, t, from + 1) else from
  }

  lemma {:induction false} FilterNone(s: seq<Event>, p: Event -> bool)
    requires forall i :: 0 <= i < |s| ==> !p(s[i])
    ensures Filter(s, p) == []
  {
    if s != [] {
      FilterNone(s[1..], p);
    }
  }

  lemma {:induction false} FilterAll(s: seq<Event>, p: Event -> bool)
    requires forall i :: 0 <= i < |s| ==> p(s[i])
    ensures Filter(s, p) == s
  {
    if s != [] {
      FilterAll(s[1..], p);
      assert s == [s[0]] + s[1..];
    }
  }

  lemma {:induction false} LowerBoundSplits(s: seq<Event>, t: int, from: nat)
    requires Sorted(s, Earlier) && from <= |s|
    ensures forall k :: from <= k < LowerBound(s, t, from) ==> s[k].timestamp < t
    ensures forall k :: LowerBound(s, t, from) <= k < |s| ==> s[k].timestamp >= t
    decreases |s| - from
  {
    if from < |s| {
      if s[from].timestamp < t {
        LowerBoundSplits(s, t, from + 1);
      } else {
        assert forall k :: from <= k < |s| ==> k == from || Earlier(s[from], s[k]);
      }
    }
  }

  /** The two bounds of a sorted stream enclose exactly the events in range. */
  lemma BetweenIsFilter(s: seq<Event>, start: int, end: int)
    requires Sorted(s, Earlier)
    ensures var first := LowerBound(s, start, 0);
            s[first..LowerBound(s, end, first)] == Filter(s, Within(start, end))
  {
    hide LowerBound, Filter;
    var first := LowerBound(s, start, 0);
    var last := LowerBound(s, end, first);
    LowerBoundSplits(s, start, 0);
    LowerBoundSplits(s, end, first);
    assert s == s[..first] + (s[first..last] + s[last..]);
    MiddleOnly(s[..first], s[first..last], s[last..], Within(start, end));
  }

  lemma MiddleOnly(a: seq<Event>, b: seq<Event>, c: seq<Event>, p: Event -> bool)
    requires (forall i :: 0 <= i < |a| ==> !p(a[i])) && (forall i :: 0 <= i < |b| ==> p(b[i]))
    requires forall i :: 0 <= i < |c| ==> !p(c[i])
    ensures Filter(a + (b + c), p) == b
  {
    hide Filter;
    FilterConcat(a, b + c, p);
    FilterConcat(b, c, p);
    FilterNone(a, p);
    FilterAll(b, p);
    FilterNone(c, p);
  }

  // ---- Chunks ----

  /** Cutting a sorted stream at an instant loses and reorders nothing. */
  lemma {:induction false} CutAt(s: seq<Event>, start: int, mid: int, end: int)
    requires Sorted(s, Earlier) && start <= mid <= end
    ensures Filter(s, Within(start, end)) == Filter(s, Within(start, mid)) + Filter(s, Within(mid, end))
  {
    if s != [] {
      var rest := s[1..];
      assert Sorted(rest, Earlier);
      CutAt(rest, start, mid, end);
      if s[0].timestamp >= mid {
        forall i | 0 <= i < |rest| ensures !Within(start, mid)(rest[i]) {
          assert Earlier(s[0], s[i + 1]);
        }
        FilterNone(rest, Within(start, mid));
      }
    }
  }

  // The slices between consecutive bounds, one after the other.
  function Slices(s: seq<Event>, bounds: seq<int>, n: nat): seq<Event>
    requires n < |bounds|
  {
    if n == 0 then [] else Slices(s, bounds, n - 1) + Filter(s, Within(bounds[n - 1], bounds[n]))
  }

  lemma NothingBetween(s: seq<Event>, t: int)
    ensures Filter(s, Within(t, t)) == []
  {
    FilterNone(s, Within(t, t));
  }

  predicate Ascending(bounds: seq<int>) {
    forall i, j :: 0 <= i < j < |bounds| ==> bounds[i] <= bounds[j]
  }

  lemma InOrder(bounds: seq<int>, n: nat)
    requires Ascending(bounds) && 0 < n < |bounds|
    ensures bounds[0] <= bounds[n - 1] <= bounds[n]
  {
  }

  lemma {:induction false} SlicesJoin(s: seq<Event>, bounds: seq<int>, n: nat)
    requires Sorted(s, Earlier) && n < |bounds| && Ascending(bounds)
    ensures Slices(s, bounds, n) == Filter(s, Within(bounds[0], bounds[n]))
  {
    hide Filter, Sorted, Ascending, Within;
    if n == 0 {
      NothingBetween(s, bounds[0]);
    } else {
      SlicesJoin(s, bounds, n - 1);
      InOrder(bounds, n);
      CutAt(s, bounds[0], bounds[n - 1], bounds[n]);
    }
  }

  // ---- The emission of a whole population ----

  // The events of the first n people, in emission order.
  function Emitted(emission: nat -> seq<Event>, n: nat): seq<Event> {
    if n == 0 then [] else Emitted(emission, n - 1) + emission(n)
  }

  /** What the whole-window stream holds. */
  function Materialised(emission: nat -> seq<Event>, n: nat): seq<Event> {
    Sort(Emitted(emission, n), Earlier)
  }

  /** What regenerating a range yields: the events in range, sorted afresh. */
  function Regenerated(emission: nat -> seq<Event>, n: nat, start: int, end: int): seq<Event> {
    Sort(Filter(Emitted(emission, n), Within(start, end)), Earlier)
  }

  /** Regenerating a range gives the whole stream's slice, ties in order. */
  lemma RegeneratedIsSlice(emission: nat -> seq<Event>, n: nat, start: int, end: int)
    ensures Regenerated(emission, n, start, end) == Filter(Materialised(emission, n), Within(start, end))
  {
    EarlierOrders();
    SortFilter(Emitted(emission, n), Earlier, Within(start, end));
  }

  // The regenerated chunks between consecutive bounds, one after the other.
  function Chunks(emission: nat -> seq<Event>, people: nat, bounds: seq<int>, n: nat): seq<Event>
    requires n < |bounds|
  {
    if n == 0 then [] else Chunks(emission, people, bounds, n - 1) + Regenerated(emission, people, bounds[n - 1], bounds[n])
  }

  /** Replaying chunk by chunk is reading the whole stream once. */
  lemma {:induction false} ChunksAreWhole(emission: nat -> seq<Event>, people: nat, bounds: seq<int>, n: nat)
    requires n < |bounds| && Ascending(bounds)
    ensures Chunks(emission, people, bounds, n) == Filter(Materialised(emission, people), Within(bounds[0], bounds[n]))
  {
    EarlierOrders();
    SortSorted(Emitted(emission, people), Earlier);
    ChunksAreSlices(emission, people, bounds, n);
    SlicesJoin(Materialised(emission, people), bounds, n);
  }

  lemma {:induction false} ChunksAreSlices(emission: nat -> seq<Event>, people: nat, bounds: seq<int>, n: nat)
    requires n < |bounds|
    ensures Chunks(emission, people, bounds, n) == Slices(Materialised(emission, people), bounds, n)
  {
    hide Materialised, Regenerated;
    if n > 0 {
      ChunksAreSlices(emission, people, bounds, n - 1);
      RegeneratedIsSlice(emission, people, bounds[n - 1], bounds[n]);
    }
  }

  // ---- The stream ----

  class ObligationStream {
    var events: seq<Event>
    var isSorted: bool
    var keep: Option<(int, int)>

    ghost predicate Valid()
      reads this
    {
      isSorted ==> Sorted(events, Earlier)
    }

    constructor ()
      ensures Valid() && events == [] && isSorted && keep == None
    {
      events, isSorted, keep := [], true, None;
    }

    predicate Kept(e: Event)
      reads this
    {
      keep.Some? ==> InRange(e, keep.value.0, keep.value.1)
    }

    method RestrictTo(start: int, end: int)
      requires Valid()
      modifies this`keep
      ensures Valid() && keep == Some((start, end))
    {
      keep := Some((start, end));
    }

    method Append(e: Event)
      requires Valid()
      modifies this`events, this`isSorted
      ensures Valid()
      ensures events ==
                if keep.Some? && !(keep.value.0 <= e.timestamp < keep.value.1) then old(events) else old(events) + [e]
    {
      if !Kept(e) {
        return;
      }
      isSorted := false;
      events := events + [e];
    }

    method Sort()
      requires Valid()
      modifies this`events, this`isSorted
      ensures Valid() && isSorted && events == Sorting.Sort(old(events), Earlier)
    {
      EarlierOrders();
      if isSorted {
        SortOfSorted(events, Earlier);
        return;
      }
      SortSorted(events, Earlier);
      events := Sorting.Sort(events, Earlier);
      isSorted := true;
    }

    method Between(start: int, end: int) returns (slice: seq<Event>)
      requires Valid()
      ensures slice == if isSorted then Filter(events, Within(start, end)) else []
    {
      if !isSorted {
        return [];
      }
      BetweenIsFilter(events, start, end);
      var first := LowerBound(events, start, 0);
      slice := events[first..LowerBound(events, end, first)];
    }
  }

  class ObligationSynthesis {
    const population: nat
    // The events of each person, whatever becomes of them.
    const emission: nat -> seq<Event>

    constructor (population: nat, emission: nat -> seq<Event>)
      ensures this.population == population && this.emission == emission
    {
      this.population, this.emission := population, emission;
    }

    method EmitPerson(person: nat, obligations: ObligationStream)
      requires obligations.Valid() && obligations.keep.Some?
      modifies obligations`events, obligations`isSorted
      ensures obligations.Valid()
      ensures obligations.events == old(obligations.events) +
                Filter(emission(person), Within(obligations.keep.value.0, obligations.keep.value.1))
    {
      var all := emission(person);
      ghost var p := Within(obligations.keep.value.0, obligations.keep.value.1);
      for k := 0 to |all|
        invariant obligations.Valid() && obligations.events == old(obligations.events) + Filter(all[..k], p)
      {
        assert all[..k + 1] == all[..k] + [all[k]];
        FilterConcat(all[..k], [all[k]], p);
        FilterCons(all[k], [], p);
        obligations.Append(all[k]);
      }
      assert all[..|all|] == all;
    }

    method EmitAll(obligations: ObligationStream)
      requires obligations.Valid() && obligations.keep.Some? && obligations.events == []
      modifies obligations`events, obligations`isSorted
      ensures obligations.Valid()
      ensures obligations.events == Filter(Emitted(emission, population), Within(obligations.keep.value.0, obligations.keep.value.1))
    {
      ghost var p := Within(obligations.keep.value.0, obligations.keep.value.1);
      for person := 1 to population + 1
        invariant obligations.Valid() && obligations.events == Filter(Emitted(emission, person - 1), p)
      {
        FilterConcat(Emitted(emission, person - 1), emission(person), p);
        EmitPerson(person, obligations);
      }
    }

    /** Retains the slice of the opening months of the window. */
    method Synthesize(windowStart: int, obligations: ObligationStream)
      requires obligations.Valid() && obligations.events == []
      modifies obligations
      ensures obligations.Valid() && obligations.isSorted
      ensures obligations.events ==
                Filter(Materialised(emission, population), Within(windowStart, windowStart + 30 * BURDEN_MONTHS * DAY))
    {
      obligations.RestrictTo(windowStart, windowStart + 30 * BURDEN_MONTHS * DAY);
      EmitAll(obligations);
      RegeneratedIsSlice(emission, population, windowStart, windowStart + 30 * BURDEN_MONTHS * DAY);
      obligations.Sort();
    }

    /** The events of a range, replayed from every person's emission. */
    method GenerateWindow(start: int, end: int) returns (out: ObligationStream)
      ensures fresh(out) && out.Valid() && out.isSorted
      ensures out.events == Regenerated(emission, population, start, end)
      ensures out.events == Filter(Materialised(emission, population), Within(start, end))
    {
      out := new ObligationStream();
      out.RestrictTo(start, end);
      EmitAll(out);
      RegeneratedIsSlice(emission, population, start, end);
      out.Sort();
    }
  }
}
