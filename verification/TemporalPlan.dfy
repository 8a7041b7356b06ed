/** The planned part of the temporal export: tenures clipped to the window,
    coalesced per edge, and turned into one ordered list of changes. */
module TemporalPlan {
  import opened Words
  import opened Sorting

  /** A vertex, named by the rank of its (unique) identifier. */
  type Ref = nat

  datatype Edge = Edge(table: nat, from: Ref, to: Ref)

  datatype Tenure = Tenure(edge: Edge, start: int, end: int)

  datatype Change = Change(epoch: int, opening: bool, association: nat)

  // ---- Clipping ----

  function Clip(edge: Edge, first: int, last: int, start: int, end: int): (r: Option<Tenure>) {
    var from := Max(first, start);
    if last <= from || from >= end then None else Some(Tenure(edge, from, last))
  }

  predicate Covers(t: Tenure, at: int) {
    t.start <= at < t.end
  }

  /** What the sources say: the edge held from first up to last, wherever the
      window lies. */
  datatype Evidence = Evidence(edge: Edge, first: int, last: int)

  ghost predicate Attested(evidence: seq<Evidence>, edge: Edge, at: int) {
    exists i :: 0 <= i < |evidence| && evidence[i].edge == edge && evidence[i].first <= at < evidence[i].last
  }

  function ClipOf(e: Evidence, start: int, end: int): seq<Tenure> {
    match Clip(e.edge, e.first, e.last, start, end)
    case Some(t) => [t]
    case None => []
  }

  function Clipped(evidence: seq<Evidence>, start: int, end: int): seq<Tenure> {
    if evidence == [] then
      []
    else
      var i := |evidence| - 1;
      Clipped(evidence[..i], start, end) + ClipOf(evidence[i], start, end)
  }

  lemma {:induction false} ClippedInWindow(evidence: seq<Evidence>, start: int, end: int)
    ensures forall i :: 0 <= i < |Clipped(evidence, start, end)| ==> InWindow(Clipped(evidence, start, end)[i], start, end)
  {
    if evidence != [] {
      ClippedInWindow(evidence[..|evidence| - 1], start, end);
    }
  }

  lemma {:induction false} ClippedCovers(evidence: seq<Evidence>, start: int, end: int, edge: Edge, at: int)
    requires start <= at < end
    ensures Covered(Clipped(evidence, start, end), edge, at) <==> Attested(evidence, edge, at)
  {
    if evidence != [] {
      var i := |evidence| - 1;
      var rest, e := evidence[..i], evidence[i];
      ClippedCovers(rest, start, end, edge, at);
      ClipCovers(e.edge, e.first, e.last, start, end, at);
      var c := Clip(e.edge, e.first, e.last, start, end);
      if c.Some? {
        CoveredSnoc(Clipped(rest, start, end), c.value, edge, at);
      } else {
        assert Clipped(rest, start, end) + [] == Clipped(rest, start, end);
      }
      if Attested(rest, edge, at) {
        var k :| 0 <= k < |rest| && rest[k].edge == edge && rest[k].first <= at < rest[k].last;
        assert evidence[k] == rest[k];
      }
    }
  }

  /** Clipping keeps exactly the instants of the window that the evidence
      covers, and leaves nothing empty. */
  lemma ClipCovers(edge: Edge, first: int, last: int, start: int, end: int, at: int)
    requires start <= at < end
    ensures var r := Clip(edge, first, last, start, end);
            && (first <= at < last <==> r.Some? && Covers(r.value, at))
            && (r.Some? ==> InWindow(r.value, start, end))
  {
  }

  predicate InWindow(t: Tenure, start: int, end: int) {
    start <= t.start < end && t.start < t.end
  }

  // ---- Coalescing ----

  predicate EdgeLess(a: Edge, b: Edge) {
    || a.table < b.table
    || (a.table == b.table && (a.from < b.from || (a.from == b.from && a.to < b.to)))
  }

  predicate TenureLe(a: Tenure, b: Tenure) {
    || EdgeLess(a.edge, b.edge)
    || (a.edge == b.edge && (a.start < b.start || (a.start == b.start && a.end <= b.end)))
  }

  lemma TenureLeTotal()
    ensures TotalPreorder(TenureLe)
  {
  }

  ghost predicate Covered(ts: seq<Tenure>, edge: Edge, at: int) {
    exists i :: 0 <= i < |ts| && ts[i].edge == edge && Covers(ts[i], at)
  }

  // Two tenures of one edge are apart by a positive gap, and the order is kept.
  ghost predicate Separated(ts: seq<Tenure>) {
    forall i, j :: 0 <= i < j < |ts| ==> Apart(ts[i], ts[j])
  }

  predicate Apart(a: Tenure, b: Tenure) {
    EdgeLess(a.edge, b.edge) || (a.edge == b.edge && a.end < b.start)
  }

  lemma CoveredSnoc(ts: seq<Tenure>, t: Tenure, edge: Edge, at: int)
    ensures Covered(ts + [t], edge, at) <==> Covered(ts, edge, at) || (t.edge == edge && Covers(t, at))
  {
    if Covered(ts, edge, at) {
      var i :| 0 <= i < |ts| && ts[i].edge == edge && Covers(ts[i], at);
      assert (ts + [t])[i] == ts[i];
    }
    assert (ts + [t])[|ts|] == t;
  }

  /** Merges touching or overlapping evidence of one edge: the same instants stay
      covered, and what remains apart was apart. */
  method Coalesce(sorted: seq<Tenure>, start: int, end: int) returns (merged: seq<Tenure>)
    requires Sorted(sorted, TenureLe)
    requires forall i :: 0 <= i < |sorted| ==> InWindow(sorted[i], start, end)
    ensures Separated(merged)
    ensures forall i :: 0 <= i < |merged| ==> InWindow(merged[i], start, end)
    ensures forall edge, at :: Covered(merged, edge, at) <==> Covered(sorted, edge, at)
  {
    hide Covered, Separated, Apart;
    merged := [];
    NothingCovered();
    for i := 0 to |sorted|
      invariant Separated(merged)
      invariant forall m :: 0 <= m < |merged| ==> InWindow(merged[m], start, end)
      invariant forall edge, at :: Covered(merged, edge, at) <==> Covered(sorted[..i], edge, at)
      invariant merged != [] && i < |sorted| ==> Follows(merged[|merged| - 1], sorted[i])
    {
      var a := sorted[i];
      assert sorted[..i + 1] == sorted[..i] + [a];
      ghost var before := merged;
      if merged != [] && merged[|merged| - 1].edge == a.edge && a.start <= merged[|merged| - 1].end {
        var back := merged[|merged| - 1];
        var grown := back.(end := Max(back.end, a.end));
        merged := merged[..|merged| - 1] + [grown];
        Extended(before, a, merged);
      } else {
        merged := merged + [a];
        Started(before, a);
      }
      forall edge, at ensures Covered(merged, edge, at) <==> Covered(sorted[..i + 1], edge, at) {
        CoveredSnoc(sorted[..i], a, edge, at);
        if merged == before + [a] {
          CoveredSnoc(before, a, edge, at);
        }
      }
      if i + 1 < |sorted| {
        NextFollows(sorted, i, merged[|merged| - 1]);
      }
    }
    assert sorted[..|sorted|] == sorted;
  }

  // The next evidence in order lies in the same edge, no earlier, or a later edge.
  predicate Follows(back: Tenure, a: Tenure) {
    EdgeLess(back.edge, a.edge) || (back.edge == a.edge && back.start <= a.start)
  }

  lemma NothingCovered()
    ensures Separated([])
    ensures forall edge, at :: !Covered([], edge, at)
  {
  }

  lemma NextFollows(sorted: seq<Tenure>, i: nat, back: Tenure)
    requires Sorted(sorted, TenureLe) && i + 1 < |sorted|
    requires back.edge == sorted[i].edge && back.start <= sorted[i].start
    ensures Follows(back, sorted[i + 1])
  {
    assert TenureLe(sorted[i], sorted[i + 1]);
  }

  lemma Started(before: seq<Tenure>, a: Tenure)
    requires Separated(before)
    requires before != [] ==> Follows(before[|before| - 1], a)
    requires before != [] ==> before[|before| - 1].edge != a.edge || before[|before| - 1].end < a.start
    requires forall m :: 0 <= m < |before| ==> before[m].start < before[m].end
    ensures Separated(before + [a])
  {
    forall m | 0 <= m < |before| ensures Apart(before[m], a) {
      var last := |before| - 1;
      assert Apart(before[last], a);
      if m < last {
        assert Apart(before[m], before[last]);
      }
    }
  }

  lemma Extended(before: seq<Tenure>, a: Tenure, after: seq<Tenure>)
    requires Separated(before) && before != []
    requires var back := before[|before| - 1];
             && back.edge == a.edge && back.start <= a.start <= back.end && back.start < back.end
             && after == before[..|before| - 1] + [back.(end := Max(back.end, a.end))]
    ensures Separated(after)
    ensures forall edge, at :: Covered(after, edge, at) <==> Covered(before, edge, at) || (a.edge == edge && Covers(a, at))
  {
    var k := |before| - 1;
    var back, grown := before[k], after[k];
    assert before == before[..k] + [back];
    forall edge, at ensures Covered(after, edge, at) <==> Covered(before, edge, at) || (a.edge == edge && Covers(a, at)) {
      CoveredSnoc(before[..k], back, edge, at);
      CoveredSnoc(before[..k], grown, edge, at);
    }
  }

  // ---- The change list ----

  predicate ChangeLe(a: Change, b: Change) {
    || a.epoch < b.epoch
    || (a.epoch == b.epoch && !a.opening && b.opening)
    || (a.epoch == b.epoch && a.opening == b.opening && a.association <= b.association)
  }

  lemma ChangeLeTotal()
    ensures TotalPreorder(ChangeLe)
  {
  }

  // What one association adds: no closing when it outlives the window.
  function ChangesOf(t: Tenure, i: nat, windowEnd: int): seq<Change> {
    [Change(t.start, true, i)] + if t.end < windowEnd then [Change(t.end, false, i)] else []
  }

  function ChangeList(ts: seq<Tenure>, windowEnd: int): seq<Change> {
    if ts == [] then
      []
    else
      var i := |ts| - 1;
      ChangeList(ts[..i], windowEnd) + ChangesOf(ts[i], i, windowEnd)
  }

  predicate IsChangeOf(c: Change, ts: seq<Tenure>, windowEnd: int) {
    && c.association < |ts|
    && var t := ts[c.association];
       if c.opening then c.epoch == t.start else c.epoch == t.end < windowEnd
  }

  predicate IsEndOf(c: Change, t: Tenure, i: nat, windowEnd: int) {
    c == Change(t.start, true, i) || (c == Change(t.end, false, i) && t.end < windowEnd)
  }

  lemma {:induction false} ChangeListCounts(ts: seq<Tenure>, windowEnd: int, c: Change)
    ensures multiset(ChangeList(ts, windowEnd))[c] == if IsChangeOf(c, ts, windowEnd) then 1 else 0
  {
    hide IsChangeOf, IsEndOf, ChangesOf;
    if ts == [] {
      NoChangeOf(c, ts, windowEnd);
    } else {
      var i := |ts| - 1;
      ChangeListCounts(ts[..i], windowEnd, c);
      ChangesOfCounts(ts[i], i, windowEnd, c);
      LastChangeOf(c, ts, windowEnd);
    }
  }

  lemma NoChangeOf(c: Change, ts: seq<Tenure>, windowEnd: int)
    requires |ts| <= c.association
    ensures !IsChangeOf(c, ts, windowEnd)
  {
  }

  lemma LastChangeOf(c: Change, ts: seq<Tenure>, windowEnd: int)
    requires ts != []
    ensures var i := |ts| - 1;
            && (IsChangeOf(c, ts, windowEnd) <==> IsChangeOf(c, ts[..i], windowEnd) || IsEndOf(c, ts[i], i, windowEnd))
            && !(IsChangeOf(c, ts[..i], windowEnd) && IsEndOf(c, ts[i], i, windowEnd))
  {
  }

  lemma ChangesOfCounts(t: Tenure, i: nat, windowEnd: int, c: Change)
    ensures multiset(ChangesOf(t, i, windowEnd))[c] == if IsEndOf(c, t, i, windowEnd) then 1 else 0
  {
  }

  // Where each association's changes stand in the list; |changes| for a closing
  // that never comes.
  datatype Positions = Positions(opens: seq<nat>, closes: seq<nat>)

  ghost predicate ChangesAt(changes: seq<Change>, ts: seq<Tenure>, windowEnd: int, at: Positions, i: nat)
    requires i < |ts| == |at.opens| == |at.closes|
  {
    && at.opens[i] < |changes| && changes[at.opens[i]] == Change(ts[i].start, true, i)
    && (if ts[i].end < windowEnd
        then at.closes[i] < |changes| && changes[at.closes[i]] == Change(ts[i].end, false, i)
        else at.closes[i] == |changes|)
    && (ts[i].start < ts[i].end ==> at.opens[i] < at.closes[i])
  }

  ghost predicate ChangeIs(changes: seq<Change>, at: Positions, c: nat)
    requires c < |changes| && |at.opens| == |at.closes|
  {
    && changes[c].association < |at.opens|
    && c == if changes[c].opening then at.opens[changes[c].association] else at.closes[changes[c].association]
  }

  ghost predicate ByEpoch(changes: seq<Change>) {
    forall c, d :: 0 <= c <= d < |changes| ==> changes[c].epoch <= changes[d].epoch
  }

  /** Every association opens exactly once, closes once exactly when it ends
      inside the window, and opens before it closes. */
  ghost predicate PlannedBy(changes: seq<Change>, ts: seq<Tenure>, windowEnd: int, at: Positions) {
    && |ts| == |at.opens| == |at.closes|
    && (forall i :: 0 <= i < |ts| ==> ChangesAt(changes, ts, windowEnd, at, i))
    && (forall c :: 0 <= c < |changes| ==> ChangeIs(changes, at, c))
    && ByEpoch(changes)
  }

  lemma {:induction false} ChangeListLength(ts: seq<Tenure>, windowEnd: int)
    ensures |ChangeList(ts, windowEnd)| <= 2 * |ts|
  {
    if ts != [] {
      ChangeListLength(ts[..|ts| - 1], windowEnd);
    }
  }

  /** There are at most two changes per association. */
  lemma FewChanges(ts: seq<Tenure>, windowEnd: int)
    ensures |SortedChanges(ts, windowEnd)| <= 2 * |ts|
  {
    ChangeListLength(ts, windowEnd);
    ChangeLeTotal();
    SortSorted(ChangeList(ts, windowEnd), ChangeLe);
    assert |SortedChanges(ts, windowEnd)| == |multiset(SortedChanges(ts, windowEnd))|;
  }

  function SortedChanges(ts: seq<Tenure>, windowEnd: int): seq<Change> {
    Sort(ChangeList(ts, windowEnd), ChangeLe)
  }

  ghost function Position(changes: seq<Change>, c: Change): (p: nat)
    requires c in changes
    ensures p < |changes| && changes[p] == c
  {
    var p :| 0 <= p < |changes| && changes[p] == c; p
  }

  lemma CountTwice(changes: seq<Change>, i: nat, j: nat)
    requires i < j < |changes| && changes[i] == changes[j]
    ensures multiset(changes)[changes[i]] >= 2
  {
    assert changes == changes[..j] + changes[j..];
    assert changes[..j][i] == changes[i] && changes[j..][0] == changes[j];
  }

  lemma OncePosition(changes: seq<Change>, p: nat, q: nat)
    requires p < |changes| && q < |changes| && changes[p] == changes[q]
    requires multiset(changes)[changes[p]] <= 1
    ensures p == q
  {
    if p < q {
      CountTwice(changes, p, q);
    } else if q < p {
      CountTwice(changes, q, p);
    }
  }

  ghost function PositionsOf(ts: seq<Tenure>, windowEnd: int): Positions {
    var changes := SortedChanges(ts, windowEnd);
    Positions(
      seq(|ts|, i requires 0 <= i < |ts| =>
        var c := Change(ts[i].start, true, i); if c in changes then Position(changes, c) else |changes|),
      seq(|ts|, i requires 0 <= i < |ts| =>
        var c := Change(ts[i].end, false, i);
        if ts[i].end < windowEnd && c in changes then Position(changes, c) else |changes|))
  }

  lemma SortedChangesCount(ts: seq<Tenure>, windowEnd: int, c: Change)
    ensures multiset(SortedChanges(ts, windowEnd))[c] == if IsChangeOf(c, ts, windowEnd) then 1 else 0
    ensures c in SortedChanges(ts, windowEnd) <==> IsChangeOf(c, ts, windowEnd)
  {
    ChangeLeTotal();
    SortSorted(ChangeList(ts, windowEnd), ChangeLe);
    ChangeListCounts(ts, windowEnd, c);
    assert c in SortedChanges(ts, windowEnd) <==> c in multiset(SortedChanges(ts, windowEnd));
  }

  lemma SortedChangesPlanned(ts: seq<Tenure>, windowEnd: int)
    ensures PlannedBy(SortedChanges(ts, windowEnd), ts, windowEnd, PositionsOf(ts, windowEnd))
  {
    hide SortedChanges, PositionsOf, ChangesAt, ChangeIs, ByEpoch;
    var changes, at := SortedChanges(ts, windowEnd), PositionsOf(ts, windowEnd);
    assert |ts| == |at.opens| == |at.closes| by {
      PositionsSize(ts, windowEnd);
    }
    SortedByEpoch(ts, windowEnd);
    forall i | 0 <= i < |ts| ensures ChangesAt(changes, ts, windowEnd, at, i) {
      FindsChanges(ts, windowEnd, i);
    }
    forall c | 0 <= c < |changes| ensures ChangeIs(changes, at, c) {
      FindsChange(ts, windowEnd, c);
    }
  }

  lemma PositionsSize(ts: seq<Tenure>, windowEnd: int)
    ensures |PositionsOf(ts, windowEnd).opens| == |PositionsOf(ts, windowEnd).closes| == |ts|
  {
  }

  lemma SortedByEpoch(ts: seq<Tenure>, windowEnd: int)
    ensures ByEpoch(SortedChanges(ts, windowEnd))
  {
    ChangeLeTotal();
    SortSorted(ChangeList(ts, windowEnd), ChangeLe);
    var changes := SortedChanges(ts, windowEnd);
    forall c, d | 0 <= c <= d < |changes| ensures changes[c].epoch <= changes[d].epoch {
      assert c < d ==> ChangeLe(changes[c], changes[d]);
    }
  }

  // A closing goes before an opening of its time, and the associations in turn.
  predicate InTurn(a: Change, b: Change) {
    || a.epoch < b.epoch
    || (a.epoch == b.epoch && (!a.opening || b.opening) && (a.opening == b.opening ==> a.association < b.association))
  }

  /** The changes stand by time, closings before openings, and each once. */
  lemma ChangesInTurn(ts: seq<Tenure>, windowEnd: int)
    ensures forall c, d :: 0 <= c < d < |SortedChanges(ts, windowEnd)| ==>
              InTurn(SortedChanges(ts, windowEnd)[c], SortedChanges(ts, windowEnd)[d])
  {
    ChangeLeTotal();
    SortSorted(ChangeList(ts, windowEnd), ChangeLe);
    var changes := SortedChanges(ts, windowEnd);
    forall c, d | 0 <= c < d < |changes| ensures InTurn(changes[c], changes[d]) {
      assert ChangeLe(changes[c], changes[d]);
      SortedChangesCount(ts, windowEnd, changes[c]);
      if changes[c] == changes[d] {
        OncePosition(changes, c, d);
      }
    }
  }

  lemma FindsChanges(ts: seq<Tenure>, windowEnd: int, i: nat)
    requires i < |ts|
    ensures ChangesAt(SortedChanges(ts, windowEnd), ts, windowEnd, PositionsOf(ts, windowEnd), i)
  {
    hide SortedChanges;
    SortedByEpoch(ts, windowEnd);
    SortedChangesCount(ts, windowEnd, Change(ts[i].start, true, i));
    SortedChangesCount(ts, windowEnd, Change(ts[i].end, false, i));
  }

  lemma FindsChange(ts: seq<Tenure>, windowEnd: int, c: nat)
    requires c < |SortedChanges(ts, windowEnd)|
    ensures ChangeIs(SortedChanges(ts, windowEnd), PositionsOf(ts, windowEnd), c)
  {
    hide SortedChanges, PositionsOf;
    var changes, at := SortedChanges(ts, windowEnd), PositionsOf(ts, windowEnd);
    PositionsSize(ts, windowEnd);
    SortedChangesCount(ts, windowEnd, changes[c]);
    FindsChanges(ts, windowEnd, changes[c].association);
    var i := changes[c].association;
    OncePosition(changes, c, if changes[c].opening then at.opens[i] else at.closes[i]);
  }

  // Inside the window the associations cover exactly what is attested.
  ghost predicate Backs(evidence: seq<Evidence>, ts: seq<Tenure>, start: int, end: int) {
    forall edge, at :: start <= at < end ==> (Covered(ts, edge, at) <==> Attested(evidence, edge, at))
  }

  lemma SameBacks(evidence: seq<Evidence>, ts: seq<Tenure>, start: int, end: int)
    requires forall edge, at :: Covered(ts, edge, at) <==> Covered(Clipped(evidence, start, end), edge, at)
    ensures Backs(evidence, ts, start, end)
  {
    hide Covered, Attested, Clipped;
    forall edge, at | start <= at < end ensures Covered(ts, edge, at) <==> Attested(evidence, edge, at) {
      ClippedCovers(evidence, start, end, edge, at);
    }
  }

  method ClipAll(evidence: seq<Evidence>, start: int, end: int) returns (ts: seq<Tenure>)
    ensures ts == Clipped(evidence, start, end)
  {
    ts := [];
    for i := 0 to |evidence|
      invariant ts == Clipped(evidence[..i], start, end)
    {
      assert evidence[..i + 1][..i] == evidence[..i];
      match Clip(evidence[i].edge, evidence[i].first, evidence[i].last, start, end) {
        case Some(t) => ts := ts + [t];
        case None => assert ts + [] == ts;
      }
    }
    assert evidence[..|evidence|] == evidence;
  }

  /** The whole plan: raw evidence in, coalesced associations and their ordered
      changes out. Inside the window the associations cover what is attested. */
  method Plan(evidence: seq<Evidence>, start: int, end: int) returns (ts: seq<Tenure>, changes: seq<Change>)
    ensures Separated(ts) && forall i :: 0 <= i < |ts| ==> InWindow(ts[i], start, end)
    ensures Backs(evidence, ts, start, end)
    ensures changes == SortedChanges(ts, end)
  {
    hide Covered, Attested, Separated, Backs, ChangeLe, Sort, Clipped;
    var clipped := ClipAll(evidence, start, end);
    ClippedInWindow(evidence, start, end);
    TenureLeTotal();
    SortSorted(clipped, TenureLe);
    var sorted := Sort(clipped, TenureLe);
    forall i | 0 <= i < |sorted| ensures InWindow(sorted[i], start, end) {
      assert sorted[i] in multiset(clipped);
    }
    ts := Coalesce(sorted, start, end);
    SameCover(clipped, sorted);
    assert Backs(evidence, ts, start, end) by {
      SameBacks(evidence, ts, start, end);
    }
    changes := [];
    for i := 0 to |ts|
      invariant changes == ChangeList(ts[..i], end)
    {
      assert ts[..i + 1][..i] == ts[..i];
      changes := changes + [Change(ts[i].start, true, i)];
      if ts[i].end < end {
        changes := changes + [Change(ts[i].end, false, i)];
      }
    }
    assert ts[..|ts|] == ts;
    changes := Sort(changes, ChangeLe);
  }

  lemma SameCover(s: seq<Tenure>, t: seq<Tenure>)
    requires multiset(s) == multiset(t)
    ensures forall edge, at :: Covered(s, edge, at) <==> Covered(t, edge, at)
  {
    forall edge, at ensures Covered(s, edge, at) <==> Covered(t, edge, at) {
      if Covered(s, edge, at) {
        var i :| 0 <= i < |s| && s[i].edge == edge && Covers(s[i], at);
        assert s[i] in multiset(t);
      }
      if Covered(t, edge, at) {
        var i :| 0 <= i < |t| && t[i].edge == edge && Covers(t[i], at);
        assert t[i] in multiset(s);
      }
    }
  }
}
