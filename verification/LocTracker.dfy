/** The tracker that bills matured accounts from a due-time queue. */
module LocTracker {
  import opened Accrual
  import opened Lists
  import Sorting

  type Entry = (int, nat)

  predicate Before(a: Entry, b: Entry) {
    a.0 < b.0 || (a.0 == b.0 && a.1 <= b.1)
  }

  // The entry a slot's token vouches for is in the queue.
  predicate Queued(slots: seq<Slot>, queue: multiset<Entry>, i: nat)
    requires i < |slots|
  {
    if slots[i].enabled then slots[i].due >= 0 && (slots[i].due, i) in queue else slots[i].due == NOT_QUEUED
  }

  predicate KnownEntry(slots: seq<Slot>, e: Entry) {
    e.1 < |slots| && e.0 >= 0
  }

  ghost predicate QueueCovers(slots: seq<Slot>, queue: multiset<Entry>) {
    && (forall e :: e in queue ==> KnownEntry(slots, e))
    && forall i: nat :: i < |slots| ==> Queued(slots, queue, i)
  }

  class LocAccrualTracker {
    var slots: seq<Slot>
    var queue: multiset<Entry>

    ghost predicate Valid()
      reads this
    {
      QueueCovers(slots, queue)
    }

    constructor (count: nat)
      ensures Valid() && slots == seq(count, i => EMPTY)
    {
      slots := seq(count, i => EMPTY);
      queue := multiset{};
    }

    method ScheduleBilling(i: nat, dueTs: int)
      requires i < |slots|
      modifies this
      ensures slots == old(slots)[i := old(slots)[i].(due := dueTs)]
      ensures queue == old(queue) + multiset{(dueTs, i)}
    {
      slots := slots[i := slots[i].(due := dueTs)];
      queue := queue + multiset{(dueTs, i)};
    }

    method Enable(i: nat, apr: real, billingDay: int)
      requires Valid() && i < |slots|
      modifies this
      ensures Valid() && slots == old(slots)[i := Enabled(apr, billingDay)]
      ensures slots[i] == Slot(true, apr, billingDay, 0.0, 0, 0, 0)
    {
      slots := slots[i := Enabled(apr, billingDay)];
      ScheduleBilling(i, 0);
      assert forall k: nat :: k < |slots| && k != i ==> Queued(old(slots), old(queue), k) ==> Queued(slots, queue, k);
    }

    // The queue entry stays behind; its token no longer vouches for it.
    method Disable(i: nat)
      requires Valid() && i < |slots|
      modifies this
      ensures Valid() && slots == old(slots)[i := EMPTY]
    {
      slots := slots[i := EMPTY];
      assert forall k: nat :: k < |slots| && k != i ==> Queued(old(slots), old(queue), k) ==> Queued(slots, queue, k);
    }

    method Update(i: nat, preCash: real, ts: int)
      requires i < |slots|
      modifies this`slots
      ensures slots == old(slots)[i := Roll(old(slots)[i], preCash, ts)]
      ensures old(Valid()) ==> Valid()
    {
      slots := slots[i := Roll(slots[i], preCash, ts)];
      assert forall k: nat :: k < |slots| ==> Queued(old(slots), old(queue), k) ==> Queued(slots, queue, k);
    }

    // The earliest entry of the heap.
    method Top() returns (e: Entry)
      requires queue != multiset{}
      ensures e in queue && forall f :: f in queue ==> Before(e, f)
    {
      EarliestExists(queue);
      ghost var least :| Earliest(queue, least);
      e :| e in queue && forall f :: f in queue ==> Before(e, f);
    }

    /** Pops every due entry; a popped entry whose token disagrees is dropped. */
    method PopDue(ts: int) returns (popped: seq<nat>)
      requires Valid()
      modifies this
      ensures Popping(old(slots), slots, popped, queue, ts) && AllPopped(old(slots), popped, ts)
    {
      popped := [];
      PopStart(slots, queue, ts);
      while queue != multiset{}
        invariant Popping(old(slots), slots, popped, queue, ts)
        decreases |queue|
      {
        var top := Top();
        if top.0 > ts {
          LateQueue(old(slots), slots, popped, queue, ts, top);
          return;
        }
        PopStep(old(slots), slots, popped, queue, ts, top);
        queue := queue - multiset{top};
        if slots[top.1].enabled && slots[top.1].due == top.0 {
          slots := slots[top.1 := slots[top.1].(due := NOT_QUEUED)];
          popped := popped + [top.1];
        }
      }
      EmptyQueue(old(slots), slots, popped, queue, ts);
    }

    /** Rolls and bills the matured slots, in ascending slot order. */
    method Sweep(ts: int, cash: seq<real>) returns (out: seq<InterestAccrual>)
      requires Valid() && |cash| == |slots|
      modifies this
      ensures Valid() && slots == SweptAll(old(slots), cash, ts)
      ensures out == Bills(old(slots), cash, ts, |slots|)
    {
      hide Matured, Roll, Billed, Popping, AllPopped, Sorting.Sort, Bills, QueueCovers, Sweeping, ExactlyDue;
      ghost var before := slots;
      var popped := PopDue(ts);
      var due := Sorting.Sort(popped, Ascending);
      AscendingDue(before, slots, popped, due, cash, queue, ts);
      out := [];
      for k := 0 to |due|
        invariant |slots| == |before| == |cash|
        invariant Sweeping(before, slots, due, k, cash, queue, ts)
        invariant NextDue(due, k, |before|) <= |before| && out == Bills(before, cash, ts, NextDue(due, k, |before|))
      {
        SweepStep(before, slots, due, k, cash, queue, ts);
        var interest := MatureSlot(due[k], cash[due[k]], ts);
        if interest > 0.0 {
          out := out + [InterestAccrual(due[k], interest, ts)];
        }
      }
      SweepDone(before, slots, due, cash, queue, ts);
    }

    // The first maturity after enabling starts the clock and bills nothing.
    method MatureSlot(i: nat, cash: real, ts: int) returns (interest: real)
      requires i < |slots|
      modifies this
      ensures slots == old(slots)[i := Matured(old(slots)[i], cash, ts)]
      ensures queue == old(queue) + multiset{(ts + PERIOD, i)}
      ensures interest == Billed(old(slots)[i], cash, ts)
    {
      hide Roll, Charge;
      RollKeepsClock(slots[i], cash, ts);
      Update(i, cash, ts);
      if slots[i].lastBilling == 0 {
        slots := slots[i := slots[i].(lastBilling := ts)];
        ScheduleBilling(i, ts + PERIOD);
        return 0.0;
      }
      interest := Charge(slots[i]);
      slots := slots[i := slots[i].(area := 0.0, lastBilling := ts)];
      ScheduleBilling(i, ts + PERIOD);
    }

    /** Copies the accrual state, the queue and its tokens included. */
    method CopyStateFrom(other: LocAccrualTracker)
      requires Valid() && other.Valid() && SameEnabled(slots, other.slots)
      modifies this
      ensures Valid() && slots == Copied(old(slots), old(other.slots)) && queue == old(other.queue)
    {
      ghost var theirs := other.slots;
      slots := Copied(slots, other.slots);
      queue := other.queue;
      assert forall k: nat :: k < |slots| ==> Queued(theirs, queue, k) ==> Queued(slots, queue, k);
    }
  }

  predicate SameEnabled(a: seq<Slot>, b: seq<Slot>) {
    |a| == |b| && forall i :: 0 <= i < |a| ==> a[i].enabled == b[i].enabled
  }

  // The state fields are copied; the set-up fields are kept.
  function Copied(mine: seq<Slot>, theirs: seq<Slot>): (r: seq<Slot>)
    requires |mine| == |theirs|
    ensures |r| == |mine|
    ensures forall i :: 0 <= i < |mine| ==>
              r[i] == theirs[i].(enabled := mine[i].enabled, apr := mine[i].apr, billingDay := mine[i].billingDay)
  {
    seq(|mine|, i requires 0 <= i < |mine| =>
      theirs[i].(enabled := mine[i].enabled, apr := mine[i].apr, billingDay := mine[i].billingDay))
  }

  ghost predicate Earliest(queue: multiset<Entry>, e: Entry) {
    e in queue && forall f :: f in queue ==> Before(e, f)
  }

  lemma {:induction false} EarliestExists(queue: multiset<Entry>)
    requires queue != multiset{}
    ensures exists e :: Earliest(queue, e)
    decreases |queue|
  {
    var x :| x in queue;
    var rest := queue - multiset{x};
    if rest == multiset{} {
      assert forall f :: f in queue ==> f == x || f in rest;
      assert Earliest(queue, x);
    } else {
      EarliestExists(rest);
      var e :| Earliest(rest, e);
      EarlierOf(queue, x, e);
    }
  }

  lemma EarlierOf(queue: multiset<Entry>, x: Entry, e: Entry)
    requires x in queue && Earliest(queue - multiset{x}, e)
    ensures Earliest(queue, if Before(e, x) then e else x)
  {
    forall f | f in queue ensures Before(if Before(e, x) then e else x, f) {
      assert f == x || f in queue - multiset{x};
    }
  }

  // ---- Popping ----

  // One slot while due entries are being popped.
  predicate PoppingSlot(before: Slot, now: Slot, i: nat, popped: seq<nat>, queue: multiset<Entry>, ts: int) {
    if i in popped then
      Due(before, ts) && before.due >= 0 && now == before.(due := NOT_QUEUED)
    else
      now == before && if now.enabled then now.due >= 0 && (now.due, i) in queue else now.due == NOT_QUEUED
  }

  ghost predicate Popping(before: seq<Slot>, now: seq<Slot>, popped: seq<nat>, queue: multiset<Entry>, ts: int) {
    && |now| == |before| && Distinct(popped)
    && (forall i :: i in popped ==> i < |before|)
    && (forall e :: e in queue ==> KnownEntry(now, e))
    && forall i: nat :: i < |before| ==> PoppingSlot(before[i], now[i], i, popped, queue, ts)
  }

  ghost predicate AllPopped(before: seq<Slot>, popped: seq<nat>, ts: int) {
    forall i: nat :: i < |before| ==> (i in popped <==> Due(before[i], ts))
  }

  lemma PopStart(slots: seq<Slot>, queue: multiset<Entry>, ts: int)
    requires QueueCovers(slots, queue)
    ensures Popping(slots, slots, [], queue, ts)
  {
    forall i: nat | i < |slots| ensures PoppingSlot(slots[i], slots[i], i, [], queue, ts) {
      assert Queued(slots, queue, i);
    }
  }

  lemma PopStep(before: seq<Slot>, now: seq<Slot>, popped: seq<nat>, queue: multiset<Entry>, ts: int, top: Entry)
    requires Popping(before, now, popped, queue, ts) && top in queue && top.0 <= ts
    ensures var i, rest := top.1, queue - multiset{top};
            i < |now| &&
            if now[i].enabled && now[i].due == top.0 then
              Popping(before, now[i := now[i].(due := NOT_QUEUED)], popped + [i], rest, ts)
            else
              Popping(before, now, popped, rest, ts)
  {
    var i, rest := top.1, queue - multiset{top};
    assert KnownEntry(now, top);
    assert PoppingSlot(before[i], now[i], i, popped, queue, ts);
    if now[i].enabled && now[i].due == top.0 {
      var after := now[i := now[i].(due := NOT_QUEUED)];
      forall k: nat | k < |before| ensures PoppingSlot(before[k], after[k], k, popped + [i], rest, ts) {
        assert PoppingSlot(before[k], now[k], k, popped, queue, ts);
      }
      assert forall e :: e in rest ==> KnownEntry(now, e) && KnownEntry(after, e);
    } else {
      forall k: nat | k < |before| ensures PoppingSlot(before[k], now[k], k, popped, rest, ts) {
        assert PoppingSlot(before[k], now[k], k, popped, queue, ts);
      }
    }
  }

  lemma LateQueue(before: seq<Slot>, now: seq<Slot>, popped: seq<nat>, queue: multiset<Entry>, ts: int, top: Entry)
    requires Popping(before, now, popped, queue, ts) && top.0 > ts
    requires forall f :: f in queue ==> Before(top, f)
    ensures AllPopped(before, popped, ts)
  {
    forall i: nat | i < |before| ensures i in popped <==> Due(before[i], ts) {
      assert PoppingSlot(before[i], now[i], i, popped, queue, ts);
    }
  }

  lemma EmptyQueue(before: seq<Slot>, now: seq<Slot>, popped: seq<nat>, queue: multiset<Entry>, ts: int)
    requires Popping(before, now, popped, queue, ts) && queue == multiset{}
    ensures AllPopped(before, popped, ts)
  {
    forall i: nat | i < |before| ensures i in popped <==> Due(before[i], ts) {
      assert PoppingSlot(before[i], now[i], i, popped, queue, ts);
    }
  }

  // ---- Billing in ascending order ----

  predicate Ascending(a: nat, b: nat) {
    a <= b
  }

  predicate Increasing(s: seq<nat>) {
    forall i, j :: 0 <= i < j < |s| ==> s[i] < s[j]
  }

  function NextDue(due: seq<nat>, k: nat, n: nat): nat {
    if k < |due| then due[k] else n
  }

  ghost predicate ExactlyDue(before: seq<Slot>, due: seq<nat>, ts: int) {
    && Increasing(due) && (forall i :: i in due ==> i < |before|)
    && AllPopped(before, due, ts)
  }

  // One slot while the due slots are being billed; the first k are done.
  predicate SweepingSlot(before: Slot, now: Slot, i: nat, due: seq<nat>, k: nat, cash: real, queue: multiset<Entry>, ts: int)
    requires k <= |due|
  {
    if i in due[k..] then
      Due(before, ts) && before.due >= 0 && now == before.(due := NOT_QUEUED)
    else
      now == Swept(before, cash, ts) && if now.enabled then now.due >= 0 && (now.due, i) in queue else now.due == NOT_QUEUED
  }

  ghost predicate Sweeping(before: seq<Slot>, now: seq<Slot>, due: seq<nat>, k: nat, cash: seq<real>, queue: multiset<Entry>, ts: int) {
    && |now| == |before| == |cash| && k <= |due| && ExactlyDue(before, due, ts)
    && (forall e :: e in queue ==> KnownEntry(now, e))
    && forall i: nat :: i < |before| ==> SweepingSlot(before[i], now[i], i, due, k, cash[i], queue, ts)
  }

  lemma RollKeepsClock(s: Slot, cash: real, ts: int)
    ensures Roll(s, cash, ts).lastBilling == s.lastBilling && Roll(s, cash, ts).enabled == s.enabled
  {
  }

  lemma AscendingDue(before: seq<Slot>, now: seq<Slot>, popped: seq<nat>, due: seq<nat>, cash: seq<real>, queue: multiset<Entry>, ts: int)
    requires Popping(before, now, popped, queue, ts) && AllPopped(before, popped, ts)
    requires |cash| == |before| && due == Sorting.Sort(popped, Ascending)
    ensures Sweeping(before, now, due, 0, cash, queue, ts)
    ensures NextDue(due, 0, |before|) <= |before| && Bills(before, cash, ts, NextDue(due, 0, |before|)) == []
  {
    hide Sorting.Sort, Bills, Swept;
    Sorting.SortSorted(popped, Ascending);
    forall i ensures i in due <==> i in popped {
      assert i in multiset(due) <==> i in multiset(popped);
    }
    DistinctByCount(popped);
    OnceEach(due);
    forall i: nat | i < |before| ensures SweepingSlot(before[i], now[i], i, due, 0, cash[i], queue, ts) {
      assert due[0..] == due;
      assert PoppingSlot(before[i], now[i], i, popped, queue, ts);
      NotDue(before[i], cash[i], ts);
    }
    assert ExactlyDue(before, due, ts);
    assert due != [] ==> due[0] in due;
    BillsSkip(before, due, cash, ts, 0, NextDue(due, 0, |before|));
    NoBills(before, cash, ts);
  }

  lemma NotDue(s: Slot, cash: real, ts: int)
    ensures !Due(s, ts) ==> Swept(s, cash, ts) == s
    ensures Due(s, ts) ==> Swept(s, cash, ts) == Matured(s, cash, ts)
  {
  }

  lemma NoBills(before: seq<Slot>, cash: seq<real>, ts: int)
    requires |cash| == |before|
    ensures Bills(before, cash, ts, 0) == []
  {
  }

  lemma OnceEach(s: seq<nat>)
    requires Sorting.Sorted(s, Ascending) && forall x :: multiset(s)[x] <= 1
    ensures Increasing(s)
  {
    forall i, j | 0 <= i < j < |s| ensures s[i] < s[j] {
      assert Ascending(s[i], s[j]);
      CountsTwice(s, i, j);
    }
  }

  lemma CountsTwice(s: seq<nat>, i: nat, j: nat)
    requires i < j < |s|
    ensures s[i] == s[j] ==> multiset(s)[s[i]] >= 2
  {
    assert s == s[..j] + s[j..];
    assert s[i] == s[..j][i] && s[j] == s[j..][0];
    assert multiset(s)[s[i]] == multiset(s[..j])[s[i]] + multiset(s[j..])[s[i]];
  }

  // Slots that are not due add nothing.
  lemma {:induction false} BillsSkip(before: seq<Slot>, due: seq<nat>, cash: seq<real>, ts: int, from: nat, to: nat)
    requires |cash| == |before| && from <= to <= |before| && ExactlyDue(before, due, ts)
    requires forall i :: from <= i < to ==> i !in due
    ensures Bills(before, cash, ts, to) == Bills(before, cash, ts, from)
  {
    hide Billed;
    if from < to {
      BillsSkip(before, due, cash, ts, from, to - 1);
      assert to - 1 !in due;
    }
  }

  lemma SweepStep(before: seq<Slot>, now: seq<Slot>, due: seq<nat>, k: nat, cash: seq<real>, queue: multiset<Entry>, ts: int)
    requires Sweeping(before, now, due, k, cash, queue, ts) && k < |due|
    ensures due[k] < |before| && due[k] + 1 <= NextDue(due, k + 1, |before|) <= |before|
    ensures var i := due[k];
            && Sweeping(before, now[i := Matured(now[i], cash[i], ts)], due, k + 1, cash, queue + multiset{(ts + PERIOD, i)}, ts)
            && Bills(before, cash, ts, NextDue(due, k + 1, |before|)) ==
                 Bills(before, cash, ts, i) +
                 if Billed(now[i], cash[i], ts) > 0.0 then [InterestAccrual(i, Billed(now[i], cash[i], ts), ts)] else []
  {
    hide Roll, Bills;
    var i := due[k];
    assert i in due && i < |before|;
    assert due[k..][0] == i && due[k + 1..] == due[k..][1..];
    assert SweepingSlot(before[i], now[i], i, due, k, cash[i], queue, ts);
    IgnoresToken(before[i], cash[i], ts);
    MaturedDue(now[i], cash[i], ts);
    var after, longer := now[i := Matured(now[i], cash[i], ts)], queue + multiset{(ts + PERIOD, i)};
    forall j: nat | j < |before| ensures SweepingSlot(before[j], after[j], j, due, k + 1, cash[j], longer, ts) {
      assert SweepingSlot(before[j], now[j], j, due, k, cash[j], queue, ts);
      Later(due, k, j);
    }
    assert KnownEntry(now, (ts + PERIOD, i));
    assert forall e :: e in queue ==> KnownEntry(now, e) && KnownEntry(after, e);
    var next := NextDue(due, k + 1, |before|);
    forall j | i + 1 <= j < next ensures j !in due {
      Between(due, k, j, |before|);
    }
    assert k + 1 < |due| ==> due[k + 1] in due;
    BillsSkip(before, due, cash, ts, i + 1, next);
    assert i in due;
    BillsNext(before, cash, ts, i);
  }

  lemma MaturedDue(s: Slot, cash: real, ts: int)
    ensures Matured(s, cash, ts).due == ts + PERIOD && Matured(s, cash, ts).enabled == s.enabled
  {
  }

  lemma BillsNext(before: seq<Slot>, cash: seq<real>, ts: int, i: nat)
    requires |cash| == |before| && i < |before| && Due(before[i], ts)
    ensures Bills(before, cash, ts, i + 1) == Bills(before, cash, ts, i) +
              if Billed(before[i], cash[i], ts) > 0.0 then [InterestAccrual(i, Billed(before[i], cash[i], ts), ts)] else []
  {
    hide Billed;
  }

  // The token plays no part in what a maturity does.
  lemma IgnoresToken(s: Slot, cash: real, ts: int)
    ensures Matured(s.(due := NOT_QUEUED), cash, ts) == Matured(s, cash, ts)
    ensures Billed(s.(due := NOT_QUEUED), cash, ts) == Billed(s, cash, ts)
  {
  }

  lemma Later(due: seq<nat>, k: nat, j: nat)
    requires Increasing(due) && k < |due|
    ensures j in due[k + 1..] <==> j in due[k..] && j != due[k]
  {
    assert due[k..] == [due[k]] + due[k + 1..];
  }

  lemma Between(due: seq<nat>, k: nat, j: nat, n: nat)
    requires Increasing(due) && k < |due| && due[k] < j < NextDue(due, k + 1, n)
    ensures j !in due
  {
    forall m | 0 <= m < |due| ensures due[m] != j {
      assert m <= k || m == k + 1 || due[k + 1] < due[m];
    }
  }

  lemma SweepDone(before: seq<Slot>, now: seq<Slot>, due: seq<nat>, cash: seq<real>, queue: multiset<Entry>, ts: int)
    requires Sweeping(before, now, due, |due|, cash, queue, ts)
    ensures QueueCovers(now, queue) && now == SweptAll(before, cash, ts)
  {
    hide Swept;
    forall i: nat | i < |before| ensures now[i] == Swept(before[i], cash[i], ts) && Queued(now, queue, i) {
      assert SweepingSlot(before[i], now[i], i, due, |due|, cash[i], queue, ts);
    }
  }
}
