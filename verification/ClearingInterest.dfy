/** The interest of a line of credit is the integral of its debt over time, and
    rolling lazily bills what rolling everything on every row would bill. */
module ClearingInterest {
  import opened Words
  import opened Accrual
  import opened Clearing
  import ClearingRuns

  function Time(op: Op): int {
    match op case Post(p) => p.timestamp case Accrue(ts) => ts
  }

  function Now(ops: seq<Op>): int {
    if ops == [] then 0 else Time(ops[|ops| - 1])
  }

  predicate Timed(ops: seq<Op>) {
    && (forall k :: 0 <= k < |ops| ==> Time(ops[k]) > 0)
    && forall j, k :: 0 <= j < k < |ops| ==> Time(ops[j]) <= Time(ops[k])
  }

  // ---- The reference: a sum over seconds ----

  // An account's balance at instant t.
  function BalanceAt(b: Book, ops: seq<Op>, i: nat, t: int): real
    requires AllRunnable(b, ops) && i < |b.accounts|
  {
    if ops == [] then b.accounts[i].cash
    else if Time(ops[|ops| - 1]) <= t then Run(b, ops).accounts[i].cash
    else BalanceAt(b, ops[..|ops| - 1], i, t)
  }

  // What was owed, second by second, from one instant to another.
  function Debt(b: Book, ops: seq<Op>, i: nat, from: int, until: int): real
    requires AllRunnable(b, ops) && i < |b.accounts|
    decreases until - from
  {
    if until <= from then 0.0 else Debt(b, ops, i, from, until - 1) + Owed(BalanceAt(b, ops, i, until - 1))
  }

  // ---- What one operation does to a slot ----

  // The operation rolls this account.
  predicate Touches(b: Book, op: Op, i: nat)
    requires Runnable(b, op) && i < |b.accounts|
  {
    match op
    case Post(p) => p.src == Some(i) || p.dst == Some(i)
    case Accrue(ts) => Due(b.slots[i], ts)
  }

  lemma RollTwice(s: Slot, c: real, d: real, ts: int)
    ensures Roll(Roll(s, c, ts), d, ts) == Roll(s, c, ts)
  {
  }

  predicate Settled(s: Slot, ts: int) {
    !s.enabled || ts == 0 || s.lastUpdate == ts
  }

  lemma SettledStays(s: Slot, c: real, ts: int)
    requires Settled(s, ts)
    ensures Roll(s, c, ts) == s
  {
  }

  lemma {:induction false} DebitAllSlots(b: Book, bills: seq<InterestAccrual>)
    requires Shaped(b) && forall k :: 0 <= k < |bills| ==> bills[k].account < |b.accounts|
    requires forall k :: 0 <= k < |bills| ==> Settled(b.slots[bills[k].account], bills[k].timestamp)
    ensures DebitAll(b, bills).slots == b.slots
  {
    hide Roll, Settled;
    if bills != [] {
      var m := |bills| - 1;
      DebitAllSlots(b, bills[..m]);
      var before := DebitAll(b, bills[..m]);
      SettledStays(b.slots[bills[m].account], before.accounts[bills[m].account].cash, bills[m].timestamp);
    }
  }

  lemma {:induction false} DebitAllElsewhere(b: Book, bills: seq<InterestAccrual>, i: nat)
    requires Shaped(b) && i < |b.accounts|
    requires forall k :: 0 <= k < |bills| ==> bills[k].account < |b.accounts| && bills[k].account != i
    ensures DebitAll(b, bills).accounts[i] == b.accounts[i]
  {
    hide Roll;
    if bills != [] {
      DebitAllElsewhere(b, bills[..|bills| - 1], i);
    }
  }

  /** A sweep bills exactly the due accounts that owe something. */
  lemma {:induction false} BilledExactly(slots: seq<Slot>, cash: seq<real>, ts: int, n: nat, bill: InterestAccrual)
    requires n <= |slots| == |cash|
    ensures bill in Bills(slots, cash, ts, n) <==>
            && bill.account < n && Due(slots[bill.account], ts) && bill.timestamp == ts
            && bill.interest == Billed(slots[bill.account], cash[bill.account], ts) && bill.interest > 0.0
  {
    hide Billed, Due;
    if n > 0 {
      BilledExactly(slots, cash, ts, n - 1, bill);
    }
  }

  predicate BillOf(b: Book, ts: int, bill: InterestAccrual)
    requires Shaped(b)
  {
    bill.account < |b.accounts| && Due(b.slots[bill.account], ts) && bill.timestamp == ts
  }

  lemma BillsAreDue(b: Book, ts: int, bills: seq<InterestAccrual>)
    requires Shaped(b) && bills == Bills(b.slots, CashOf(b.accounts), ts, |b.slots|)
    ensures forall k :: 0 <= k < |bills| ==> BillOf(b, ts, bills[k])
  {
    hide Bills, Due;
    forall k | 0 <= k < |bills| ensures BillOf(b, ts, bills[k]) {
      BilledExactly(b.slots, CashOf(b.accounts), ts, |b.slots|, bills[k]);
    }
  }

  lemma SweptSettles(s: Slot, cash: real, ts: int)
    ensures Due(s, ts) ==> Settled(Swept(s, cash, ts), ts)
  {
  }

  /** One operation's effect on one account's slot, and on its cash when the
      operation does not touch it. */
  lemma StepSlot(b: Book, op: Op, i: nat)
    requires Runnable(b, op) && i < |b.accounts|
    ensures Step(b, op).slots[i] ==
              match op
              case Post(p) => if Touches(b, op, i) then Roll(b.slots[i], b.accounts[i].cash, p.timestamp) else b.slots[i]
              case Accrue(ts) => Swept(b.slots[i], b.accounts[i].cash, ts)
    ensures !Touches(b, op, i) ==> Step(b, op).accounts[i] == b.accounts[i]
  {
    match op
    case Accrue(ts) => AccrueSlot(b, ts, i);
    case Post(p) => PostSlot(b, p, i);
  }

  lemma AccrueSlot(b: Book, ts: int, i: nat)
    requires Shaped(b) && i < |b.accounts|
    ensures Accrued(b, ts).slots[i] == Swept(b.slots[i], b.accounts[i].cash, ts)
    ensures !Due(b.slots[i], ts) ==> Accrued(b, ts).accounts[i] == b.accounts[i]
  {
    hide Roll, Bills, Swept, Due, DebitAll, Settled, CashOf;
    BillsKnown(b.slots, CashOf(b.accounts), ts, |b.slots|);
    var bills := Bills(b.slots, CashOf(b.accounts), ts, |b.slots|);
    BillsAreDue(b, ts, bills);
    var swept := b.(slots := SweptAll(b.slots, CashOf(b.accounts), ts));
    forall k | 0 <= k < |bills| ensures Settled(swept.slots[bills[k].account], bills[k].timestamp) {
      var j := bills[k].account;
      assert BillOf(b, ts, bills[k]);
      SweptSettles(b.slots[j], CashOf(b.accounts)[j], ts);
    }
    DebitAllSlots(swept, bills);
    if !Due(b.slots[i], ts) {
      assert forall k :: 0 <= k < |bills| ==> BillOf(b, ts, bills[k]) && bills[k].account != i;
      DebitAllElsewhere(swept, bills, i);
    }
  }

  lemma PostSlot(b: Book, p: Posting, i: nat)
    requires Shaped(b) && Legs(b.accounts, p) && i < |b.accounts|
    ensures Posted(b, p).slots[i] ==
              if p.src == Some(i) || p.dst == Some(i) then Roll(b.slots[i], b.accounts[i].cash, p.timestamp) else b.slots[i]
    ensures p.src != Some(i) && p.dst != Some(i) ==> Posted(b, p).accounts[i] == b.accounts[i]
  {
    hide Roll, Decide, Charged, Credit;
    ClearingRuns.PostedAt(b, p, i);
    RollTwice(b.slots[i], b.accounts[i].cash, b.accounts[i].cash, p.timestamp);
    RollTwice(b.slots[i], b.accounts[i].cash, Moved(b.accounts, p)[i].cash, p.timestamp);
    ClearingRuns.ChargedHasSource(b, p);
  }

  // ---- The balance between operations ----

  lemma BalanceNow(b: Book, ops: seq<Op>, i: nat, t: int)
    requires AllRunnable(b, ops) && i < |b.accounts| && Timed(ops) && Now(ops) <= t
    ensures BalanceAt(b, ops, i, t) == Run(b, ops).accounts[i].cash
  {
  }

  lemma {:induction false} DebtExtends(b: Book, ops: seq<Op>, op: Op, i: nat, from: int, until: int)
    requires AllRunnable(b, ops) && Runnable(b, op) && AllRunnable(b, ops + [op]) && i < |b.accounts| && until <= Time(op)
    ensures Debt(b, ops + [op], i, from, until) == Debt(b, ops, i, from, until)
    decreases until - from
  {
    hide Run;
    assert (ops + [op])[..|ops|] == ops;
    if from < until {
      DebtExtends(b, ops, op, i, from, until - 1);
    }
  }

  ghost predicate SteadyFrom(b: Book, ops: seq<Op>, i: nat, start: int, cash: real)
    requires AllRunnable(b, ops) && i < |b.accounts|
  {
    forall t :: start <= t ==> BalanceAt(b, ops, i, t) == cash
  }

  lemma {:induction false} DebtSteady(b: Book, ops: seq<Op>, i: nat, from: int, mid: int, until: int, cash: real)
    requires AllRunnable(b, ops) && i < |b.accounts| && from <= mid <= until && SteadyFrom(b, ops, i, mid, cash)
    ensures Debt(b, ops, i, from, until) == Debt(b, ops, i, from, mid) + Owed(cash) * (until - mid) as real
    decreases until - mid
  {
    hide BalanceAt, Owed;
    if mid < until {
      DebtSteady(b, ops, i, from, mid, until - 1, cash);
      assert BalanceAt(b, ops, i, until - 1) == cash;
      SplitElapsed(Owed(cash), mid, until - 1, until);
    }
  }

  // ---- The lazy integral ----

  /** When the running integral starts: the last billing, or else the first
      operation that touched the account; 0 before that. */
  function Since(b: Book, ops: seq<Op>, i: nat): int
    requires AllRunnable(b, ops) && i < |b.accounts|
  {
    if ops == [] then
      0
    else
      var prefix, op := ops[..|ops| - 1], ops[|ops| - 1];
      if !Touches(Run(b, prefix), op, i) then Since(b, prefix, i)
      else if Since(b, prefix, i) == 0 || BillsAt(Run(b, prefix), op, i) then Time(op)
      else Since(b, prefix, i)
  }

  predicate BillsAt(b: Book, op: Op, i: nat)
    requires Runnable(b, op) && i < |b.accounts|
  {
    op.Accrue? && Due(b.slots[i], op.timestamp) && b.slots[i].lastBilling != 0
  }

  predicate Fresh(s: Slot) {
    s.enabled && s.area == 0.0 && s.lastUpdate == 0 && s.lastBilling == 0 && s.due == 0
  }

  ghost predicate Tracks(b: Book, ops: seq<Op>, i: nat)
    requires AllRunnable(b, ops) && i < |b.accounts|
  {
    var s, start := Run(b, ops).slots[i], Since(b, ops, i);
    && s.apr == b.slots[i].apr
    && if start == 0 then
         Fresh(s)
       else
         && s.enabled && Scheduled(s) && 0 < start <= s.lastUpdate <= Now(ops) && s.lastBilling <= s.lastUpdate
         && s.area == Debt(b, ops, i, start, s.lastUpdate)
         && SteadyFrom(b, ops, i, s.lastUpdate, Run(b, ops).accounts[i].cash)
  }

  // Rolled to ts, the integral is the debt up to ts.
  lemma RolledIsDebt(b: Book, ops: seq<Op>, i: nat, ts: int)
    requires AllRunnable(b, ops) && i < |b.accounts| && Tracks(b, ops, i) && Since(b, ops, i) != 0
    requires ts > 0 && Now(ops) <= ts
    ensures var s, cash := Run(b, ops).slots[i], Run(b, ops).accounts[i].cash;
            Roll(s, cash, ts) == s.(lastUpdate := ts, area := Debt(b, ops, i, Since(b, ops, i), ts))
  {
    hide Run, Debt, BalanceAt, Since, SteadyFrom;
    var s, cash := Run(b, ops).slots[i], Run(b, ops).accounts[i].cash;
    RollAdds(s, cash, ts);
    DebtSteady(b, ops, i, Since(b, ops, i), s.lastUpdate, ts, cash);
  }

  lemma FreshRoll(s: Slot, cash: real, ts: int)
    requires Fresh(s) && ts > 0
    ensures Roll(s, cash, ts) == s.(lastUpdate := ts)
    ensures Swept(s, cash, ts) == s.(lastUpdate := ts, lastBilling := ts, due := ts + PERIOD)
    ensures Due(s, ts)
  {
  }

  lemma SteadyNow(b: Book, ops: seq<Op>, i: nat)
    requires AllRunnable(b, ops) && i < |b.accounts| && Timed(ops)
    ensures SteadyFrom(b, ops, i, Now(ops), Run(b, ops).accounts[i].cash)
  {
    forall t | Now(ops) <= t ensures BalanceAt(b, ops, i, t) == Run(b, ops).accounts[i].cash {
      BalanceNow(b, ops, i, t);
    }
  }

  lemma SteadyUntouched(b: Book, ops: seq<Op>, op: Op, i: nat, start: int)
    requires AllRunnable(b, ops) && Runnable(b, op) && AllRunnable(b, ops + [op]) && i < |b.accounts|
    requires SteadyFrom(b, ops, i, start, Run(b, ops).accounts[i].cash) && !Touches(Run(b, ops), op, i)
    ensures Run(b, ops + [op]).accounts[i] == Run(b, ops).accounts[i]
    ensures SteadyFrom(b, ops + [op], i, start, Run(b, ops).accounts[i].cash)
  {
    hide Run, Step, Touches, BalanceAt;
    StepSlot(Run(b, ops), op, i);
    BalanceNext(b, ops, op, i);
  }

  lemma BalanceNext(b: Book, ops: seq<Op>, op: Op, i: nat)
    requires AllRunnable(b, ops) && Runnable(b, op) && AllRunnable(b, ops + [op]) && i < |b.accounts|
    ensures Run(b, ops + [op]) == Step(Run(b, ops), op)
    ensures forall t :: BalanceAt(b, ops + [op], i, t) == if Time(op) <= t then Step(Run(b, ops), op).accounts[i].cash else BalanceAt(b, ops, i, t)
  {
    hide Step;
    assert (ops + [op])[..|ops|] == ops;
  }

  lemma SinceNext(b: Book, ops: seq<Op>, op: Op, i: nat)
    requires AllRunnable(b, ops) && Runnable(b, op) && AllRunnable(b, ops + [op]) && i < |b.accounts|
    ensures Since(b, ops + [op], i) ==
              if !Touches(Run(b, ops), op, i) then Since(b, ops, i)
              else if Since(b, ops, i) == 0 || BillsAt(Run(b, ops), op, i) then Time(op)
              else Since(b, ops, i)
    ensures Run(b, ops + [op]) == Step(Run(b, ops), op)
  {
    assert (ops + [op])[..|ops|] == ops;
  }

  lemma TimedNext(ops: seq<Op>, op: Op)
    requires Timed(ops + [op])
    ensures Timed(ops) && Time(op) > 0 && Now(ops) <= Time(op) && Now(ops + [op]) == Time(op)
  {
    var all := ops + [op];
    assert forall k :: 0 <= k < |ops| ==> all[k] == ops[k];
    assert all[|ops|] == op;
  }

  // The lazily kept integral is followed through one more operation.
  lemma TracksNext(b: Book, ops: seq<Op>, op: Op, i: nat)
    requires AllRunnable(b, ops) && Runnable(b, op) && AllRunnable(b, ops + [op]) && i < |b.accounts| && Timed(ops + [op])
    requires Tracks(b, ops, i)
    ensures Tracks(b, ops + [op], i)
  {
    hide Run, Step, Debt, SteadyFrom, BalanceAt, Since, Roll, Swept, Timed, AllRunnable, Now, Time;
    var before, s, start, ts := Run(b, ops), Run(b, ops).slots[i], Since(b, ops, i), Time(op);
    TimedNext(ops, op);
    SinceNext(b, ops, op, i);
    StepSlot(before, op, i);
    SteadyNow(b, ops + [op], i);
    TimeIs(op);
    if start == 0 {
      FreshRoll(s, before.accounts[i].cash, ts);
      NoDebt(b, ops + [op], i, ts);
    } else if !Touches(before, op, i) {
      NotDueSame(s, before.accounts[i].cash, ts);
      SteadyUntouched(b, ops, op, i, s.lastUpdate);
      DebtExtends(b, ops, op, i, start, s.lastUpdate);
    } else {
      RolledIsDebt(b, ops, i, ts);
      DebtExtends(b, ops, op, i, start, ts);
      NoDebt(b, ops + [op], i, ts);
      MaturedIs(s, before.accounts[i].cash, ts);
    }
  }

  lemma TimeIs(op: Op)
    ensures Time(op) == match op case Post(p) => p.timestamp case Accrue(ts) => ts
  {
  }

  lemma NoDebt(b: Book, ops: seq<Op>, i: nat, ts: int)
    requires AllRunnable(b, ops) && i < |b.accounts|
    ensures Debt(b, ops, i, ts, ts) == 0.0
  {
  }

  lemma NotDueSame(s: Slot, cash: real, ts: int)
    ensures !Due(s, ts) ==> Swept(s, cash, ts) == s
  {
  }

  lemma MaturedIs(s: Slot, cash: real, ts: int)
    ensures Due(s, ts) ==>
              var u := Roll(s, cash, ts);
              Swept(s, cash, ts) == u.(lastBilling := ts, due := ts + PERIOD, area := if s.lastBilling == 0 then u.area else 0.0)
  {
  }

  /** Between sweeps the lazily rolled integral is the debt, second by second,
      from the first touch or the last billing to the last touch. */
  lemma {:induction false} AlwaysTracks(b: Book, ops: seq<Op>, i: nat)
    requires AllRunnable(b, ops) && i < |b.accounts| && Timed(ops) && Fresh(b.slots[i])
    ensures Tracks(b, ops, i)
  {
    hide Step, Debt, SteadyFrom, BalanceAt;
    if ops != [] {
      var m := |ops| - 1;
      assert ops == ops[..m] + [ops[m]];
      TimedNext(ops[..m], ops[m]);
      AlwaysTracks(b, ops[..m], i);
      TracksNext(b, ops[..m], ops[m], i);
    }
  }

  /** The interest a sweep charges is the yearly rate applied to the debt since
      the last billing, or since the first touch. */
  lemma InterestIsIntegral(b: Book, ops: seq<Op>, i: nat, ts: int)
    requires AllRunnable(b, ops) && i < |b.accounts| && Timed(ops + [Accrue(ts)]) && Fresh(b.slots[i])
    ensures var before := Run(b, ops);
            && (Due(before.slots[i], ts) <==> Mature(before.slots[i], ts))
            && (BillsAt(before, Accrue(ts), i) ==>
                  && Since(b, ops, i) > 0
                  && Billed(before.slots[i], before.accounts[i].cash, ts) ==
                       Debt(b, ops, i, Since(b, ops, i), ts) * b.slots[i].apr / YEAR)
  {
    hide Run, Step, Debt, SteadyFrom, BalanceAt, Since, Roll, Timed;
    TimedNext(ops, Accrue(ts));
    AlwaysTracks(b, ops, i);
    var before := Run(b, ops);
    DueIsMature(before.slots[i], ts);
    if Since(b, ops, i) != 0 {
      RolledIsDebt(b, ops, i, ts);
    }
  }

  ghost predicate StartsAt(b: Book, ops: seq<Op>, i: nat, k: nat)
    requires AllRunnable(b, ops) && i < |b.accounts| && k < |ops|
  {
    && Touches(Run(b, ops[..k]), ops[k], i)
    && (BillsAt(Run(b, ops[..k]), ops[k], i) || forall j :: 0 <= j < k ==> !Touches(Run(b, ops[..j]), ops[j], i))
    && forall j :: k < j < |ops| ==> !BillsAt(Run(b, ops[..j]), ops[j], i)
  }

  /** The integral starts at the last operation that billed the account, or, when
      none has, at the first that touched it. */
  lemma {:induction false} SinceIs(b: Book, ops: seq<Op>, i: nat)
    requires AllRunnable(b, ops) && i < |b.accounts| && Timed(ops)
    ensures Since(b, ops, i) == 0 <==> forall j :: 0 <= j < |ops| ==> !Touches(Run(b, ops[..j]), ops[j], i)
    ensures Since(b, ops, i) != 0 ==> exists k: nat :: k < |ops| && StartsAt(b, ops, i, k) && Since(b, ops, i) == Time(ops[k])
  {
    hide Run, Step, Touches, BillsAt, Time, Timed, StartsAt;
    if ops != [] {
      var m := |ops| - 1;
      var before, op := ops[..m], ops[m];
      assert ops == before + [op];
      TimedNext(before, op);
      SinceIs(b, before, i);
      SinceNext(b, before, op, i);
      assert forall j :: 0 <= j < m ==> ops[..j] == before[..j] && ops[j] == before[j];
      StartsNext(b, before, op, i);
      if Touches(Run(b, before), op, i) && (Since(b, before, i) == 0 || BillsAt(Run(b, before), op, i)) {
        assert StartsAt(b, ops, i, m) && ops[m] == op;
      } else if Since(b, before, i) != 0 {
        var k: nat :| k < m && StartsAt(b, before, i, k) && Since(b, before, i) == Time(before[k]);
        BillsTouch(Run(b, before), op, i);
        assert StartsAt(b, ops, i, k) && ops[k] == before[k];
      }
    }
  }

  lemma BillsTouch(b: Book, op: Op, i: nat)
    requires Runnable(b, op) && i < |b.accounts|
    ensures BillsAt(b, op, i) ==> Touches(b, op, i)
  {
  }

  lemma StartsNext(b: Book, ops: seq<Op>, op: Op, i: nat)
    requires AllRunnable(b, ops) && Runnable(b, op) && AllRunnable(b, ops + [op]) && i < |b.accounts|
    ensures forall k: nat :: k < |ops| && StartsAt(b, ops, i, k) && !BillsAt(Run(b, ops), op, i) ==> StartsAt(b, ops + [op], i, k)
    ensures BillsAt(Run(b, ops), op, i) ==> StartsAt(b, ops + [op], i, |ops|)
    ensures Touches(Run(b, ops), op, i) && (forall j :: 0 <= j < |ops| ==> !Touches(Run(b, ops[..j]), ops[j], i)) ==>
              StartsAt(b, ops + [op], i, |ops|)
  {
    hide Run, Step, Due;
    var all := ops + [op];
    assert all[|ops|] == op && all[..|ops|] == ops;
    assert forall j :: 0 <= j < |ops| ==> all[..j] == ops[..j] && all[j] == ops[j];
  }

  // ---- The eager reference ----

  /** The same account rolled on every operation of any account once it has
      started, and looked at by every sweep. */
  function Eager(b: Book, ops: seq<Op>, i: nat): Slot
    requires AllRunnable(b, ops) && i < |b.accounts|
  {
    if ops == [] then
      b.slots[i]
    else
      var prefix, op := ops[..|ops| - 1], ops[|ops| - 1];
      var e, before := Eager(b, prefix, i), Run(b, prefix);
      match op
      case Post(p) => if Touches(before, op, i) || e.lastUpdate != 0 then Roll(e, before.accounts[i].cash, p.timestamp) else e
      case Accrue(ts) => Scanned(e, before.accounts[i].cash, ts)
  }

  lemma EagerNext(b: Book, ops: seq<Op>, op: Op, i: nat)
    requires AllRunnable(b, ops) && Runnable(b, op) && AllRunnable(b, ops + [op]) && i < |b.accounts|
    ensures var e, before := Eager(b, ops, i), Run(b, ops);
            Eager(b, ops + [op], i) ==
              match op
              case Post(p) => if Touches(before, op, i) || e.lastUpdate != 0 then Roll(e, before.accounts[i].cash, p.timestamp) else e
              case Accrue(ts) => Scanned(e, before.accounts[i].cash, ts)
    ensures Run(b, ops + [op]) == Step(Run(b, ops), op)
  {
    assert (ops + [op])[..|ops|] == ops;
  }

  // Caught up, the two agree whatever the balance is.
  lemma CaughtUp(lazy: Slot, eager: Slot, cash: real, now: int, after: real, op: Op)
    requires Lags(lazy, eager, cash, now) && (lazy.lastUpdate == now || lazy.lastUpdate == 0)
    ensures Lags(lazy, eager, after, now)
  {
    SplitElapsed(Owed(cash), now, now, now);
  }

  lemma OthersRoll(lazy: Slot, eager: Slot, cash: real, now: int, ts: int)
    requires Lags(lazy, eager, cash, now) && 0 < ts && now <= ts
    ensures Lags(lazy, if eager.lastUpdate != 0 then Roll(eager, cash, ts) else eager, cash, ts)
  {
    RollAdds(eager, cash, ts);
    SplitElapsed(Owed(cash), lazy.lastUpdate, eager.lastUpdate, ts);
  }

  lemma EagerStep(b: Book, ops: seq<Op>, op: Op, i: nat)
    requires AllRunnable(b, ops) && Runnable(b, op) && AllRunnable(b, ops + [op]) && i < |b.accounts| && Timed(ops + [op])
    requires Lags(Run(b, ops).slots[i], Eager(b, ops, i), Run(b, ops).accounts[i].cash, Now(ops))
    ensures Lags(Run(b, ops + [op]).slots[i], Eager(b, ops + [op], i), Run(b, ops + [op]).accounts[i].cash, Time(op))
  {
    hide Run, Step, Eager, Lags, Roll, Swept, Scanned, Timed, Now;
    var before, eager := Run(b, ops), Eager(b, ops, i);
    var s, cash, after := before.slots[i], before.accounts[i].cash, Step(before, op).accounts[i].cash;
    TimedNext(ops, op);
    EagerNext(b, ops, op, i);
    StepSlot(before, op, i);
    match op
    case Accrue(ts) =>
      SweepBillsAlike(s, eager, cash, Now(ops), ts);
      if Due(s, ts) {
        SweptNow(s, cash, ts);
        CaughtUp(Swept(s, cash, ts), Scanned(eager, cash, ts), cash, ts, after, op);
      }
    case Post(p) =>
      if Touches(before, op, i) {
        PostingCatchesUp(s, eager, cash, Now(ops), p.timestamp, after);
      } else {
        OthersRoll(s, eager, cash, Now(ops), p.timestamp);
      }
  }

  lemma SweptNow(s: Slot, cash: real, ts: int)
    ensures Due(s, ts) && ts != 0 ==> Swept(s, cash, ts).lastUpdate == ts
  {
  }

  /** Lazy and eager rolling agree along every run: they differ by what the last
      balance has owed since, mature together, and are billed the same interest. */
  lemma {:induction false} LazyIsEager(b: Book, ops: seq<Op>, i: nat, ts: int)
    requires AllRunnable(b, ops) && i < |b.accounts| && Timed(ops) && Fresh(b.slots[i])
    requires ts > 0 && Now(ops) <= ts
    ensures var lazy, eager, cash := Run(b, ops).slots[i], Eager(b, ops, i), Run(b, ops).accounts[i].cash;
            && Lags(lazy, eager, cash, Now(ops))
            && (Due(lazy, ts) <==> Mature(eager, ts))
            && (Due(lazy, ts) ==> Billed(lazy, cash, ts) == Billed(eager, cash, ts))
  {
    hide Step, Roll, Billed, Due, Mature;
    if ops == [] {
      SplitElapsed(0.0, 0, 0, 0);
    } else {
      var m := |ops| - 1;
      assert ops == ops[..m] + [ops[m]];
      TimedNext(ops[..m], ops[m]);
      LazyIsEager(b, ops[..m], i, Time(ops[m]));
      EagerStep(b, ops[..m], ops[m], i);
    }
    SweepBillsAlike(Run(b, ops).slots[i], Eager(b, ops, i), Run(b, ops).accounts[i].cash, Now(ops), ts);
  }
}
