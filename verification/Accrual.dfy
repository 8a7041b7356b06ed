/** Line-of-credit accrual: one account's lazily rolled dollar-seconds, and the
    tracker that bills matured accounts from a due-time queue. */
module Accrual {
  import opened Words

  const PERIOD := 30 * DAY
  const YEAR: real := 365.25 * 86400.0
  const NOT_QUEUED := -1

  datatype Slot = Slot(enabled: bool, apr: real, billingDay: int, area: real,
                       lastUpdate: int, lastBilling: int, due: int)

  datatype InterestAccrual = InterestAccrual(account: nat, interest: real, timestamp: int)

  const EMPTY := Slot(false, 0.0, 0, 0.0, 0, 0, NOT_QUEUED)

  function Enabled(apr: real, billingDay: int): Slot {
    Slot(true, apr, billingDay, 0.0, 0, 0, 0)
  }

  function Owed(cash: real): (r: real)
    ensures r >= 0.0
  {
    if cash < 0.0 then -cash else 0.0
  }

  // Timestamp 0 is a sentinel and moves nothing.
  function Roll(s: Slot, preCash: real, ts: int): Slot {
    if !s.enabled || ts == 0 then
      s
    else if s.lastUpdate != 0 && ts > s.lastUpdate && preCash < 0.0 then
      s.(area := s.area + -preCash * (ts - s.lastUpdate) as real, lastUpdate := ts)
    else
      s.(lastUpdate := ts)
  }

  function Charge(s: Slot): real {
    s.area * s.apr / YEAR
  }

  predicate Due(s: Slot, ts: int) {
    s.enabled && s.due <= ts
  }

  // One due slot: the first maturity only starts the billing clock.
  function Matured(s: Slot, cash: real, ts: int): Slot {
    var u := Roll(s, cash, ts);
    if s.lastBilling == 0 then
      u.(lastBilling := ts, due := ts + PERIOD)
    else
      u.(area := 0.0, lastBilling := ts, due := ts + PERIOD)
  }

  function Billed(s: Slot, cash: real, ts: int): real {
    if s.lastBilling == 0 then 0.0 else Charge(Roll(s, cash, ts))
  }

  function Swept(s: Slot, cash: real, ts: int): Slot {
    if Due(s, ts) then Matured(s, cash, ts) else s
  }

  function SweptAll(slots: seq<Slot>, cash: seq<real>, ts: int): (r: seq<Slot>)
    requires |cash| == |slots|
    ensures |r| == |slots| && forall i :: 0 <= i < |slots| ==> r[i] == Swept(slots[i], cash[i], ts)
  {
    seq(|slots|, i requires 0 <= i < |slots| => Swept(slots[i], cash[i], ts))
  }

  // The accruals of the first n slots, in ascending order.
  function Bills(slots: seq<Slot>, cash: seq<real>, ts: int, n: nat): seq<InterestAccrual>
    requires n <= |slots| == |cash|
  {
    if n == 0 then
      []
    else
      var s := slots[n - 1];
      var interest := Billed(s, cash[n - 1], ts);
      Bills(slots, cash, ts, n - 1) +
      if Due(s, ts) && interest > 0.0 then [InterestAccrual(n - 1, interest, ts)] else []
  }

  // ---- The reference: every enabled slot is rolled and looked at ----

  predicate Mature(s: Slot, ts: int) {
    s.enabled && (s.lastBilling == 0 || ts - s.lastBilling >= PERIOD)
  }

  function Scanned(s: Slot, cash: real, ts: int): Slot {
    if Mature(s, ts) then Matured(s, cash, ts) else Roll(s, cash, ts)
  }

  // What the queue holds for a slot is what the scan would compute.
  predicate Scheduled(s: Slot) {
    if s.enabled then
      s.lastBilling >= 0 && s.due == if s.lastBilling == 0 then 0 else s.lastBilling + PERIOD
    else
      s.due == NOT_QUEUED
  }

  /** The queue's due test is the scan's maturity test. */
  lemma DueIsMature(s: Slot, ts: int)
    requires Scheduled(s) && ts > 0
    ensures Due(s, ts) <==> Mature(s, ts)
  {
  }

  /** Billing keeps the schedule except at the sentinel timestamp. */
  lemma SweepKeepsSchedule(s: Slot, cash: real, ts: int)
    requires Scheduled(s)
    ensures Scheduled(Swept(s, cash, ts)) <==> ts != 0 || !s.enabled || s.due > 0
  {
  }

  /** Every other operation keeps it: enabling and clearing, rolling at any time,
      and taking over another slot's state under one's own set-up. */
  lemma OthersKeepSchedule(s: Slot, other: Slot, apr: real, billingDay: int, cash: real, ts: int)
    ensures Scheduled(Enabled(apr, billingDay)) && Scheduled(EMPTY)
    ensures Scheduled(s) ==> Scheduled(Roll(s, cash, ts))
    ensures Scheduled(other) && other.enabled == s.enabled ==>
              Scheduled(other.(enabled := s.enabled, apr := s.apr, billingDay := s.billingDay))
  {
  }

  // A lazily rolled slot against one rolled more often on the same balance.
  predicate Lags(lazy: Slot, eager: Slot, cash: real, now: int) {
    && lazy.enabled && eager.enabled && lazy.apr == eager.apr && lazy.lastBilling == eager.lastBilling
    && Scheduled(lazy) && Scheduled(eager)
    && if lazy.lastUpdate == 0 then
         eager.lastUpdate == 0 && lazy.area == eager.area && lazy.lastBilling == 0
       else
         && 0 < lazy.lastUpdate <= eager.lastUpdate <= now
         && eager.area == lazy.area + Owed(cash) * (eager.lastUpdate - lazy.lastUpdate) as real
  }

  lemma SplitElapsed(owed: real, a: int, b: int, c: int)
    ensures owed * (b - a) as real + owed * (c - b) as real == owed * (c - a) as real
  {
    assert (c - a) as real == (b - a) as real + (c - b) as real;
  }

  // Rolling to now adds what was owed since the last update.
  lemma RollAdds(s: Slot, cash: real, ts: int)
    requires s.enabled && ts > 0 && s.lastUpdate <= ts
    ensures Roll(s, cash, ts) ==
              s.(lastUpdate := ts, area := s.area + if s.lastUpdate != 0 then Owed(cash) * (ts - s.lastUpdate) as real else 0.0)
  {
  }

  /** A posting rolls both to the same state. */
  lemma PostingCatchesUp(lazy: Slot, eager: Slot, cash: real, now: int, ts: int, after: real)
    requires Lags(lazy, eager, cash, now) && 0 < ts && now <= ts
    ensures Roll(lazy, cash, ts).area == Roll(eager, cash, ts).area
    ensures Lags(Roll(lazy, cash, ts), Roll(eager, cash, ts), after, ts)
  {
    RollAdds(lazy, cash, ts);
    RollAdds(eager, cash, ts);
    SplitElapsed(Owed(cash), lazy.lastUpdate, eager.lastUpdate, ts);
    SplitElapsed(Owed(after), ts, ts, ts);
  }

  /** A sweep bills the same interest from the queue as from the scan. */
  lemma SweepBillsAlike(lazy: Slot, eager: Slot, cash: real, now: int, ts: int)
    requires Lags(lazy, eager, cash, now) && 0 < ts && now <= ts
    ensures Due(lazy, ts) <==> Mature(eager, ts)
    ensures Due(lazy, ts) ==> Billed(lazy, cash, ts) == Billed(eager, cash, ts)
    ensures Lags(Swept(lazy, cash, ts), Scanned(eager, cash, ts), cash, ts)
  {
    PostingCatchesUp(lazy, eager, cash, now, ts, cash);
    DueIsMature(lazy, ts);
    RollAdds(eager, cash, ts);
    SplitElapsed(Owed(cash), lazy.lastUpdate, eager.lastUpdate, ts);
  }
}
