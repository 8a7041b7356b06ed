/** Who pays an overdraft fee, and when: stated on the accounts themselves. */
module ClearingFees {
  import opened Words
  import opened Keys
  import opened Accrual
  import opened Clearing
  import ClearingRuns
  import ClearingInterest

  // ---- Accounts as the set-up leaves them ----

  // A line of credit, and nothing else, accrues; without protection there is no
  // buffer to draw on.
  predicate ProtectedAs(a: BookedAccount, s: Slot) {
    && (s.enabled <==> a.protection == Loc)
    && (a.protection == Unprotected ==> a.overdraft + a.linked + a.courtesy <= 0.0)
  }

  ghost predicate SetUp(b: Book) {
    Shaped(b) && forall i :: 0 <= i < |b.accounts| ==> ProtectedAs(b.accounts[i], b.slots[i])
  }

  lemma {:induction false} StepKeepsSetUp(b: Book, op: Op)
    requires SetUp(b) && Runnable(b, op)
    ensures SetUp(Step(b, op))
  {
    hide Step, Roll, Swept;
    forall i | 0 <= i < |b.accounts| ensures ProtectedAs(Step(b, op).accounts[i], Step(b, op).slots[i]) {
      assert ProtectedAs(b.accounts[i], b.slots[i]);
      ClearingRuns.StepAt(b, op, i);
      ClearingInterest.StepSlot(b, op, i);
      SlotsKeepEnabled(b.slots[i], b.accounts[i].cash);
    }
  }

  lemma SlotsKeepEnabled(s: Slot, cash: real)
    ensures forall ts :: Roll(s, cash, ts).enabled == s.enabled && Swept(s, cash, ts).enabled == s.enabled
  {
  }

  lemma {:induction false} RunKeepsSetUp(b: Book, ops: seq<Op>)
    requires SetUp(b) && AllRunnable(b, ops)
    ensures SetUp(Run(b, ops))
  {
    hide SetUp, Step;
    if ops != [] {
      RunKeepsSetUp(b, ops[..|ops| - 1]);
      StepKeepsSetUp(Run(b, ops[..|ops| - 1]), ops[|ops| - 1]);
    }
  }

  // ---- The fee ----

  // A debit that takes the account's cash from zero or more to below zero, on
  // what its buffers can bear.
  predicate Overdraws(a: BookedAccount, amount: real) {
    && 0.0 <= a.cash < amount
    && amount <= a.cash + a.overdraft + a.linked + a.courtesy
  }

  // An ordinary posting to someone else: neither a transfer between one owner's
  // accounts nor a charge of the ledger itself.
  predicate Ordinary(p: Posting) {
    && p.src.Some? && p.src != p.dst
    && p.channel != SELF_TRANSFER && p.channel != OVERDRAFT_FEE && p.channel != LOC_INTEREST
  }

  predicate FeeDue(b: Book, p: Posting)
    requires Shaped(b) && Legs(b.accounts, p)
  {
    && Ordinary(p) && b.emit
    && var a := b.accounts[p.src.value];
    && a.key.role != Card && a.fee > 0.0 && Overdraws(a, p.amount)
    && !b.slots[p.src.value].enabled
  }

  /** A posting announces one fee, of the account's own amount at its own time,
      exactly when it overdraws a fee-paying account that accrues no interest; the
      fee leaves the account then. No other posting announces anything. */
  lemma FeeExactlyWhen(b: Book, p: Posting)
    requires SetUp(b) && Legs(b.accounts, p)
    ensures Posted(b, p).debits == b.debits +
              if FeeDue(b, p) then
                [LiquidityEvent(OVERDRAFT_FEE, b.accounts[p.src.value].key, b.accounts[p.src.value].fee, p.timestamp)]
              else []
    ensures FeeDue(b, p) ==>
      var a := b.accounts[p.src.value]; Posted(b, p).accounts[p.src.value] == a.(cash := a.cash - p.amount - a.fee)
  {
    hide Roll, Credit;
    if p.src.Some? {
      var i := p.src.value;
      assert ProtectedAs(b.accounts[i], b.slots[i]);
      ClearingRuns.AddCashAt(b.accounts, p.src, -p.amount, i);
      ClearingRuns.AddCashAt(Credit(b.accounts, p.src, -p.amount), p.dst, p.amount, i);
      ClearingRuns.PostedAt(b, p, i);
    }
  }

  /** An account that a posting overdraws pays a fee or accrues interest, and
      never both: with emission on and a fee set, a fee is announced exactly if its
      slot is not enabled. */
  lemma FeeOrInterest(b: Book, p: Posting)
    requires SetUp(b) && Legs(b.accounts, p) && b.emit && Ordinary(p)
    requires var a := b.accounts[p.src.value]; a.key.role != Card && a.fee > 0.0 && Overdraws(a, p.amount)
    ensures Decide(b.accounts, p) == None
    ensures |Posted(b, p).debits| == |b.debits| + if b.slots[p.src.value].enabled then 0 else 1
    ensures b.accounts[p.src.value].protection != Unprotected
  {
    assert ProtectedAs(b.accounts[p.src.value], b.slots[p.src.value]);
    FeeExactlyWhen(b, p);
  }

  // ---- Over a run ----

  function Overdrafts(debits: seq<LiquidityEvent>): seq<LiquidityEvent> {
    if debits == [] then []
    else
      Overdrafts(debits[..|debits| - 1]) +
      if debits[|debits| - 1].channel == OVERDRAFT_FEE then [debits[|debits| - 1]] else []
  }

  lemma {:induction false} OverdraftsConcat(d: seq<LiquidityEvent>, e: seq<LiquidityEvent>)
    ensures Overdrafts(d + e) == Overdrafts(d) + Overdrafts(e)
  {
    if e == [] {
      assert d + e == d;
    } else {
      var m := |e| - 1;
      OverdraftsConcat(d, e[..m]);
      assert (d + e)[..|d + e| - 1] == d + e[..m];
    }
  }

  function FeeOf(b: Book, op: Op): seq<LiquidityEvent>
    requires Runnable(b, op)
  {
    if op.Post? && FeeDue(b, op.posting) then
      var a := b.accounts[op.posting.src.value];
      [LiquidityEvent(OVERDRAFT_FEE, a.key, a.fee, op.posting.timestamp)]
    else []
  }

  function FeesOf(b: Book, ops: seq<Op>): seq<LiquidityEvent>
    requires AllRunnable(b, ops)
  {
    if ops == [] then []
    else FeesOf(b, ops[..|ops| - 1]) + FeeOf(Run(b, ops[..|ops| - 1]), ops[|ops| - 1])
  }

  lemma {:induction false} InterestOnly(b: Book, bills: seq<InterestAccrual>)
    requires Shaped(b) && forall k :: 0 <= k < |bills| ==> bills[k].account < |b.accounts|
    ensures Overdrafts(DebitAll(b, bills).debits) == Overdrafts(b.debits)
  {
    hide Roll;
    if bills != [] {
      var last := bills[|bills| - 1];
      var before := DebitAll(b, bills[..|bills| - 1]);
      InterestOnly(b, bills[..|bills| - 1]);
      var event := LiquidityEvent(LOC_INTEREST, before.accounts[last.account].key, last.interest, last.timestamp);
      assert (before.debits + [event])[..|before.debits|] == before.debits;
    }
  }

  lemma StepFees(b: Book, op: Op)
    requires SetUp(b) && Runnable(b, op)
    ensures Overdrafts(Step(b, op).debits) == Overdrafts(b.debits) + FeeOf(b, op)
  {
    hide SetUp, Posted, Bills, SweptAll, DebitAll, FeeDue, Overdrafts;
    match op
    case Post(p) =>
      FeeExactlyWhen(b, p);
      OverdraftsConcat(b.debits, FeeOf(b, op));
      OneOverdraft(FeeOf(b, op));
    case Accrue(ts) =>
      BillsKnown(b.slots, CashOf(b.accounts), ts, |b.slots|);
      InterestOnly(b.(slots := SweptAll(b.slots, CashOf(b.accounts), ts)), Bills(b.slots, CashOf(b.accounts), ts, |b.slots|));
  }

  lemma OneOverdraft(fees: seq<LiquidityEvent>)
    requires fees == [] || (|fees| == 1 && fees[0].channel == OVERDRAFT_FEE)
    ensures Overdrafts(fees) == fees
  {
    if fees != [] {
      assert fees[..0] == [] && fees == [fees[0]];
    }
  }

  /** Over any run the overdraft fees announced are exactly those due, posting by
      posting, in order. */
  lemma {:induction false} FeesAreDue(b: Book, ops: seq<Op>)
    requires SetUp(b) && AllRunnable(b, ops)
    ensures Overdrafts(Run(b, ops).debits) == Overdrafts(b.debits) + FeesOf(b, ops)
  {
    hide SetUp, Step, FeeOf, Overdrafts;
    if ops != [] {
      var k := |ops| - 1;
      FeesAreDue(b, ops[..k]);
      RunKeepsSetUp(b, ops[..k]);
      StepFees(Run(b, ops[..k]), ops[k]);
    }
  }
}
