/** What holds over every run of postings and sweeps: money is conserved, debits
    are funded, fees are separated, and interest is an integral of the debt. */
module ClearingRuns {
  import opened Words
  import opened Accrual
  import opened Clearing

  // ---- Conservation ----

  function TotalCash(accounts: seq<BookedAccount>): real {
    if accounts == [] then 0.0 else TotalCash(accounts[..|accounts| - 1]) + accounts[|accounts| - 1].cash
  }

  function TotalDebits(debits: seq<LiquidityEvent>): real {
    if debits == [] then 0.0 else TotalDebits(debits[..|debits| - 1]) + debits[|debits| - 1].amount
  }

  // What an operation brings in from outside, less what it sends out.
  function NetInflow(b: Book, op: Op): real
    requires Runnable(b, op)
  {
    if op.Accrue? || Decide(b.accounts, op.posting) != None then 0.0
    else (if op.posting.src == None then op.posting.amount else 0.0) - if op.posting.dst == None then op.posting.amount else 0.0
  }

  function NetInflows(b: Book, ops: seq<Op>): real
    requires AllRunnable(b, ops)
  {
    if ops == [] then 0.0
    else NetInflows(b, ops[..|ops| - 1]) + NetInflow(Run(b, ops[..|ops| - 1]), ops[|ops| - 1])
  }

  lemma {:induction false} AddCashTotal(accounts: seq<BookedAccount>, i: nat, amount: real)
    requires i < |accounts|
    ensures TotalCash(AddCash(accounts, i, amount)) == TotalCash(accounts) + amount
  {
    var m := |accounts| - 1;
    if i < m {
      AddCashTotal(accounts[..m], i, amount);
      assert AddCash(accounts, i, amount)[..m] == AddCash(accounts[..m], i, amount);
    } else {
      assert AddCash(accounts, i, amount)[..m] == accounts[..m];
    }
  }

  lemma CreditTotal(accounts: seq<BookedAccount>, leg: Option<nat>, amount: real)
    requires Known(accounts, leg)
    ensures TotalCash(Credit(accounts, leg, amount)) == TotalCash(accounts) + if leg == None then 0.0 else amount
  {
    if leg.Some? {
      AddCashTotal(accounts, leg.value, amount);
    }
  }

  // Cash and what has been debited from it.
  function Held(b: Book): real {
    TotalCash(b.accounts) + TotalDebits(b.debits)
  }

  lemma DebitedHeld(b: Book, i: nat, amount: real, channel: Tag, ts: int)
    requires Shaped(b) && i < |b.accounts|
    ensures Held(Debited(b, i, amount, channel, ts)) == Held(b)
  {
    hide Roll;
    AddCashTotal(b.accounts, i, -amount);
    var event := LiquidityEvent(channel, b.accounts[i].key, amount, ts);
    assert (b.debits + [event])[..|b.debits|] == b.debits;
  }

  lemma {:induction false} DebitAllHeld(b: Book, bills: seq<InterestAccrual>)
    requires Shaped(b) && forall k :: 0 <= k < |bills| ==> bills[k].account < |b.accounts|
    ensures Held(DebitAll(b, bills)) == Held(b)
  {
    hide Debited, Held;
    if bills != [] {
      var m := |bills| - 1;
      DebitAllHeld(b, bills[..m]);
      DebitedHeld(DebitAll(b, bills[..m]), bills[m].account, bills[m].interest, LOC_INTEREST, bills[m].timestamp);
    }
  }

  lemma StepHeld(b: Book, op: Op)
    requires Runnable(b, op)
    ensures Held(Step(b, op)) == Held(b) + NetInflow(b, op)
  {
    hide Roll, Debited, Bills, SweptAll, Decide, Charged, DebitAll, Credit, TotalCash, TotalDebits;
    match op
    case Accrue(ts) =>
      BillsKnown(b.slots, CashOf(b.accounts), ts, |b.slots|);
      DebitAllHeld(b.(slots := SweptAll(b.slots, CashOf(b.accounts), ts)), Bills(b.slots, CashOf(b.accounts), ts, |b.slots|));
    case Post(p) =>
      CreditTotal(b.accounts, p.src, -p.amount);
      CreditTotal(Credit(b.accounts, p.src, -p.amount), p.dst, p.amount);
      OneLegInside(b.accounts, p);
      if Decide(b.accounts, p) == None && Charged(b, p) {
        ChargedHasSource(b, p);
        var rolled := RollAt(RollAt(b, p.src, p.timestamp), p.dst, p.timestamp);
        DebitedHeld(rolled.(accounts := Moved(b.accounts, p)), p.src.value, b.accounts[p.src.value].fee, OVERDRAFT_FEE, p.timestamp);
      }
  }

  lemma ChargedHasSource(b: Book, p: Posting)
    requires Legs(b.accounts, p)
    ensures Charged(b, p) ==> p.src.Some? && b.accounts[p.src.value].fee > 0.0 && !IsLiquidity(p.channel)
  {
  }

  lemma OneLegInside(accounts: seq<BookedAccount>, p: Posting)
    requires Legs(accounts, p)
    ensures Decide(accounts, p) == None ==> p.amount > 0.0 && (p.src.Some? || p.dst.Some?)
  {
  }

  /** Over any run, the cash inside changes by exactly what came in, less what
      went out, less the fees and the interest charged. */
  lemma {:induction false} CashConserved(b: Book, ops: seq<Op>)
    requires AllRunnable(b, ops)
    ensures var after := Run(b, ops);
            TotalCash(after.accounts) == TotalCash(b.accounts) + NetInflows(b, ops)
                                         - (TotalDebits(after.debits) - TotalDebits(b.debits))
  {
    hide Step, TotalCash, TotalDebits;
    if ops != [] {
      CashConserved(b, ops[..|ops| - 1]);
      StepHeld(Run(b, ops[..|ops| - 1]), ops[|ops| - 1]);
    }
  }

  // ---- Funding ----

  /** An ordinary posting goes through exactly when its source can bear it: the
      debit on its own leaves no negative liquidity, nor negative cash when it
      is a transfer between one owner's accounts. */
  lemma FundedExactly(accounts: seq<BookedAccount>, p: Posting)
    requires Legs(accounts, p) && p.src.Some? && !IsLiquidity(p.channel) && p.amount > 0.0
    ensures Decide(accounts, p) == None <==>
            var a := Credit(accounts, p.src, -p.amount)[p.src.value];
            if p.channel == SELF_TRANSFER then a.cash >= 0.0 else Liquidity(a) >= 0.0
  {
  }

  /** The whole decision: nothing but money is invalid, only two outside parties are
      unbooked, outside money and the ledger's own charges are always accepted, and
      any other posting lacks funds exactly when its source cannot bear it. */
  lemma DecidedExactly(accounts: seq<BookedAccount>, p: Posting)
    requires Legs(accounts, p)
    ensures Decide(accounts, p) == Some(Invalid) <==> p.amount <= 0.0
    ensures Decide(accounts, p) == Some(Unbooked) <==> p.amount > 0.0 && p.src == None && p.dst == None
    ensures Decide(accounts, p) == Some(Unfunded) <==>
              && p.amount > 0.0 && p.src.Some? && p.channel != OVERDRAFT_FEE && p.channel != LOC_INTEREST
              && var a := accounts[p.src.value];
                 a.cash + (if p.channel == SELF_TRANSFER then 0.0 else a.overdraft + a.linked + a.courtesy) < p.amount
  {
  }

  /** The accepted move leaves the source solvent before any fee. */
  lemma SolventBeforeFee(accounts: seq<BookedAccount>, p: Posting)
    requires Legs(accounts, p) && p.src.Some? && !IsLiquidity(p.channel) && Decide(accounts, p) == None
    ensures var a := Moved(accounts, p)[p.src.value];
            (if p.channel == SELF_TRANSFER then a.cash else Liquidity(a)) >= 0.0
  {
  }

  // ---- Fees ----

  predicate FeeAt(b: Book, op: Op, i: nat)
    requires Runnable(b, op)
  {
    op.Post? && op.posting.src == Some(i) && Charged(b, op.posting)
  }

  // An accepted credit that brings the account's cash back to zero or more.
  predicate Restores(b: Book, op: Op, i: nat)
    requires Runnable(b, op) && i < |b.accounts|
  {
    && op.Post? && op.posting.dst == Some(i) && Decide(b.accounts, op.posting) == None
    && b.accounts[i].cash < 0.0 <= Step(b, op).accounts[i].cash
  }

  lemma AddCashAt(accounts: seq<BookedAccount>, leg: Option<nat>, amount: real, i: nat)
    requires Known(accounts, leg) && i < |accounts|
    ensures Credit(accounts, leg, amount)[i] == accounts[i].(cash := accounts[i].cash + if leg == Some(i) then amount else 0.0)
  {
  }

  // What one posting does to one account.
  lemma PostedAt(b: Book, p: Posting, i: nat)
    requires Shaped(b) && Legs(b.accounts, p) && i < |b.accounts|
    ensures var a := b.accounts[i];
            Posted(b, p).accounts[i] ==
              if Decide(b.accounts, p) != None then a else
              a.(cash := a.cash - (if p.src == Some(i) then p.amount else 0.0) + (if p.dst == Some(i) then p.amount else 0.0)
                         - (if p.src == Some(i) && Charged(b, p) then a.fee else 0.0))
  {
    hide Roll, Decide, Credit;
    AddCashAt(b.accounts, p.src, -p.amount, i);
    AddCashAt(Credit(b.accounts, p.src, -p.amount), p.dst, p.amount, i);
    if p.src.Some? {
      var j := p.src.value;
      AddCashAt(b.accounts, p.src, -p.amount, j);
      AddCashAt(Credit(b.accounts, p.src, -p.amount), p.dst, p.amount, j);
    }
  }

  lemma {:induction false} DebitAllFalls(b: Book, bills: seq<InterestAccrual>, i: nat)
    requires Shaped(b) && i < |b.accounts|
    requires forall k :: 0 <= k < |bills| ==> bills[k].account < |b.accounts| && bills[k].interest > 0.0
    ensures DebitAll(b, bills).accounts[i] == b.accounts[i].(cash := DebitAll(b, bills).accounts[i].cash)
    ensures DebitAll(b, bills).accounts[i].cash <= b.accounts[i].cash
  {
    hide Roll;
    if bills != [] {
      DebitAllFalls(b, bills[..|bills| - 1], i);
    }
  }

  lemma {:induction false} BillsPositive(slots: seq<Slot>, cash: seq<real>, ts: int, n: nat)
    requires n <= |slots| == |cash|
    ensures forall k :: 0 <= k < |Bills(slots, cash, ts, n)| ==> Bills(slots, cash, ts, n)[k].interest > 0.0
  {
    hide Billed;
    if n > 0 {
      BillsPositive(slots, cash, ts, n - 1);
    }
  }

  // Only a credit raises an account's cash, and set-up fields never change.
  lemma StepAt(b: Book, op: Op, i: nat)
    requires Runnable(b, op) && i < |b.accounts|
    ensures Step(b, op).accounts[i] == b.accounts[i].(cash := Step(b, op).accounts[i].cash)
    ensures b.accounts[i].cash < 0.0 <= Step(b, op).accounts[i].cash ==> Restores(b, op, i)
    ensures FeeAt(b, op, i) ==> b.accounts[i].cash >= 0.0 && Step(b, op).accounts[i].cash < 0.0
  {
    hide Roll, Bills, SweptAll, DebitAll, Posted, Credit;
    match op
    case Accrue(ts) =>
      BillsKnown(b.slots, CashOf(b.accounts), ts, |b.slots|);
      BillsPositive(b.slots, CashOf(b.accounts), ts, |b.slots|);
      DebitAllFalls(b.(slots := SweptAll(b.slots, CashOf(b.accounts), ts)), Bills(b.slots, CashOf(b.accounts), ts, |b.slots|), i);
    case Post(p) =>
      PostedAt(b, p, i);
      OneLegInside(b.accounts, p);
      if p.src.Some? {
        AddCashAt(b.accounts, p.src, -p.amount, p.src.value);
        AddCashAt(Credit(b.accounts, p.src, -p.amount), p.dst, p.amount, p.src.value);
      }
  }

  predicate BackAbove(b: Book, ops: seq<Op>, i: nat, k: nat)
    requires AllRunnable(b, ops) && k < |ops| && i < |b.accounts|
  {
    Restores(Run(b, ops[..k]), ops[k], i)
  }

  lemma RunNext(b: Book, ops: seq<Op>, k: nat)
    requires AllRunnable(b, ops) && k < |ops|
    ensures Run(b, ops[..k + 1]) == Step(Run(b, ops[..k]), ops[k])
  {
    assert ops[..k + 1][..k] == ops[..k];
  }

  // Cash that was negative and no longer is was brought back by some credit.
  lemma {:induction false} Recovered(b: Book, ops: seq<Op>, i: nat, j: nat, k: nat)
    requires AllRunnable(b, ops) && i < |b.accounts| && j <= k <= |ops|
    requires Run(b, ops[..j]).accounts[i].cash < 0.0 <= Run(b, ops[..k]).accounts[i].cash
    ensures exists m: nat :: j <= m < k && BackAbove(b, ops, i, m)
  {
    hide Step, Restores;
    if j == k {
      assert false;
    } else {
      RunNext(b, ops, k - 1);
      if Run(b, ops[..k - 1]).accounts[i].cash >= 0.0 {
        Recovered(b, ops, i, j, k - 1);
      } else {
        StepAt(Run(b, ops[..k - 1]), ops[k - 1], i);
        assert BackAbove(b, ops, i, k - 1);
      }
    }
  }

  /** Between two overdraft fees on one account, some credit brought its cash
      back to zero or more. */
  lemma FeesAreSeparated(b: Book, ops: seq<Op>, i: nat, j: nat, k: nat)
    requires AllRunnable(b, ops) && i < |b.accounts| && j < k < |ops|
    requires FeeAt(Run(b, ops[..j]), ops[j], i) && FeeAt(Run(b, ops[..k]), ops[k], i)
    ensures exists m: nat :: j < m < k && BackAbove(b, ops, i, m)
  {
    hide Run, Step, FeeAt, Restores, AllRunnable;
    FeeCrosses(b, ops, i, j);
    FeeCrosses(b, ops, i, k);
    Recovered(b, ops, i, j + 1, k);
  }

  lemma FeeCrosses(b: Book, ops: seq<Op>, i: nat, k: nat)
    requires AllRunnable(b, ops) && i < |b.accounts| && k < |ops| && FeeAt(Run(b, ops[..k]), ops[k], i)
    ensures AllRunnable(b, ops[..k]) && AllRunnable(b, ops[..k + 1])
    ensures Run(b, ops[..k + 1]).accounts[i].cash < 0.0 <= Run(b, ops[..k]).accounts[i].cash
  {
    hide Step, FeeAt, Restores;
    RunNext(b, ops, k);
    StepAt(Run(b, ops[..k]), ops[k], i);
  }

  // A run moves nothing but cash.
  lemma {:induction false} RunKeepsSetUp(b: Book, ops: seq<Op>, i: nat)
    requires AllRunnable(b, ops) && i < |b.accounts|
    ensures Run(b, ops).accounts[i].(cash := b.accounts[i].cash) == b.accounts[i]
  {
    hide Step;
    if ops != [] {
      RunKeepsSetUp(b, ops[..|ops| - 1], i);
      StepAt(Run(b, ops[..|ops| - 1]), ops[|ops| - 1], i);
    }
  }
}
