/** The ledger that authoritative replay posts to, method by method. */
module ClearingLedger {
  import opened Words
  import opened Keys
  import opened Accrual
  import opened Clearing
  import ClearingRuns
  import ClearingInterest
  import opened ClearingFees
  import opened LocTracker

  const EMPTY_ACCOUNT := BookedAccount(Key(Customer, Internal, 0), 0.0, 0.0, 0.0, 0.0, Unprotected, ZeroFee, 0.0)

  // A posting whose endpoints are keys.
  datatype KeyPosting = KeyPosting(source: Key, destination: Key, amount: real, channel: Tag, timestamp: int)

  predicate Admits(external: map<Key, Policy>, k: Key, channel: Tag, flow: Flow) {
    k.bank == External ==> k in external && AllowsTypedBoundary(external[k], channel, flow)
  }

  predicate Books(internal: map<Key, nat>, k: Key) {
    k.bank == Internal ==> k in internal
  }

  function IndexOf(internal: map<Key, nat>, k: Key): Option<nat> {
    if k.bank == Internal && k in internal then Some(internal[k]) else None
  }

  // The indexed posting a key posting stands for; None when it is refused.
  function Route(internal: map<Key, nat>, external: map<Key, Policy>, p: KeyPosting): Option<Posting> {
    if !ValidKey(p.source) || !ValidKey(p.destination) then None
    else if !Admits(external, p.source, p.channel, Inbound) || !Admits(external, p.destination, p.channel, Outbound) then None
    else if !Books(internal, p.source) || !Books(internal, p.destination) then None
    else Some(Posting(IndexOf(internal, p.source), IndexOf(internal, p.destination), p.amount, p.channel, p.timestamp))
  }

  /** A boundary channel moves money across the book's edge only in its own
      direction and only at endpoints of its own kind, and a typed endpoint is
      reached by no other channel. */
  lemma BoundariesHold(internal: map<Key, nat>, external: map<Key, Policy>, p: KeyPosting)
    requires Route(internal, external, p).Some?
    ensures match BoundaryRequirement(p.channel)
            case Some((kind, Inbound)) =>
              && p.destination.bank == Internal
              && (p.source.bank == External ==> external[p.source].kind == kind && external[p.source].inbound)
            case Some((kind, Outbound)) =>
              && p.source.bank == Internal
              && (p.destination.bank == External ==> external[p.destination].kind == kind && external[p.destination].outbound)
            case None =>
              && (p.source.bank == External ==> external[p.source].kind == GenericCounterparty)
              && (p.destination.bank == External ==> external[p.destination].kind == GenericCounterparty)
  {
  }

  // The party of the outside leg of a posting on a channel of one direction.
  predicate Reaches(external: map<Key, Policy>, inside: Key, outside: Key, kind: Kind, flow: Flow) {
    && inside.bank == Internal
    && (outside.bank == External ==> outside in external && external[outside].kind == kind && FlowAllowed(external[outside], flow))
  }

  /** Withdrawals leave at terminals, cash and checks arrive from their captures,
      and crypto ramps go each way at venues. */
  lemma ChannelsHold(internal: map<Key, nat>, external: map<Key, Policy>, p: KeyPosting)
    requires Route(internal, external, p).Some?
    ensures p.channel == ATM ==> Reaches(external, p.source, p.destination, AtmTerminal, Outbound)
    ensures p.channel == RAMP_OUT ==> Reaches(external, p.source, p.destination, CryptoVenue, Outbound)
    ensures p.channel == CASH_DEPOSIT ==> Reaches(external, p.destination, p.source, CashDepository, Inbound)
    ensures p.channel == CHECK_DEPOSIT ==> Reaches(external, p.destination, p.source, CheckCapture, Inbound)
    ensures p.channel == RAMP_IN ==> Reaches(external, p.destination, p.source, CryptoVenue, Inbound)
  {
  }

  /** On a channel without a boundary, with generic outside parties, routing asks
      for valid and booked keys and no more; the posting routed has the indexed
      accounts as inside legs and none outside. */
  lemma RoutedExactly(internal: map<Key, nat>, external: map<Key, Policy>, p: KeyPosting)
    requires p.channel !in {ATM, RAMP_OUT, CASH_DEPOSIT, CHECK_DEPOSIT, RAMP_IN}
    requires forall k :: k in external ==> external[k].kind == GenericCounterparty
    ensures Route(internal, external, p).Some? <==>
              && p.source.number != 0 && Allows(p.source.role, p.source.bank)
              && p.destination.number != 0 && Allows(p.destination.role, p.destination.bank)
              && (if p.source.bank == External then p.source in external else p.source in internal)
              && (if p.destination.bank == External then p.destination in external else p.destination in internal)
    ensures Route(internal, external, p).Some? ==>
              var q := Route(internal, external, p).value;
              && q.src == (if p.source.bank == External then None else Some(internal[p.source]))
              && q.dst == (if p.destination.bank == External then None else Some(internal[p.destination]))
              && q.amount == p.amount && q.channel == p.channel && q.timestamp == p.timestamp
  {
  }

  // An inside key that is valid and booked, and an outside one of a typed party.
  predicate Ready(internal: map<Key, nat>, external: map<Key, Policy>, inside: Key, outside: Key, kind: Kind, flow: Flow) {
    && inside.bank == Internal && inside.number != 0 && Allows(inside.role, Internal) && inside in internal
    && outside.bank == External && outside.number != 0 && Allows(outside.role, External)
    && outside in external && external[outside].kind == kind
    && if flow == Inbound then external[outside].inbound else external[outside].outbound
  }

  /** A typed party of the right kind and direction is always reached. */
  lemma TypedPartiesReached(internal: map<Key, nat>, external: map<Key, Policy>, p: KeyPosting)
    ensures p.channel == ATM && Ready(internal, external, p.source, p.destination, AtmTerminal, Outbound) ==>
              Route(internal, external, p).Some?
    ensures p.channel == RAMP_OUT && Ready(internal, external, p.source, p.destination, CryptoVenue, Outbound) ==>
              Route(internal, external, p).Some?
    ensures p.channel == CASH_DEPOSIT && Ready(internal, external, p.destination, p.source, CashDepository, Inbound) ==>
              Route(internal, external, p).Some?
    ensures p.channel == CHECK_DEPOSIT && Ready(internal, external, p.destination, p.source, CheckCapture, Inbound) ==>
              Route(internal, external, p).Some?
    ensures p.channel == RAMP_IN && Ready(internal, external, p.destination, p.source, CryptoVenue, Inbound) ==>
              Route(internal, external, p).Some?
  {
  }

  /** A posting between two outside parties is never applied. */
  lemma OutsidersAreUnbooked(internal: map<Key, nat>, external: map<Key, Policy>, p: KeyPosting, accounts: seq<BookedAccount>)
    requires p.source.bank == External && p.destination.bank == External && p.amount > 0.0
    ensures match Route(internal, external, p)
            case None => true
            case Some(q) => Legs(accounts, q) && Decide(accounts, q) == Some(Unbooked)
  {
  }

  function Restored(mine: seq<BookedAccount>, theirs: seq<BookedAccount>): (r: seq<BookedAccount>)
    requires |mine| == |theirs|
    ensures |r| == |mine|
    ensures forall i :: 0 <= i < |mine| ==> r[i] == WithBalances(mine[i], theirs[i])
  {
    seq(|mine|, i requires 0 <= i < |mine| => WithBalances(mine[i], theirs[i]))
  }

  function WithBalances(mine: BookedAccount, theirs: BookedAccount): BookedAccount {
    mine.(cash := theirs.cash, overdraft := theirs.overdraft, linked := theirs.linked, courtesy := theirs.courtesy)
  }

  lemma StepKeepsSlotSetUp(b: Book, op: Op, i: nat)
    requires Runnable(b, op) && i < |b.accounts|
    ensures var s, t := b.slots[i], Step(b, op).slots[i];
            t.enabled == s.enabled && t.apr == s.apr && t.billingDay == s.billingDay
  {
    hide Step;
    ClearingInterest.StepSlot(b, op, i);
  }

  lemma {:induction false} RunKeepsSlotSetUp(b: Book, ops: seq<Op>, i: nat)
    requires AllRunnable(b, ops) && i < |b.accounts|
    ensures var s, t := b.slots[i], Run(b, ops).slots[i];
            t.enabled == s.enabled && t.apr == s.apr && t.billingDay == s.billingDay
  {
    hide Step;
    if ops != [] {
      RunKeepsSlotSetUp(b, ops[..|ops| - 1], i);
      StepKeepsSlotSetUp(Run(b, ops[..|ops| - 1]), ops[|ops| - 1], i);
    }
  }

  /** Restoring a snapshot undoes any run made since: balances and accrual state
      are the snapshot's, and only the debits already announced remain. */
  lemma RestoreUndoesRun(b: Book, ops: seq<Op>)
    requires AllRunnable(b, ops)
    ensures var after := Run(b, ops);
            after.(accounts := Restored(after.accounts, b.accounts), slots := Copied(after.slots, b.slots)) ==
              b.(debits := after.debits)
  {
    hide Run;
    var after := Run(b, ops);
    forall i: nat | i < |b.accounts|
      ensures Restored(after.accounts, b.accounts)[i] == b.accounts[i] && Copied(after.slots, b.slots)[i] == b.slots[i]
    {
      ClearingRuns.RunKeepsSetUp(b, ops, i);
      RunKeepsSlotSetUp(b, ops, i);
    }
    assert Restored(after.accounts, b.accounts) == b.accounts && Copied(after.slots, b.slots) == b.slots;
  }

  class Ledger {
    var accounts: seq<BookedAccount>
    var internal: map<Key, nat>
    var external: map<Key, Policy>
    var emit: bool
    var debits: seq<LiquidityEvent>
    const tracker: LocAccrualTracker

    ghost predicate Valid()
      reads this, tracker
    {
      && tracker.Valid() && |tracker.slots| == |accounts|
      && forall k :: k in internal ==> internal[k] < |accounts|
    }

    function Book(): (b: Clearing.Book)
      reads this, tracker
    {
      Clearing.Book(accounts, tracker.slots, emit, debits)
    }

    constructor (count: nat)
      ensures Valid() && fresh(tracker)
      ensures Book() == Clearing.Book(seq(count, i => EMPTY_ACCOUNT), seq(count, i => EMPTY), true, [])
      ensures internal == map[] && external == map[] && SetUp(Book())
    {
      accounts := seq(count, i => EMPTY_ACCOUNT);
      internal, external, emit, debits := map[], map[], true, [];
      tracker := new LocAccrualTracker(count);
    }

    method AddAccount(id: Key, i: nat, policy: Policy)
      requires Valid() && i < |accounts|
      modifies this
      ensures old(SetUp(Book())) ==> SetUp(Book())
      ensures Valid() && emit == old(emit) && debits == old(debits)
      ensures accounts == old(accounts)[i := old(accounts)[i].(key := id)]
      ensures internal == if id.bank == External then old(internal) else old(internal)[id := i]
      ensures external == if id.bank == External then old(external)[id := policy] else old(external)
    {
      accounts := accounts[i := accounts[i].(key := id)];
      if id.bank == External {
        external := external[id := policy];
      } else {
        internal := internal[id := i];
      }
    }

    method SetProtection(i: nat, protection: Protection, buffer: real)
      requires Valid() && i < |accounts|
      modifies this, tracker
      ensures old(SetUp(Book())) ==> SetUp(Book())
      ensures Valid() && internal == old(internal) && external == old(external)
      ensures Book() == old(Book()).(
                accounts := old(accounts)[i := old(accounts)[i].(protection := protection,
                  overdraft := if protection == Loc then buffer else 0.0,
                  linked := if protection == Linked then buffer else 0.0,
                  courtesy := if protection == Courtesy then buffer else 0.0)],
                slots := old(tracker.slots)[i := if protection == Loc then Enabled(0.0, 0) else EMPTY])
    {
      var a := accounts[i].(overdraft := 0.0, linked := 0.0, courtesy := 0.0, protection := protection);
      match protection {
        case Unprotected => tracker.Disable(i);
        case Courtesy =>
          a := a.(courtesy := buffer);
          tracker.Disable(i);
        case Linked =>
          a := a.(linked := buffer);
          tracker.Disable(i);
        case Loc =>
          a := a.(overdraft := buffer);
          tracker.Enable(i, 0.0, 0);
      }
      accounts := accounts[i := a];
    }

    method SetOverdraftOnly(i: nat, limit: real)
      requires Valid() && i < |accounts|
      modifies this, tracker
      ensures old(SetUp(Book())) ==> SetUp(Book())
      ensures Valid() && internal == old(internal) && external == old(external)
      ensures Book() == old(Book()).(
                accounts := old(accounts)[i := old(accounts)[i].(cash := 0.0, overdraft := limit, linked := 0.0, courtesy := 0.0,
                  protection := if limit > 0.0 then Courtesy else Unprotected)],
                slots := old(tracker.slots)[i := EMPTY])
    {
      accounts := accounts[i := accounts[i].(cash := 0.0, overdraft := limit, linked := 0.0, courtesy := 0.0)];
      tracker.Disable(i);
      accounts := accounts[i := accounts[i].(protection := if limit > 0.0 then Courtesy else Unprotected)];
    }

    method SetBankTier(i: nat, tier: Tier, fee: real)
      requires Valid() && i < |accounts|
      modifies this
      ensures old(SetUp(Book())) ==> SetUp(Book())
      ensures Valid() && internal == old(internal) && external == old(external)
      ensures Book() == old(Book()).(accounts := old(accounts)[i := old(accounts)[i].(tier := tier, fee := fee)])
    {
      accounts := accounts[i := accounts[i].(tier := tier, fee := fee)];
    }

    method SetLoc(i: nat, apr: real, billingDay: int)
      requires Valid() && i < |accounts|
      modifies tracker
      ensures old(SetUp(Book())) ==> SetUp(Book())
      ensures Valid()
      ensures tracker.slots ==
                if accounts[i].protection == Loc then old(tracker.slots)[i := Enabled(apr, billingDay)] else old(tracker.slots)
    {
      if accounts[i].protection != Loc {
        assert Book() == old(Book());
        return;
      }
      tracker.Enable(i, apr, billingDay);
    }

    method SetEmitLiquidity(emit: bool)
      requires Valid()
      modifies this`emit
      ensures old(SetUp(Book())) ==> SetUp(Book())
      ensures Valid() && Book() == old(Book()).(emit := emit)
    {
      this.emit := emit;
    }

    method ApplyTransfer(p: Posting) returns (decision: Option<Reject>, srcCashBefore: real)
      requires Valid() && Legs(accounts, p)
      modifies this`accounts
      ensures Valid() && decision == Decide(old(accounts), p)
      ensures accounts == if decision == None then Moved(old(accounts), p) else old(accounts)
      ensures srcCashBefore == if decision == None && p.src.Some? then old(accounts)[p.src.value].cash else 0.0
    {
      srcCashBefore := 0.0;
      decision := Decide(accounts, p);
      if decision.Some? {
        return;
      }
      if p.src == None {
        accounts := AddCash(accounts, p.dst.value, p.amount);
        return;
      }
      srcCashBefore := accounts[p.src.value].cash;
      accounts := AddCash(accounts, p.src.value, -p.amount);
      if p.dst.Some? {
        accounts := AddCash(accounts, p.dst.value, p.amount);
      }
    }

    method DebitAndEmit(i: nat, amount: real, channel: Tag, ts: int)
      requires Valid() && i < |accounts|
      modifies this`accounts, this`debits, tracker
      ensures Valid() && Book() == Debited(old(Book()), i, amount, channel, ts)
    {
      tracker.Update(i, accounts[i].cash, ts);
      accounts := AddCash(accounts, i, -amount);
      debits := debits + [LiquidityEvent(channel, accounts[i].key, amount, ts)];
    }

    /** An indexed posting, its roll-forward and its overdraft fee. */
    method TransferAt(p: Posting) returns (decision: Option<Reject>)
      requires Valid() && Legs(accounts, p)
      modifies this`accounts, this`debits, tracker
      ensures old(SetUp(Book())) ==> SetUp(Book())
      ensures Valid() && decision == Decide(old(accounts), p) && Book() == Posted(old(Book()), p)
    {
      hide Roll, Decide, Moved, QueueCovers, Debited, AddCash, SetUp;
      ghost var start := Book();
      if SetUp(start) {
        StepKeepsSetUp(start, Post(p));
      }
      if p.src.Some? {
        tracker.Update(p.src.value, accounts[p.src.value].cash, p.timestamp);
      }
      assert Book() == RollAt(start, p.src, p.timestamp);
      if p.dst.Some? {
        tracker.Update(p.dst.value, accounts[p.dst.value].cash, p.timestamp);
      }
      assert Book() == RollAt(RollAt(start, p.src, p.timestamp), p.dst, p.timestamp);
      var srcCashBefore;
      decision, srcCashBefore := ApplyTransfer(p);
      if decision.Some? || !emit || p.src == None {
        return;
      }
      var i := p.src.value;
      MovedKeeps(start.accounts, p, i);
      var fires := accounts[i].key.role != Card &&
                   FeeFires(accounts[i].protection, p.channel, srcCashBefore, accounts[i].cash, accounts[i].fee);
      if fires {
        DebitAndEmit(i, accounts[i].fee, OVERDRAFT_FEE, p.timestamp);
      }
    }

    /** A posting by keys: refused when a key is invalid or unbooked, or when a
        boundary does not admit the channel. */
    method TransferAtKeys(p: KeyPosting) returns (decision: Option<Reject>)
      requires Valid()
      modifies this`accounts, this`debits, tracker
      ensures old(SetUp(Book())) ==> SetUp(Book())
      ensures Valid()
      ensures match Route(internal, external, p)
              case None => decision == Some(Unbooked) && Book() == old(Book())
              case Some(q) => Legs(old(accounts), q) && decision == Decide(old(accounts), q) && Book() == Posted(old(Book()), q)
    {
      hide Posted, Decide, QueueCovers, SetUp;
      var srcExternal, dstExternal := p.source.bank == External, p.destination.bank == External;
      if !ValidKey(p.source) || !ValidKey(p.destination) {
        return Some(Unbooked);
      }
      if (srcExternal && p.source !in external) || (dstExternal && p.destination !in external) {
        return Some(Unbooked);
      }
      if (srcExternal && !AllowsTypedBoundary(external[p.source], p.channel, Inbound)) ||
         (dstExternal && !AllowsTypedBoundary(external[p.destination], p.channel, Outbound)) {
        return Some(Unbooked);
      }
      if (!srcExternal && p.source !in internal) || (!dstExternal && p.destination !in internal) {
        return Some(Unbooked);
      }
      var src := if srcExternal then None else Some(internal[p.source]);
      var dst := if dstExternal then None else Some(internal[p.destination]);
      decision := TransferAt(Posting(src, dst, p.amount, p.channel, p.timestamp));
    }

    method AccrueLocInterestThrough(ts: int)
      requires Valid()
      modifies this`accounts, this`debits, tracker
      ensures old(SetUp(Book())) ==> SetUp(Book())
      ensures Valid() && Book() == Accrued(old(Book()), ts)
    {
      hide Bills, SweptAll, QueueCovers, Debited, CashOf, SetUp;
      ghost var start := Book();
      if SetUp(start) {
        StepKeepsSetUp(start, Accrue(ts));
      }
      var cash := CashOf(accounts);
      var matured := tracker.Sweep(ts, cash);
      BillsKnown(start.slots, cash, ts, |start.slots|);
      if !emit {
        return;
      }
      ghost var swept := Book();
      for k := 0 to |matured|
        invariant Valid() && |accounts| == |start.accounts| && emit == start.emit
        invariant internal == old(internal)
        invariant Book() == DebitAll(swept, matured[..k])
      {
        assert matured[..k + 1][..k] == matured[..k];
        DebitAndEmit(matured[k].account, matured[k].interest, LOC_INTEREST, matured[k].timestamp);
      }
      assert matured[..|matured|] == matured;
    }

    /** Balances, buffers and accrual state go back to another ledger's. */
    method Restore(other: Ledger)
      requires Valid() && other.Valid() && |accounts| == |other.accounts|
      requires SameEnabled(tracker.slots, other.tracker.slots)
      modifies this`accounts, tracker
      ensures Valid()
      ensures Book() == old(Book()).(accounts := Restored(old(accounts), old(other.accounts)),
                                     slots := Copied(old(tracker.slots), old(other.tracker.slots)))
    {
      accounts := Restored(accounts, other.accounts);
      tracker.CopyStateFrom(other.tracker);
    }
  }

  lemma MovedKeeps(accounts: seq<BookedAccount>, p: Posting, i: nat)
    requires Legs(accounts, p) && i < |accounts|
    ensures var a, m := accounts[i], Moved(accounts, p)[i]; m == a.(cash := m.cash)
  {
  }
}
