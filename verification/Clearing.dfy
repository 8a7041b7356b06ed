/** The clearing rules: what one posting or one interest sweep does to a book. */
module Clearing {
  import opened Words
  import opened Keys
  import opened Accrual

  // ---- Channels ----

  type Tag = x: int | 0 <= x < 256

  const ATM: Tag := 0x07
  const SELF_TRANSFER: Tag := 0x08
  const CASH_DEPOSIT: Tag := 0x0F
  const OVERDRAFT_FEE: Tag := 0x90
  const LOC_INTEREST: Tag := 0x91
  const CHECK_DEPOSIT: Tag := 0xA0
  const RAMP_OUT: Tag := 0xB0
  const RAMP_IN: Tag := 0xB1

  predicate IsLiquidity(t: Tag) {
    t == OVERDRAFT_FEE || t == LOC_INTEREST
  }

  // ---- Typed boundaries ----

  datatype Kind = GenericCounterparty | AtmTerminal | CashDepository | CheckCapture | CryptoVenue

  datatype Flow = Inbound | Outbound

  datatype Policy = Policy(kind: Kind, inbound: bool, outbound: bool)

  predicate FlowAllowed(p: Policy, f: Flow) {
    match f case Inbound => p.inbound case Outbound => p.outbound
  }

  function BoundaryRequirement(t: Tag): Option<(Kind, Flow)> {
    if t == ATM then Some((AtmTerminal, Outbound))
    else if t == CASH_DEPOSIT then Some((CashDepository, Inbound))
    else if t == CHECK_DEPOSIT then Some((CheckCapture, Inbound))
    else if t == RAMP_OUT then Some((CryptoVenue, Outbound))
    else if t == RAMP_IN then Some((CryptoVenue, Inbound))
    else None
  }

  predicate AllowsTypedBoundary(p: Policy, t: Tag, f: Flow) {
    var required := BoundaryRequirement(t);
    if p.kind == GenericCounterparty then
      required == None
    else
      required == Some((p.kind, f)) && FlowAllowed(p, f)
  }

  // ---- Accounts ----

  datatype Protection = Unprotected | Courtesy | Linked | Loc

  datatype Tier = ZeroFee | ReducedFee | StandardFee

  datatype BookedAccount = BookedAccount(key: Key, cash: real, overdraft: real, linked: real, courtesy: real,
                                         protection: Protection, tier: Tier, fee: real)

  function Liquidity(a: BookedAccount): real {
    a.cash + a.overdraft + a.linked + a.courtesy
  }

  datatype Reject = Invalid | Unbooked | Unfunded

  datatype LiquidityEvent = LiquidityEvent(channel: Tag, payer: Key, amount: real, timestamp: int)

  // An external leg has no index.
  datatype Posting = Posting(src: Option<nat>, dst: Option<nat>, amount: real, channel: Tag, timestamp: int)

  datatype Book = Book(accounts: seq<BookedAccount>, slots: seq<Slot>, emit: bool, debits: seq<LiquidityEvent>)

  predicate Known(accounts: seq<BookedAccount>, leg: Option<nat>) {
    leg.Some? ==> leg.value < |accounts|
  }

  predicate Legs(accounts: seq<BookedAccount>, p: Posting) {
    Known(accounts, p.src) && Known(accounts, p.dst)
  }

  predicate Shaped(b: Book) {
    |b.slots| == |b.accounts|
  }

  function Spendable(a: BookedAccount, channel: Tag): real {
    if channel == SELF_TRANSFER then a.cash else Liquidity(a)
  }

  /** None accepts the posting. */
  function Decide(accounts: seq<BookedAccount>, p: Posting): Option<Reject>
    requires Legs(accounts, p)
  {
    if p.amount <= 0.0 then Some(Invalid)
    else if p.src == None && p.dst == None then Some(Unbooked)
    else if p.src == None || IsLiquidity(p.channel) then None
    else if Spendable(accounts[p.src.value], p.channel) < p.amount then Some(Unfunded)
    else None
  }

  function AddCash(accounts: seq<BookedAccount>, i: nat, amount: real): (r: seq<BookedAccount>)
    requires i < |accounts|
    ensures |r| == |accounts|
  {
    accounts[i := accounts[i].(cash := accounts[i].cash + amount)]
  }

  function Credit(accounts: seq<BookedAccount>, leg: Option<nat>, amount: real): (r: seq<BookedAccount>)
    requires Known(accounts, leg)
    ensures |r| == |accounts|
  {
    if leg == None then accounts else AddCash(accounts, leg.value, amount)
  }

  // Both legs of an accepted posting.
  function Moved(accounts: seq<BookedAccount>, p: Posting): (r: seq<BookedAccount>)
    requires Legs(accounts, p)
    ensures |r| == |accounts|
  {
    Credit(Credit(accounts, p.src, -p.amount), p.dst, p.amount)
  }

  predicate FeeFires(protection: Protection, channel: Tag, before: real, after: real, fee: real) {
    && (protection == Courtesy || protection == Linked)
    && !IsLiquidity(channel) && fee > 0.0 && before >= 0.0 && after < 0.0
  }

  // Whether this accepted posting is charged an overdraft fee.
  predicate Charged(b: Book, p: Posting)
    requires Legs(b.accounts, p)
  {
    && b.emit && p.src.Some? && Decide(b.accounts, p) == None
    && var a := b.accounts[p.src.value];
    && a.key.role != Card
    && FeeFires(a.protection, p.channel, a.cash, Moved(b.accounts, p)[p.src.value].cash, a.fee)
  }

  function RollAt(b: Book, leg: Option<nat>, ts: int): (r: Book)
    requires Shaped(b) && Known(b.accounts, leg)
    ensures Shaped(r) && r == b.(slots := r.slots)
  {
    if leg == None then b
    else b.(slots := b.slots[leg.value := Roll(b.slots[leg.value], b.accounts[leg.value].cash, ts)])
  }

  // A debit outside the funding check; the sink hears of it.
  function Debited(b: Book, i: nat, amount: real, channel: Tag, ts: int): (r: Book)
    requires Shaped(b) && i < |b.accounts|
    ensures Shaped(r) && |r.accounts| == |b.accounts| && r.emit == b.emit
  {
    var rolled := RollAt(b, Some(i), ts);
    rolled.(accounts := AddCash(rolled.accounts, i, -amount),
            debits := rolled.debits + [LiquidityEvent(channel, rolled.accounts[i].key, amount, ts)])
  }

  function Posted(b: Book, p: Posting): (r: Book)
    requires Shaped(b) && Legs(b.accounts, p)
    ensures Shaped(r) && |r.accounts| == |b.accounts| && r.emit == b.emit
  {
    var rolled := RollAt(RollAt(b, p.src, p.timestamp), p.dst, p.timestamp);
    if Decide(b.accounts, p) != None then
      rolled
    else
      var moved := rolled.(accounts := Moved(b.accounts, p));
      if Charged(b, p) then Debited(moved, p.src.value, b.accounts[p.src.value].fee, OVERDRAFT_FEE, p.timestamp) else moved
  }

  function CashOf(accounts: seq<BookedAccount>): (r: seq<real>)
    ensures |r| == |accounts| && forall i :: 0 <= i < |r| ==> r[i] == accounts[i].cash
  {
    seq(|accounts|, i requires 0 <= i < |accounts| => accounts[i].cash)
  }

  // The interest debits of a sweep, in its order.
  function DebitAll(b: Book, bills: seq<InterestAccrual>): (r: Book)
    requires Shaped(b) && forall k :: 0 <= k < |bills| ==> bills[k].account < |b.accounts|
    ensures Shaped(r) && |r.accounts| == |b.accounts| && r.emit == b.emit
  {
    if bills == [] then
      b
    else
      var last := bills[|bills| - 1];
      Debited(DebitAll(b, bills[..|bills| - 1]), last.account, last.interest, LOC_INTEREST, last.timestamp)
  }

  lemma {:induction false} BillsKnown(slots: seq<Slot>, cash: seq<real>, ts: int, n: nat)
    requires n <= |slots| == |cash|
    ensures forall k :: 0 <= k < |Bills(slots, cash, ts, n)| ==> Bills(slots, cash, ts, n)[k].account < n
  {
    if n > 0 {
      BillsKnown(slots, cash, ts, n - 1);
    }
  }

  function Accrued(b: Book, ts: int): (r: Book)
    requires Shaped(b)
    ensures Shaped(r) && |r.accounts| == |b.accounts| && r.emit == b.emit
  {
    var bills := Bills(b.slots, CashOf(b.accounts), ts, |b.slots|);
    BillsKnown(b.slots, CashOf(b.accounts), ts, |b.slots|);
    var swept := b.(slots := SweptAll(b.slots, CashOf(b.accounts), ts));
    if b.emit then DebitAll(swept, bills) else swept
  }

  // ---- Runs ----

  datatype Op = Post(posting: Posting) | Accrue(timestamp: int)

  predicate Runnable(b: Book, op: Op) {
    Shaped(b) && (op.Post? ==> Legs(b.accounts, op.posting))
  }

  function Step(b: Book, op: Op): (r: Book)
    requires Runnable(b, op)
    ensures Shaped(r) && |r.accounts| == |b.accounts| && r.emit == b.emit
  {
    match op case Post(p) => Posted(b, p) case Accrue(ts) => Accrued(b, ts)
  }

  predicate AllRunnable(b: Book, ops: seq<Op>) {
    Shaped(b) && forall k :: 0 <= k < |ops| ==> Runnable(b, ops[k])
  }

  function Run(b: Book, ops: seq<Op>): (r: Book)
    requires AllRunnable(b, ops)
    ensures Shaped(r) && |r.accounts| == |b.accounts| && r.emit == b.emit
  {
    if ops == [] then b else Step(Run(b, ops[..|ops| - 1]), ops[|ops| - 1])
  }
}
