/** How the illicit budget is shared among rings and among a ring's phases. */
module IllicitBudgets {
  import opened Words
  import opened Arithmetic

  const GUARD_DAYS := 22

  // The days a ring schedules in: its participants' lives less a guard.
  function RingDays(windowStart: int, days: int, aliveEnd: int): int {
    if aliveEnd >= windowStart + days * DAY then days
    else Max(1, Min(days, Max(0, aliveEnd - windowStart) / DAY - GUARD_DAYS))
  }

  // The ring's days, and the guard after them, end by its first death.
  predicate StaysAlive(windowStart: int, days: int, aliveEnd: int) {
    windowStart + (RingDays(windowStart, days, aliveEnd) + GUARD_DAYS) * DAY <= aliveEnd
  }

  /** A ring whose first death falls inside the window keeps clear of it exactly
      when one day more than the guard is left alive; without a death inside the
      window it schedules the whole of it. */
  lemma RingStaysAlive(windowStart: int, days: int, aliveEnd: int)
    requires days >= 1
    ensures 1 <= RingDays(windowStart, days, aliveEnd) <= days
    ensures aliveEnd >= windowStart + days * DAY ==> RingDays(windowStart, days, aliveEnd) == days
    ensures aliveEnd < windowStart + days * DAY ==>
              (StaysAlive(windowStart, days, aliveEnd) <==> aliveEnd - windowStart >= (GUARD_DAYS + 1) * DAY)
    ensures aliveEnd < windowStart + days * DAY && !StaysAlive(windowStart, days, aliveEnd) ==>
              RingDays(windowStart, days, aliveEnd) == 1
  {
  }

  /** With 22 days and 5 seconds left alive a ring still schedules one day, and the
      guard after it outlasts the first death. */
  lemma RingOutlivesItsGuard()
    ensures RingDays(0, 365, GUARD_DAYS * DAY + 5) == 1 && !StaysAlive(0, 365, GUARD_DAYS * DAY + 5)
  {
  }

  // The 32-bit cast applies to budgets below 2^31.
  function RingBudget(remaining: int, ringsLeft: int): (b: int) {
    Min(Max(1, TruncatedQuotient(remaining, Max(1, ringsLeft))), remaining)
  }

  // Division as the source's integers do it, towards zero.
  function TruncatedQuotient(n: int, d: int): int
    requires d > 0
  {
    if n >= 0 then n / d else -(-n / d)
  }

  function Ceiling(x: real): int {
    if x == x.Floor as real then x.Floor else x.Floor + 1
  }

  function PhaseBudget(ringRemaining: int, perRing: int, fraction: real, isFinal: bool): int {
    if ringRemaining <= 0 then 0
    else if isFinal then Min(ringRemaining, TWO31 - 1)
    else if fraction <= 0.0 then 0
    else Max(1, Min(Ceiling(perRing as real * fraction), ringRemaining))
  }

  /** A budget is positive and never exceeds what remains; a phase that is asked
      for nothing is not given anything. */
  lemma BudgetsFit(remaining: int, ringsLeft: int, perRing: int, fraction: real, isFinal: bool)
    ensures remaining > 0 ==> 1 <= RingBudget(remaining, ringsLeft) <= remaining
    ensures 0 <= PhaseBudget(remaining, perRing, fraction, isFinal) <= Max(0, remaining)
    ensures PhaseBudget(remaining, perRing, fraction, isFinal) > 0 <==> remaining > 0 && (isFinal || fraction > 0.0)
  {
  }

  /** A phase but the last is given the fewest rows that make up its fraction of
      the ring's budget, at least one, as far as what is left allows; the last is
      given whatever is left that 31 bits can count. */
  lemma PhaseShareIs(remaining: int, perRing: int, fraction: real)
    requires remaining > 0
    ensures fraction > 0.0 ==>
      var b := PhaseBudget(remaining, perRing, fraction, false);
      && 1 <= b <= remaining
      && (b as real >= perRing as real * fraction || b == remaining)
      && (b == 1 || (b - 1) as real < perRing as real * fraction)
    ensures fraction <= 0.0 ==> PhaseBudget(remaining, perRing, fraction, false) == 0
    ensures PhaseBudget(remaining, perRing, fraction, true) == if remaining < TWO31 then remaining else TWO31 - 1
  {
  }

  // ---- Exact production ----

  // The budgets of the rings when each produces exactly its own.
  function Shares(remaining: int, rings: nat): (s: seq<int>)
    ensures |s| == rings
  {
    if rings == 0 then []
    else if remaining <= 0 then [0] + Shares(remaining, rings - 1)
    else
      var b := RingBudget(remaining, rings);
      [b] + Shares(remaining - b, rings - 1)
  }

  function Sum(s: seq<int>): int {
    if s == [] then 0 else s[0] + Sum(s[1..])
  }

  lemma {:induction false} SharesSpendAll(target: int, rings: nat)
    requires target >= 0 && rings > 0
    ensures Sum(Shares(target, rings)) == target
  {
    if rings == 1 {
      assert RingBudget(target, 1) == target || target == 0;
      assert Shares(target, 1)[1..] == [];
    } else if target == 0 {
      SharesSpendAll(0, rings - 1);
    } else {
      SharesSpendAll(target - RingBudget(target, rings), rings - 1);
    }
  }

  lemma Expand(q: nat, rings: nat)
    requires rings > 0
    ensures q * (rings - 1) == q * rings - q
  {
  }

  function NextShare(target: nat, rings: nat): int {
    if target == 0 then 0 else RingBudget(target, rings)
  }

  function Times(a: nat, b: nat): nat {
    a * b
  }

  // A budget between q and q + 1 for each ring.
  predicate Even(target: nat, rings: nat, q: nat) {
    Times(q, rings) <= target <= Times(q, rings) + rings
  }

  lemma OneFewer(q: nat, rings: nat)
    requires rings > 0
    ensures Times(q, rings - 1) == Times(q, rings) - q
    ensures Times(q, rings) >= q && (q == 0 ==> Times(q, rings) == 0)
  {
    Expand(q, rings);
  }

  lemma OneMore(q: nat, rings: nat)
    ensures Times(q + 1, rings) == Times(q, rings) + rings
  {
  }

  // One ring's share leaves the others a budget within the same bounds.
  lemma ShareWithin(target: nat, rings: nat, q: nat)
    requires rings > 0 && Even(target, rings, q)
    ensures q <= NextShare(target, rings) <= q + 1 && NextShare(target, rings) <= target
    ensures Even(target - NextShare(target, rings), rings - 1, q)
  {
    hide Times, NextShare;
    OneFewer(q, rings);
    ShareIs(target, rings, q);
  }

  lemma ShareIs(target: nat, rings: nat, q: nat)
    requires rings > 0 && Even(target, rings, q)
    ensures NextShare(target, rings) ==
              if target == 0 then 0 else if target == Times(q, rings) + rings then q + 1 else Max(1, q)
    ensures target > 0 ==> Max(1, q) <= target
  {
    hide Times;
    OneFewer(q, rings);
    OneMore(q, rings);
    if target == Times(q, rings) + rings {
      Quotient(target, rings, q + 1, 0);
    } else if target > 0 {
      Quotient(target, rings, q, target - Times(q, rings));
    }
  }

  lemma Quotient(target: nat, rings: nat, q: nat, rest: nat)
    requires rest < rings && target == Times(q, rings) + rest
    ensures target / rings == q
  {
    RemainderUnique(target, rings, q, rest);
  }

  lemma NextShareIs(target: nat, rings: nat)
    ensures rings > 0 ==> Shares(target, rings) == [NextShare(target, rings)] + Shares(target - NextShare(target, rings), rings - 1)
  {
    hide RingBudget;
  }

  // A budget between q and q + 1 per ring is shared within those bounds.
  lemma {:induction false} SharesWithin(target: nat, rings: nat, q: nat)
    requires Even(target, rings, q)
    ensures forall i :: 0 <= i < rings ==> q <= Shares(target, rings)[i] <= q + 1
  {
    hide NextShare, RingBudget, Even;
    NextShareIs(target, rings);
    if rings > 0 {
      ShareWithin(target, rings, q);
      SharesWithin(target - NextShare(target, rings), rings - 1, q);
      assert Shares(target, rings) == [NextShare(target, rings)] + Shares(target - NextShare(target, rings), rings - 1);
    }
  }

  /** When every ring produces its budget, the whole target is spent and no two
      rings' budgets differ by more than one. */
  lemma SharesAreFair(target: nat, rings: nat)
    requires rings > 0
    ensures Sum(Shares(target, rings)) == target
    ensures forall i :: 0 <= i < rings ==> target / rings <= Shares(target, rings)[i] <= target / rings + 1
  {
    hide Shares, Sum;
    SharesSpendAll(target, rings);
    Between(target, rings);
    SharesWithin(target, rings, target / rings);
  }

  lemma Between(n: nat, d: nat)
    requires d > 0
    ensures Even(n, d, n / d)
  {
    Expand(n / d + 1, d);
  }

  // ---- The loops ----

  datatype Phase = Phase(typology: nat, fraction: real)

  // What a ring yields for a typology and a budget.
  type Dispatch = (nat, nat, int) -> nat

  // The rows of the phases from one on, with what is left of a ring's budget.
  function PhaseRows(run: Dispatch, ring: nat, phases: seq<Phase>, perRing: int, left: int, k: nat): (rows: nat)
    requires k <= |phases|
    decreases |phases| - k
  {
    if k == |phases| || left <= 0 then
      0
    else
      var budget := PhaseBudget(left, perRing, phases[k].fraction, k + 1 == |phases|);
      if budget <= 0 then PhaseRows(run, ring, phases, perRing, left, k + 1)
      else
        var produced := run(ring, phases[k].typology, budget);
        produced + PhaseRows(run, ring, phases, perRing, left - produced, k + 1)
  }

  method RunRingPlaybook(run: Dispatch, ring: nat, perRing: int, phases: seq<Phase>) returns (rows: nat)
    ensures rows == if perRing <= 0 then 0 else PhaseRows(run, ring, phases, perRing, perRing, 0)
  {
    hide PhaseBudget;
    rows := 0;
    if perRing <= 0 {
      return;
    }
    var left := perRing;
    var k := 0;
    while k < |phases|
      invariant k <= |phases|
      invariant rows + PhaseRows(run, ring, phases, perRing, left, k) == PhaseRows(run, ring, phases, perRing, perRing, 0)
    {
      if left <= 0 {
        break;
      }
      var budget := PhaseBudget(left, perRing, phases[k].fraction, k + 1 == |phases|);
      if budget <= 0 {
        k := k + 1;
        continue;
      }
      var produced := run(ring, phases[k].typology, budget);
      left := left - produced;
      rows := rows + produced;
      k := k + 1;
    }
  }

  ghost predicate Exact(run: Dispatch) {
    forall ring, typology, budget :: budget > 0 ==> run(ring, typology, budget) == budget
  }

  /** A playbook with a phase spends its ring's whole budget when each phase
      produces what it is asked for: the last takes whatever is left. */
  lemma {:induction false} PhasesSpendAll(run: Dispatch, ring: nat, phases: seq<Phase>, perRing: int, left: int, k: nat)
    requires Exact(run) && k < |phases| && 0 <= left < TWO31
    ensures PhaseRows(run, ring, phases, perRing, left, k) == left
    decreases |phases| - k
  {
    if left > 0 {
      var budget := PhaseBudget(left, perRing, phases[k].fraction, k + 1 == |phases|);
      BudgetsFit(left, 1, perRing, phases[k].fraction, k + 1 == |phases|);
      if k + 1 < |phases| {
        PhasesSpendAll(run, ring, phases, perRing, if budget <= 0 then left else left - budget, k + 1);
      }
    }
  }

  // The rows of the rings from one on, with what is left of the target.
  function RingRows(run: Dispatch, playbooks: seq<seq<Phase>>, left: int, ring: nat): nat
    requires ring <= |playbooks|
    decreases |playbooks| - ring
  {
    if ring == |playbooks| || left <= 0 then
      0
    else
      var perRing := RingBudget(left, |playbooks| - ring);
      var produced := if perRing <= 0 then 0 else PhaseRows(run, ring, playbooks[ring], perRing, perRing, 0);
      produced + RingRows(run, playbooks, left - produced, ring + 1)
  }

  /** Each ring in turn is budgeted its part of what is left. */
  method GenerateIllicit(run: Dispatch, playbooks: seq<seq<Phase>>, target: int) returns (rows: nat)
    ensures rows == RingRows(run, playbooks, target, 0)
  {
    hide PhaseRows, RingBudget;
    rows := 0;
    if target <= 0 || playbooks == [] {
      return;
    }
    var left := target;
    var ring := 0;
    while ring < |playbooks|
      invariant ring <= |playbooks|
      invariant rows + RingRows(run, playbooks, left, ring) == RingRows(run, playbooks, target, 0)
    {
      if left <= 0 {
        break;
      }
      var perRing := RingBudget(left, |playbooks| - ring);
      var produced := RunRingPlaybook(run, ring, perRing, playbooks[ring]);
      left := left - produced;
      rows := rows + produced;
      ring := ring + 1;
    }
  }

  /** With exact production and no empty playbook, the rows add up to the target. */
  lemma {:induction false} TargetIsMet(run: Dispatch, playbooks: seq<seq<Phase>>, left: int, ring: nat)
    requires Exact(run) && ring < |playbooks| && 0 <= left < TWO31 && forall k :: 0 <= k < |playbooks| ==> playbooks[k] != []
    ensures RingRows(run, playbooks, left, ring) == left
    decreases |playbooks| - ring
  {
    hide PhaseRows, Exact;
    if left > 0 {
      var perRing := RingBudget(left, |playbooks| - ring);
      PhasesSpendAll(run, ring, playbooks[ring], perRing, perRing, 0);
      if ring + 1 < |playbooks| {
        TargetIsMet(run, playbooks, left - perRing, ring + 1);
      }
    }
  }
}
