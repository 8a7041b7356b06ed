/** Support of retired parents by adult children, the two directions kept in
    step, inherited supporters included. */
module FamilySupport {
  import opened Words
  import opened Lists
  import opened Bounded
  import RandomKernel
  import opened HouseholdPartition
  import opened FamilyLinking

  predicate CanSupport(p: Persona) {
    p == Salaried || p == Freelancer || p == SmallBusiness || p == HighNetWorth
  }

  // People beyond the persona list count as salaried.
  function PersonaFor(personas: seq<Persona>, p: nat): Persona {
    if p == 0 || p > |personas| then Salaried else personas[p - 1]
  }

  predicate Supports(personas: seq<Persona>, p: nat) {
    p != 0 && CanSupport(PersonaFor(personas, p))
  }

  predicate IsRetired(personas: seq<Persona>, p: nat) {
    p != 0 && PersonaFor(personas, p) == Retiree
  }

  /** Person p's household; empty when the partition does not know them. */
  function HouseholdFor(part: Partition, p: nat, n: nat): seq<nat> {
    if p == 0 || p > n || p > |part.householdOf| then []
    else
      var h := part.householdOf[p - 1];
      if h + 1 >= |part.offsets| then []
      else if part.offsets[h] > part.offsets[h + 1] || part.offsets[h + 1] > |part.members| then []
      else part.members[part.offsets[h]..part.offsets[h + 1]]
  }

  function SpouseFor(spouseOf: seq<nat>, p: nat, n: nat): (q: nat)
    ensures q <= n
  {
    if p == 0 || p > n || p > |spouseOf| then 0
    else if 1 <= spouseOf[p - 1] <= n then spouseOf[p - 1] else 0
  }

  /** Anyone is able to support but students and the retired; whose persona is not
      known counts as able. */
  lemma AbleExactlyWhen(personas: seq<Persona>, p: nat)
    ensures Supports(personas, p) <==> p > 0 && (p > |personas| || (personas[p - 1] != Student && personas[p - 1] != Retiree))
    ensures IsRetired(personas, p) <==> 1 <= p <= |personas| && personas[p - 1] == Retiree
  {
  }

  /** In a sound partition everyone's household is the one they live in, and with
      spouses inside the population everyone's spouse is the one recorded. */
  lemma OwnHousehold(part: Partition, n: nat, p: nat)
    requires Sound(part, n) && 1 <= p <= n
    ensures p in HouseholdFor(part, p, n)
    ensures forall q :: q in HouseholdFor(part, p, n) <==> 1 <= q <= n && part.householdOf[q - 1] == part.householdOf[p - 1]
  {
    hide CutUpTo;
    assert part.Count() > 0 by {
      SomeHousehold(part, n);
    }
    HouseholdOfIsInverse(part, n, p, 0);
    var h := part.householdOf[p - 1];
    HouseholdOfIsInverse(part, n, p, h);
    HouseholdFacts(part, n, h);
    forall q | 1 <= q <= n ensures q in HouseholdFor(part, p, n) <==> part.householdOf[q - 1] == h {
      HouseholdOfIsInverse(part, n, q, h);
    }
    forall q | q in HouseholdFor(part, p, n) ensures 1 <= q <= n {
      var k :| 0 <= k < |HouseholdMembers(part, h)| && HouseholdMembers(part, h)[k] == q;
    }
  }

  lemma SomeHousehold(part: Partition, n: nat)
    requires CutUpTo(part, n) && n > 0
    ensures part.Count() > 0
  {
  }

  lemma OwnSpouse(spouseOf: seq<nat>, p: nat, n: nat)
    requires |spouseOf| == n && 1 <= p <= n
    ensures SpouseFor(spouseOf, p, n) == if spouseOf[p - 1] <= n then spouseOf[p - 1] else 0
  {
  }

  // ---- The relation ----

  // The child lists the parent as often as the parent lists the child: once at most.
  predicate TiedOnce(children: seq<seq<nat>>, parents: seq<seq<nat>>, retired: nat, adult: nat)
    requires 1 <= retired <= |children| && 1 <= adult <= |parents|
  {
    multiset(parents[adult - 1])[retired] == multiset(children[retired - 1])[adult] <= 1
  }

  predicate AllSupport(list: seq<nat>, personas: seq<Persona>, n: nat, retired: nat) {
    forall k :: 0 <= k < |list| ==> 1 <= list[k] <= n && Supports(personas, list[k]) && IsRetired(personas, retired)
  }

  predicate SupportersOf(children: seq<seq<nat>>, personas: seq<Persona>, retired: nat)
    requires 1 <= retired <= |children|
  {
    AllSupport(children[retired - 1], personas, |children|, retired)
  }

  ghost predicate TiesSound(children: seq<seq<nat>>, parents: seq<seq<nat>>, personas: seq<Persona>, n: nat) {
    && |children| == |parents| == n
    && (forall r: nat :: 1 <= r <= n ==> SupportersOf(children, personas, r))
    && forall r: nat, c: nat :: 1 <= r <= n && 1 <= c <= n ==> TiedOnce(children, parents, r, c)
  }

  /** The relations are converses with multiplicity one, from able supporters to
      retired parents; no one supports themselves. */
  lemma TiesAreConverse(children: seq<seq<nat>>, parents: seq<seq<nat>>, personas: seq<Persona>, n: nat, r: nat, c: nat)
    requires TiesSound(children, parents, personas, n) && 1 <= r <= n && 1 <= c <= n
    ensures c in children[r - 1] <==> r in parents[c - 1]
    ensures c in children[r - 1] ==> IsRetired(personas, r) && Supports(personas, c) && c != r
    ensures Distinct(children[r - 1])
  {
    assert TiedOnce(children, parents, r, c) && SupportersOf(children, personas, r);
    assert c in children[r - 1] <==> c in multiset(children[r - 1]);
    assert r in parents[c - 1] <==> r in multiset(parents[c - 1]);
    var list := children[r - 1];
    forall x ensures multiset(list)[x] <= 1 {
      if x in multiset(list) {
        assert x in list;
        assert TiedOnce(children, parents, r, x);
      }
    }
    DistinctByCount(list);
  }

  // The supporters of one more retired parent, with both directions written.
  lemma TieAll(children: seq<seq<nat>>, parents: seq<seq<nat>>, personas: seq<Persona>, n: nat, r: nat, chosen: seq<nat>, after: seq<seq<nat>>)
    requires TiesSound(children, parents, personas, n) && 1 <= r <= n && children[r - 1] == [] && IsRetired(personas, r)
    requires Distinct(chosen) && forall k :: 0 <= k < |chosen| ==> 1 <= chosen[k] <= n && Supports(personas, chosen[k])
    requires Listed(parents, after, r, chosen, n)
    ensures TiesSound(children[r - 1 := chosen], after, personas, n)
  {
    var now := children[r - 1 := chosen];
    DistinctByCount(chosen);
    assert AllSupport(chosen, personas, n, r);
    forall q: nat | 1 <= q <= n ensures SupportersOf(now, personas, q) {
      assert SupportersOf(children, personas, q);
      assert now[q - 1] == if q == r then chosen else children[q - 1];
    }
    forall q: nat, c: nat | 1 <= q <= n && 1 <= c <= n ensures TiedOnce(now, after, q, c) {
      assert TiedOnce(children, parents, q, c) && ListedAt(parents, after, r, chosen, c);
      TiedNext(children, parents, after, r, chosen, q, c);
    }
  }

  lemma TiedNext(children: seq<seq<nat>>, parents: seq<seq<nat>>, after: seq<seq<nat>>, r: nat, chosen: seq<nat>, q: nat, c: nat)
    requires 1 <= q <= |children| && 1 <= r <= |children| && 1 <= c <= |parents| == |after|
    requires children[r - 1] == [] && (forall x :: multiset(chosen)[x] <= 1)
    requires TiedOnce(children, parents, q, c) && ListedAt(parents, after, r, chosen, c)
    ensures TiedOnce(children[r - 1 := chosen], after, q, c)
  {
    var gained := if c in chosen then multiset{r} else multiset{};
    assert multiset(after[c - 1])[q] == multiset(parents[c - 1])[q] + gained[q];
    assert c in chosen <==> c in multiset(chosen);
    if q == r {
      assert multiset(children[r - 1])[c] == 0;
    } else {
      assert gained[q] == 0;
    }
  }

  // Person c's list has gained r exactly if c is among the chosen.
  ghost predicate ListedAt(before: seq<seq<nat>>, after: seq<seq<nat>>, r: nat, chosen: seq<nat>, c: nat)
    requires 1 <= c <= |before| == |after|
  {
    multiset(after[c - 1]) == multiset(before[c - 1]) + if c in chosen then multiset{r} else multiset{}
  }

  ghost predicate Listed(before: seq<seq<nat>>, after: seq<seq<nat>>, r: nat, chosen: seq<nat>, n: nat) {
    |before| == |after| == n && forall c: nat :: 1 <= c <= n ==> ListedAt(before, after, r, chosen, c)
  }

  lemma ListNext(before: seq<seq<nat>>, after: seq<seq<nat>>, r: nat, chosen: seq<nat>, k: nat, n: nat)
    requires k < |chosen| && 1 <= chosen[k] <= n && Distinct(chosen) && Listed(before, after, r, chosen[..k], n)
    ensures Listed(before, after[chosen[k] - 1 := after[chosen[k] - 1] + [r]], r, chosen[..k + 1], n)
  {
    var next, more := after[chosen[k] - 1 := after[chosen[k] - 1] + [r]], chosen[..k + 1];
    assert more == chosen[..k] + [chosen[k]];
    assert chosen[k] !in chosen[..k];
    forall c: nat | 1 <= c <= n ensures ListedAt(before, next, r, more, c) {
      assert ListedAt(before, after, r, chosen[..k], c);
    }
  }

  // ---- Collecting ----

  function PeopleWho(personas: seq<Persona>, n: nat, retired: bool): (r: seq<nat>) {
    if n == 0 then []
    else
      PeopleWho(personas, n - 1, retired) +
      if (if retired then IsRetired(personas, n) else Supports(personas, n)) then [n] else []
  }

  lemma {:induction false} PeopleWhoFacts(personas: seq<Persona>, n: nat, retired: bool)
    ensures |PeopleWho(personas, n, retired)| <= n && Distinct(PeopleWho(personas, n, retired))
    ensures forall k :: 0 <= k < |PeopleWho(personas, n, retired)| ==>
              var p := PeopleWho(personas, n, retired)[k];
              1 <= p <= n && if retired then IsRetired(personas, p) else Supports(personas, p)
  {
    if n > 0 {
      PeopleWhoFacts(personas, n - 1, retired);
    }
  }

  method CollectPeople(personas: seq<Persona>, n: nat) returns (supporters: seq<nat>, retirees: seq<nat>)
    ensures supporters == PeopleWho(personas, n, false) && retirees == PeopleWho(personas, n, true)
  {
    supporters, retirees := [], [];
    for p := 1 to n + 1
      invariant supporters == PeopleWho(personas, p - 1, false) && retirees == PeopleWho(personas, p - 1, true)
    {
      if Supports(personas, p) {
        supporters := supporters + [p];
      }
      if IsRetired(personas, p) {
        retirees := retirees + [p];
      }
    }
  }

  // People who may be chosen to support a retired parent.
  ghost predicate Candidates(list: seq<nat>, personas: seq<Persona>, n: nat) {
    Distinct(list) && |list| <= n && forall k :: 0 <= k < |list| ==> 1 <= list[k] <= n && Supports(personas, list[k])
  }

  // ---- Who may support whom ----

  /** The source's inputs; a partition repeats nobody and knows no one beyond the
      population. */
  datatype Inputs = Inputs(personas: seq<Persona>, n: nat, part: Partition, spouseOf: seq<nat>, hasChildP: real, coresidesP: real)

  predicate Fits(x: Inputs) {
    x.n < TWO32 && Distinct(x.part.members) && |x.part.members| <= x.n
  }

  // The members of a household able to support a retired parent.
  function Residents(household: seq<nat>, personas: seq<Persona>, n: nat, retired: nat): (r: seq<nat>)
    ensures |r| <= |household|
  {
    if household == [] then
      []
    else
      var m := |household| - 1;
      var before := Residents(household[..m], personas, n, retired);
      if household[m] != retired && 1 <= household[m] <= n && Supports(personas, household[m]) then
        before + [household[m]]
      else before
  }

  lemma {:induction false} ResidentsAre(household: seq<nat>, personas: seq<Persona>, n: nat, retired: nat)
    requires Distinct(household)
    ensures Distinct(Residents(household, personas, n, retired))
    ensures forall p :: p in Residents(household, personas, n, retired) <==>
              p in household && p != retired && 1 <= p <= n && Supports(personas, p)
  {
    hide Supports;
    if household != [] {
      var m := |household| - 1;
      ResidentsAre(household[..m], personas, n, retired);
      assert household == household[..m] + [household[m]] && household[m] !in household[..m];
    }
  }

  // A pool without the retired parent.
  function Without(pool: seq<nat>, retired: nat): (r: seq<nat>)
    ensures |r| <= |pool|
  {
    if pool == [] then
      []
    else
      var m := |pool| - 1;
      Without(pool[..m], retired) + if pool[m] != retired then [pool[m]] else []
  }

  lemma {:induction false} WithoutIs(pool: seq<nat>, retired: nat)
    requires Distinct(pool)
    ensures Distinct(Without(pool, retired))
    ensures forall p :: p in Without(pool, retired) <==> p in pool && p != retired
  {
    if pool != [] {
      var m := |pool| - 1;
      WithoutIs(pool[..m], retired);
      assert pool == pool[..m] + [pool[m]] && pool[m] !in pool[..m];
    }
  }

  method CollectResidents(household: seq<nat>, personas: seq<Persona>, n: nat, retired: nat) returns (out: seq<nat>)
    ensures out == Residents(household, personas, n, retired)
  {
    out := [];
    for k := 0 to |household|
      invariant out == Residents(household[..k], personas, n, retired)
    {
      assert household[..k + 1][..k] == household[..k];
      var p := household[k];
      if p != retired && 1 <= p <= n && Supports(personas, p) {
        out := out + [p];
      }
    }
    assert household[..|household|] == household;
  }

  method CollectEligible(pool: seq<nat>, retired: nat) returns (out: seq<nat>)
    ensures out == Without(pool, retired)
  {
    out := [];
    for k := 0 to |pool|
      invariant out == Without(pool[..k], retired)
    {
      assert pool[..k + 1][..k] == pool[..k];
      if pool[k] != retired {
        out := out + [pool[k]];
      }
    }
    assert pool[..|pool|] == pool;
  }

  // ---- What the draws decide ----

  // One supporter in 65 cases of 100, two in 27, three in 8.
  function Wanted(u: real): (count: nat)
    ensures 1 <= count <= 3
  {
    if u < 0.65 then 1 else if u < 0.92 then 2 else 3
  }

  ghost function SupportersPicked(words: Words64, eligible: seq<nat>, at: nat): (r: (seq<nat>, nat))
    requires Fair(words) && 0 < |eligible| < TWO32
    ensures r.0 != []
  {
    PickFrom(words, eligible, Min(|eligible|, Wanted(RandomKernel.Fraction(words.At(at)))), at + 1)
  }

  method ChooseSupporters(rng: RandomKernel.Rng, eligible: seq<nat>) returns (chosen: seq<nat>)
    requires Fair(rng.words) && 0 < |eligible| < TWO32
    modifies rng
    ensures (chosen, rng.pos) == SupportersPicked(rng.words, eligible, old(rng.pos))
  {
    hide Fair, RandomKernel.Chosen, Distinct;
    var draw := rng.NextDouble();
    var wanted := if draw < 0.65 then 1 else if draw < 0.92 then 2 else 3;
    var count := Min(|eligible|, wanted);
    SomePicked(rng.words, |eligible|, count, rng.pos);
    var indices := rng.ChoiceIndices(|eligible|, count, false);
    ghost var end := rng.pos;
    chosen := [];
    for k := 0 to |indices.value|
      invariant rng.pos == end && |chosen| == k && forall j :: 0 <= j < k ==> chosen[j] == eligible[indices.value[j]]
    {
      chosen := chosen + [eligible[indices.value[k]]];
    }
    assert chosen == PickFrom(rng.words, eligible, count, old(rng.pos) + 1).0;
  }

  datatype Ties = Ties(children: seq<seq<nat>>, parents: seq<seq<nat>>)

  // The list a retired person can inherit: their retired spouse's, if there is one.
  function DonorsList(x: Inputs, children: seq<seq<nat>>, retired: nat): seq<nat>
    requires |children| == x.n
  {
    var spouse := SpouseFor(x.spouseOf, retired, x.n);
    if spouse == 0 || !IsRetired(x.personas, spouse) then [] else children[spouse - 1]
  }

  // The supporters of a retired person who inherits none.
  ghost function FreshSupporters(words: Words64, x: Inputs, retired: nat, at: nat): (r: (seq<nat>, nat))
    requires Fair(words) && Fits(x)
  {
    var (hasChild, next) := RandomKernel.Toss(words, x.hasChildP, at);
    if !hasChild then
      ([], next)
    else
      var (pool, last) := PoolFor(words, x, retired, next);
      var eligible := Without(pool, retired);
      if eligible == [] then ([], last) else SupportersPicked(words, eligible, last)
  }

  // Those of the household when there are any and the coin falls, or else all.
  function PoolFor(words: Words64, x: Inputs, retired: nat, at: nat): (r: (seq<nat>, nat))
    requires Fits(x)
    ensures |r.0| < TWO32
  {
    PeopleWhoFacts(x.personas, x.n, false);
    var residents := Residents(HouseholdFor(x.part, retired, x.n), x.personas, x.n, retired);
    if residents == [] then
      (PeopleWho(x.personas, x.n, false), at)
    else
      var (useResidents, next) := RandomKernel.Toss(words, x.coresidesP, at);
      (if useResidents then residents else PeopleWho(x.personas, x.n, false), next)
  }

  // A retired person's supporters, given the list they may inherit.
  ghost function SupportersDrawn(words: Words64, x: Inputs, donors: seq<nat>, retired: nat, at: nat): (r: (seq<nat>, nat))
    requires Fair(words) && Fits(x)
  {
    if donors == [] then
      FreshSupporters(words, x, retired, at)
    else
      var (inherits, next) := RandomKernel.Toss(words, 0.85, at);
      if inherits then (donors, next) else FreshSupporters(words, x, retired, next)
  }

  function Listing(parents: seq<seq<nat>>, chosen: seq<nat>, retired: nat): (r: seq<seq<nat>>)
    ensures |r| == |parents|
  {
    if chosen == [] then
      parents
    else
      var m := |chosen| - 1;
      var before := Listing(parents, chosen[..m], retired);
      if 1 <= chosen[m] <= |before| then before[chosen[m] - 1 := before[chosen[m] - 1] + [retired]] else before
  }

  // The retired person's list and, with each supporter, the retired person.
  function TiedTo(ties: Ties, retired: nat, chosen: seq<nat>): (r: Ties)
    ensures |r.children| == |ties.children| && |r.parents| == |ties.parents|
  {
    if 1 <= retired <= |ties.children| && chosen != [] then
      Ties(ties.children[retired - 1 := chosen], Listing(ties.parents, chosen, retired))
    else ties
  }

  // The ties once the given retired people have had their turns.
  ghost function Tied(words: Words64, x: Inputs, retirees: seq<nat>, at: nat): (r: (Ties, nat))
    requires Fair(words) && Fits(x)
    ensures |r.0.children| == |r.0.parents| == x.n
  {
    if retirees == [] then
      (Ties(seq(x.n, _ => []), seq(x.n, _ => [])), at)
    else
      var k := |retirees| - 1;
      var (before, next) := Tied(words, x, retirees[..k], at);
      var (chosen, end) := SupportersDrawn(words, x, DonorsList(x, before.children, retirees[k]), retirees[k], next);
      (TiedTo(before, retirees[k], chosen), end)
  }

  // ---- What the draws decide is sound ----

  lemma HouseholdDistinct(part: Partition, p: nat, n: nat)
    requires Distinct(part.members) && |part.members| <= n
    ensures Distinct(HouseholdFor(part, p, n)) && |HouseholdFor(part, p, n)| <= n
  {
  }

  lemma InCandidates(list: seq<nat>, personas: seq<Persona>, n: nat)
    requires Distinct(list) && forall p :: p in list ==> 1 <= p <= n && Supports(personas, p)
    ensures Candidates(list, personas, n)
  {
    hide Supports;
    forall k | 0 <= k < |list| ensures 1 <= list[k] <= n && Supports(personas, list[k]) {
      assert list[k] in list;
    }
    DistinctFits(list, n);
  }

  /** Whoever supports a retired person afresh is able to, is somebody else, and is
      named once. */
  lemma FreshCandidates(words: Words64, x: Inputs, retired: nat, at: nat)
    requires Fair(words) && Fits(x)
    ensures Candidates(FreshSupporters(words, x, retired, at).0, x.personas, x.n)
    ensures retired !in FreshSupporters(words, x, retired, at).0
  {
    hide Fair, Candidates, PickFrom, PoolFor, Without, Supports, Distinct, Fits;
    var next := RandomKernel.Toss(words, x.hasChildP, at).1;
    var (pool, last) := PoolFor(words, x, retired, next);
    PoolCandidates(words, x, retired, next);
    CandidateFacts(pool, x.personas, x.n);
    WithoutIs(pool, retired);
    var eligible := Without(pool, retired);
    if eligible != [] {
      var count := Min(|eligible|, Wanted(RandomKernel.Fraction(words.At(last))));
      PickedFromPool(words, eligible, count, last + 1);
      InCandidates(PickFrom(words, eligible, count, last + 1).0, x.personas, x.n);
    }
    NoCandidates(x.personas, x.n);
  }

  lemma NoCandidates(personas: seq<Persona>, n: nat)
    ensures Candidates([], personas, n)
  {
  }

  lemma CandidateFacts(list: seq<nat>, personas: seq<Persona>, n: nat)
    requires Candidates(list, personas, n)
    ensures Distinct(list) && forall p :: p in list ==> 1 <= p <= n && Supports(personas, p)
  {
  }

  lemma PoolCandidates(words: Words64, x: Inputs, retired: nat, at: nat)
    requires Fits(x)
    ensures Candidates(PoolFor(words, x, retired, at).0, x.personas, x.n)
  {
    hide Supports, Residents, Candidates, PeopleWho, HouseholdFor;
    PeopleWhoFacts(x.personas, x.n, false);
    InCandidates(PeopleWho(x.personas, x.n, false), x.personas, x.n);
    var household := HouseholdFor(x.part, retired, x.n);
    HouseholdDistinct(x.part, retired, x.n);
    ResidentsAre(household, x.personas, x.n, retired);
    InCandidates(Residents(household, x.personas, x.n, retired), x.personas, x.n);
  }

  lemma {:induction false} ListingLists(parents: seq<seq<nat>>, chosen: seq<nat>, retired: nat, n: nat)
    requires |parents| == n && Distinct(chosen) && forall k :: 0 <= k < |chosen| ==> 1 <= chosen[k] <= n
    ensures Listed(parents, Listing(parents, chosen, retired), retired, chosen, n)
  {
    hide Listed;
    if chosen == [] {
      NothingListed(parents, retired, n);
    } else {
      var m := |chosen| - 1;
      ListingLists(parents, chosen[..m], retired, n);
      ListNext(parents, Listing(parents, chosen[..m], retired), retired, chosen, m, n);
      assert chosen[..m + 1] == chosen;
    }
  }

  lemma NothingListed(lists: seq<seq<nat>>, r: nat, n: nat)
    requires |lists| == n
    ensures Listed(lists, lists, r, [], n)
  {
  }

  lemma NoTies(children: seq<seq<nat>>, parents: seq<seq<nat>>, personas: seq<Persona>, n: nat)
    requires |children| == |parents| == n && forall i :: 0 <= i < n ==> children[i] == [] && parents[i] == []
    ensures TiesSound(children, parents, personas, n)
  {
  }

  // A retired parent's supporters can support another.
  lemma SharedCandidates(children: seq<seq<nat>>, parents: seq<seq<nat>>, personas: seq<Persona>, n: nat, donor: nat)
    requires TiesSound(children, parents, personas, n) && 1 <= donor <= n
    ensures Candidates(children[donor - 1], personas, n)
  {
    hide Supports;
    var list := children[donor - 1];
    assert SupportersOf(children, personas, donor);
    TiesAreConverse(children, parents, personas, n, donor, donor);
    DistinctFits(list, n);
  }

  lemma DrawnCandidates(words: Words64, x: Inputs, ties: Ties, retired: nat, at: nat)
    requires Fair(words) && Fits(x) && TiesSound(ties.children, ties.parents, x.personas, x.n) && |ties.children| == x.n
    ensures Candidates(SupportersDrawn(words, x, DonorsList(x, ties.children, retired), retired, at).0, x.personas, x.n)
  {
    hide Fair, Fits, TiesSound, Candidates, FreshSupporters;
    var spouse := SpouseFor(x.spouseOf, retired, x.n);
    if spouse != 0 {
      SharedCandidates(ties.children, ties.parents, x.personas, x.n, spouse);
    }
    FreshCandidates(words, x, retired, at);
    FreshCandidates(words, x, retired, RandomKernel.Toss(words, 0.85, at).1);
  }

  lemma TiedToSound(ties: Ties, personas: seq<Persona>, n: nat, retired: nat, chosen: seq<nat>)
    requires |ties.children| == |ties.parents| == n && TiesSound(ties.children, ties.parents, personas, n)
    requires Candidates(chosen, personas, n)
    requires 1 <= retired <= n && IsRetired(personas, retired) && ties.children[retired - 1] == []
    ensures var after := TiedTo(ties, retired, chosen);
            TiesSound(after.children, after.parents, personas, n) && after.children == ties.children[retired - 1 := chosen]
  {
    hide TiesSound, Listed, Listing;
    ListingLists(ties.parents, chosen, retired, n);
    TieAll(ties.children, ties.parents, personas, n, retired, chosen, Listing(ties.parents, chosen, retired));
  }

  ghost predicate Retired(retirees: seq<nat>, personas: seq<Persona>, n: nat) {
    Distinct(retirees) && forall k :: 0 <= k < |retirees| ==> 1 <= retirees[k] <= n && IsRetired(personas, retirees[k])
  }

  // Where the k-th retired person has their turn, and what ties there are by then.
  ghost predicate HadSupport(words: Words64, x: Inputs, retirees: seq<nat>, at: nat, k: nat, children: seq<seq<nat>>)
    requires Fair(words) && Fits(x) && k < |retirees|
  {
    var (before, next) := Tied(words, x, retirees[..k], at);
    && 1 <= retirees[k] <= |children|
    && children[retirees[k] - 1] == SupportersDrawn(words, x, DonorsList(x, before.children, retirees[k]), retirees[k], next).0
  }

  /** Ties stay converses turn by turn; every retired person ends with the
      supporters drawn, or inherited, at their own turn; and nobody else has any. */
  lemma {:induction false} TiedIsSound(words: Words64, x: Inputs, retirees: seq<nat>, at: nat)
    requires Fair(words) && Fits(x) && Retired(retirees, x.personas, x.n)
    ensures TiesSound(Tied(words, x, retirees, at).0.children, Tied(words, x, retirees, at).0.parents, x.personas, x.n)
    ensures forall i :: 0 <= i < x.n && i + 1 !in retirees ==> Tied(words, x, retirees, at).0.children[i] == []
    ensures forall k :: 0 <= k < |retirees| ==> HadSupport(words, x, retirees, at, k, Tied(words, x, retirees, at).0.children)
  {
    hide Fair, Fits, TiesSound, SupportersDrawn, DonorsList, TiedTo, HadSupport, Candidates, IsRetired;
    if retirees == [] {
      var none := Tied(words, x, [], at).0;
      NoTies(none.children, none.parents, x.personas, x.n);
    } else {
      var k := |retirees| - 1;
      var rest := retirees[..k];
      TiedIsSound(words, x, rest, at);
      var (before, next) := Tied(words, x, rest, at);
      DrawnCandidates(words, x, before, retirees[k], next);
      var chosen := SupportersDrawn(words, x, DonorsList(x, before.children, retirees[k]), retirees[k], next).0;
      assert retirees[k] !in rest;
      TiedToSound(before, x.personas, x.n, retirees[k], chosen);
      var done := Tied(words, x, retirees, at).0;
      forall j | 0 <= j < |retirees| ensures HadSupport(words, x, retirees, at, j, done.children) {
        LaterSupport(words, x, retirees, at, before.children, chosen, done.children, j);
      }
      forall i | 0 <= i < x.n && i + 1 !in retirees ensures done.children[i] == [] {
        assert i + 1 !in rest && i != retirees[k] - 1;
      }
    }
  }

  lemma LaterSupport(words: Words64, x: Inputs, retirees: seq<nat>, at: nat, before: seq<seq<nat>>, chosen: seq<nat>, done: seq<seq<nat>>, j: nat)
    requires Fair(words) && Fits(x) && j < |retirees| && Retired(retirees, x.personas, x.n) && |before| == x.n
    requires var k := |retirees| - 1;
             && before == Tied(words, x, retirees[..k], at).0.children
             && chosen == SupportersDrawn(words, x, DonorsList(x, before, retirees[k]), retirees[k], Tied(words, x, retirees[..k], at).1).0
             && done == before[retirees[k] - 1 := chosen]
             && (j < k ==> HadSupport(words, x, retirees[..k], at, j, before))
    ensures HadSupport(words, x, retirees, at, j, done)
  {
    hide Fair, Fits, Tied, SupportersDrawn, DonorsList, IsRetired;
    var k := |retirees| - 1;
    if j < k {
      assert retirees[..k][..j] == retirees[..j] && retirees[..k][j] != retirees[k];
    }
  }

  lemma RetireesAre(personas: seq<Persona>, n: nat)
    ensures Retired(PeopleWho(personas, n, true), personas, n)
  {
    hide PeopleWho, IsRetired;
    PeopleWhoFacts(personas, n, true);
  }

  // Later turns leave earlier lists alone.
  lemma {:induction false} ListsStay(words: Words64, x: Inputs, retirees: seq<nat>, at: nat, k: nat, p: nat)
    requires Fair(words) && Fits(x) && Retired(retirees, x.personas, x.n) && k <= |retirees| && p in retirees[..k] && 1 <= p <= x.n
    ensures Tied(words, x, retirees, at).0.children[p - 1] == Tied(words, x, retirees[..k], at).0.children[p - 1]
  {
    hide Fair, Fits, SupportersDrawn, DonorsList, IsRetired;
    var m := |retirees| - 1;
    if k <= m {
      assert p != retirees[m] && retirees[..m][..k] == retirees[..k];
      ListsStay(words, x, retirees[..m], at, k, p);
    } else {
      assert retirees[..k] == retirees;
    }
  }

  /** What a retired person may inherit is the final list of their retired spouse,
      when that spouse had their turn before; otherwise nothing. */
  lemma DonorsListIs(words: Words64, x: Inputs, retirees: seq<nat>, at: nat, k: nat)
    requires Fair(words) && Fits(x) && Retired(retirees, x.personas, x.n) && k < |retirees|
    ensures var spouse := SpouseFor(x.spouseOf, retirees[k], x.n);
            DonorsList(x, Tied(words, x, retirees[..k], at).0.children, retirees[k]) ==
              if spouse != 0 && spouse in retirees[..k] then Tied(words, x, retirees, at).0.children[spouse - 1] else []
  {
    hide Fair, Fits, Tied, IsRetired, TiesSound, HadSupport;
    var spouse := SpouseFor(x.spouseOf, retirees[k], x.n);
    var before := retirees[..k];
    TiedIsSound(words, x, before, at);
    if spouse != 0 && spouse in before {
      ListsStay(words, x, retirees, at, k, spouse);
    } else if spouse != 0 {
      assert (spouse - 1) + 1 !in before;
    }
  }

  // ---- The builder ----

  class SupportTies {
    var supportingChildrenOf: seq<seq<nat>>
    var supportedParentsBy: seq<seq<nat>>

    constructor (n: nat)
      ensures Value() == Ties(seq(n, _ => []), seq(n, _ => []))
    {
      supportingChildrenOf := seq(n, _ => []);
      supportedParentsBy := seq(n, _ => []);
    }

    function Value(): Ties
      reads this
    {
      Ties(supportingChildrenOf, supportedParentsBy)
    }

    method AddSupportedParents(chosen: seq<nat>, retired: nat)
      modifies this`supportedParentsBy
      ensures supportedParentsBy == Listing(old(supportedParentsBy), chosen, retired)
    {
      for k := 0 to |chosen|
        invariant supportedParentsBy == Listing(old(supportedParentsBy), chosen[..k], retired)
      {
        assert chosen[..k + 1][..k] == chosen[..k];
        if 1 <= chosen[k] <= |supportedParentsBy| {
          supportedParentsBy := supportedParentsBy[chosen[k] - 1 := supportedParentsBy[chosen[k] - 1] + [retired]];
        }
      }
      assert chosen[..|chosen|] == chosen;
    }

    method Tie(retired: nat, chosen: seq<nat>)
      requires 1 <= retired <= |supportingChildrenOf| && chosen != []
      modifies this
      ensures Value() == TiedTo(old(Value()), retired, chosen)
    {
      AddSupportedParents(chosen, retired);
      supportingChildrenOf := supportingChildrenOf[retired - 1 := chosen];
    }

    // A retired spouse whose supporters can be shared; 0 for none.
    method RetiredSpouseWithSupporters(x: Inputs, retired: nat) returns (spouse: nat)
      requires |supportingChildrenOf| == x.n
      ensures spouse <= x.n
      ensures DonorsList(x, supportingChildrenOf, retired) == if spouse == 0 then [] else supportingChildrenOf[spouse - 1]
      ensures spouse != 0 <==> DonorsList(x, supportingChildrenOf, retired) != []
    {
      spouse := SpouseFor(x.spouseOf, retired, x.n);
      if spouse == 0 || !IsRetired(x.personas, spouse) {
        return 0;
      }
      if supportingChildrenOf[spouse - 1] == [] {
        return 0;
      }
    }

    method SupportOne(rng: RandomKernel.Rng, x: Inputs, retired: nat, supporters: seq<nat>)
      requires Fair(rng.words) && Fits(x) && supporters == PeopleWho(x.personas, x.n, false)
      requires 1 <= retired <= x.n == |supportingChildrenOf|
      modifies rng, this
      ensures var (chosen, end) :=
                SupportersDrawn(rng.words, x, DonorsList(x, old(supportingChildrenOf), retired), retired, old(rng.pos));
              Value() == TiedTo(old(Value()), retired, chosen) && rng.pos == end
    {
      hide Fair, Fits, FreshSupporters, DonorsList, TiedTo;
      ghost var ties := Value();
      TiedToNobody(ties, retired);
      var donor := RetiredSpouseWithSupporters(x, retired);
      if donor != 0 {
        var inherits := rng.Coin(0.85);
        if inherits {
          Tie(retired, supportingChildrenOf[donor - 1]);
          return;
        }
      }
      assert Value() == ties;
      SupportAfresh(rng, x, retired, supporters);
    }

    method SupportAfresh(rng: RandomKernel.Rng, x: Inputs, retired: nat, supporters: seq<nat>)
      requires Fair(rng.words) && Fits(x) && supporters == PeopleWho(x.personas, x.n, false)
      requires 1 <= retired <= x.n == |supportingChildrenOf|
      modifies rng, this
      ensures var (chosen, end) := FreshSupporters(rng.words, x, retired, old(rng.pos));
              Value() == TiedTo(old(Value()), retired, chosen) && rng.pos == end
    {
      hide Fair, Fits, PeopleWho, SupportersPicked, TiedTo, Residents, HouseholdFor, Without;
      ghost var ties := Value();
      TiedToNobody(ties, retired);
      PoolsFit(x, retired);
      var hasChild := rng.Coin(x.hasChildP);
      if !hasChild {
        return;
      }
      var household := HouseholdFor(x.part, retired, x.n);
      var residents := CollectResidents(household, x.personas, x.n, retired);
      var pool := supporters;
      if residents != [] {
        var useResidents := rng.Coin(x.coresidesP);
        if useResidents {
          pool := residents;
        }
      }
      var eligible := CollectEligible(pool, retired);
      if eligible == [] {
        return;
      }
      var chosen := ChooseSupporters(rng, eligible);
      Tie(retired, chosen);
    }
  }

  lemma PoolsFit(x: Inputs, retired: nat)
    requires Fits(x)
    ensures |PeopleWho(x.personas, x.n, false)| < TWO32
    ensures |Residents(HouseholdFor(x.part, retired, x.n), x.personas, x.n, retired)| < TWO32
  {
    hide PeopleWho, Residents;
    PeopleWhoFacts(x.personas, x.n, false);
    HouseholdDistinct(x.part, retired, x.n);
  }

  lemma TiedToNobody(ties: Ties, retired: nat)
    ensures TiedTo(ties, retired, []) == ties
  {
  }

  /** Ties every retired person in turn. */
  method BuildSupportTies(rng: RandomKernel.Rng, x: Inputs, enabled: bool) returns (out: SupportTies)
    requires Fair(rng.words) && Fits(x)
    modifies rng
    ensures fresh(out)
    ensures (out.Value(), rng.pos) ==
              Tied(rng.words, x, if enabled then PeopleWho(x.personas, x.n, true) else [], old(rng.pos))
    ensures TiesSound(out.supportingChildrenOf, out.supportedParentsBy, x.personas, x.n)
  {
    hide TiesSound, Fair, Fits, Retired, SupportersDrawn, DonorsList, TiedTo, HadSupport;
    ghost var goal := if enabled then PeopleWho(x.personas, x.n, true) else [];
    RetireesAre(x.personas, x.n);
    NobodyRetired(x.personas, x.n);
    TiedIsSound(rng.words, x, goal, rng.pos);
    out := new SupportTies(x.n);
    if x.n == 0 || !enabled {
      return;
    }
    var supporters, retirees := CollectPeople(x.personas, x.n);
    for k := 0 to |retirees|
      invariant (out.Value(), rng.pos) == Tied(rng.words, x, retirees[..k], old(rng.pos))
    {
      assert retirees[..k + 1][..k] == retirees[..k];
      OneRetired(retirees, x.personas, x.n, k);
      out.SupportOne(rng, x, retirees[k], supporters);
    }
    assert retirees[..|retirees|] == retirees;
  }

  lemma NobodyRetired(personas: seq<Persona>, n: nat)
    ensures Retired([], personas, n)
  {
  }

  lemma OneRetired(retirees: seq<nat>, personas: seq<Persona>, n: nat, k: nat)
    requires Retired(retirees, personas, n) && k < |retirees|
    ensures 1 <= retirees[k] <= n
  {
  }
}
