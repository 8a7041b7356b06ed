/** Couples and parents: converse relations kept by writing both ends. */
module FamilyLinking {
  import opened Words
  import opened Lists
  import opened Bounded
  import RandomKernel
  import opened HouseholdPartition

  datatype Persona = Student | Retiree | Salaried | Freelancer | SmallBusiness | HighNetWorth

  const NOBODY := 0

  predicate IsStudent(personas: seq<Persona>, p: nat)
    requires 1 <= p <= |personas|
  {
    personas[p - 1] == Student
  }

  // The members with, or without, the student persona.
  function Those(members: seq<nat>, personas: seq<Persona>, students: bool): (r: seq<nat>)
    requires forall k :: 0 <= k < |members| ==> 1 <= members[k] <= |personas|
    ensures forall k :: 0 <= k < |r| ==> r[k] in members && 1 <= r[k] <= |personas| && IsStudent(personas, r[k]) == students
  {
    if members == [] then []
    else
      var m := |members| - 1;
      var before := Those(members[..m], personas, students);
      if IsStudent(personas, members[m]) == students then before + [members[m]] else before
  }

  lemma {:induction false} ThoseDistinct(members: seq<nat>, personas: seq<Persona>, students: bool)
    requires (forall k :: 0 <= k < |members| ==> 1 <= members[k] <= |personas|) && Distinct(members)
    ensures Distinct(Those(members, personas, students))
  {
    if members != [] {
      var m := |members| - 1;
      ThoseDistinct(members[..m], personas, students);
      assert members[m] !in members[..m];
    }
  }

  lemma {:induction false} ThoseAll(members: seq<nat>, personas: seq<Persona>, students: bool, p: nat)
    requires (forall k :: 0 <= k < |members| ==> 1 <= members[k] <= |personas|) && p in members
    requires 1 <= p <= |personas| && IsStudent(personas, p) == students
    ensures p in Those(members, personas, students)
  {
    var m := |members| - 1;
    if p != members[m] {
      assert p in members[..m];
      ThoseAll(members[..m], personas, students, p);
    }
  }

  method SplitHouseholdRoles(members: seq<nat>, personas: seq<Persona>) returns (adults: seq<nat>, students: seq<nat>)
    requires forall k :: 0 <= k < |members| ==> 1 <= members[k] <= |personas|
    ensures adults == Those(members, personas, false) && students == Those(members, personas, true)
  {
    adults, students := [], [];
    for k := 0 to |members|
      invariant adults == Those(members[..k], personas, false) && students == Those(members[..k], personas, true)
    {
      assert members[..k + 1][..k] == members[..k];
      if IsStudent(personas, members[k]) {
        students := students + [members[k]];
      } else {
        adults := adults + [members[k]];
      }
    }
    assert members[..|members|] == members;
  }

  /** The people of one household: all different, all of that household. */
  lemma HouseholdFacts(part: Partition, n: nat, h: nat)
    requires Sound(part, n) && h < part.Count()
    ensures part.offsets[h] < part.offsets[h + 1] <= n == |part.members|
    ensures var members := HouseholdMembers(part, h);
            && Distinct(members)
            && forall k :: 0 <= k < |members| ==> 1 <= members[k] <= n && part.householdOf[members[k] - 1] == h
  {
    hide CutUpTo;
    CutFacts(part, n, h);
    Known(part.members, n);
    AllDistinct(part.members, n);
    var members := HouseholdMembers(part, h);
    forall k | 0 <= k < |members| ensures part.householdOf[members[k] - 1] == h {
      IndexedAt(part, n, h, part.offsets[h] + k);
    }
  }

  // ---- Couples ----

  // Person p's spouse, if any, is another adult of the same household whose
  // spouse is p; only households before h have couples.
  predicate SpouseAt(spouseOf: seq<nat>, part: Partition, personas: seq<Persona>, h: nat, p: nat)
    requires |spouseOf| == |personas| == |part.householdOf| && 1 <= p <= |spouseOf|
  {
    var q := spouseOf[p - 1];
    q == NOBODY ||
    (1 <= q <= |spouseOf| && q != p && spouseOf[q - 1] == p && part.householdOf[q - 1] == part.householdOf[p - 1] < h
     && !IsStudent(personas, p) && !IsStudent(personas, q))
  }

  ghost predicate SpousesSound(spouseOf: seq<nat>, part: Partition, personas: seq<Persona>, h: nat) {
    && |spouseOf| == |personas| == |part.householdOf|
    && forall p: nat :: 1 <= p <= |spouseOf| ==> SpouseAt(spouseOf, part, personas, h, p)
  }

  lemma CoupleSeated(spouseOf: seq<nat>, part: Partition, personas: seq<Persona>, h: nat, a: nat, b: nat)
    requires SpousesSound(spouseOf, part, personas, h) && 1 <= a <= |spouseOf| && 1 <= b <= |spouseOf| && a != b
    requires part.householdOf[a - 1] == part.householdOf[b - 1] == h && !IsStudent(personas, a) && !IsStudent(personas, b)
    ensures SpousesSound(spouseOf[a - 1 := b][b - 1 := a], part, personas, h + 1)
  {
    var after := spouseOf[a - 1 := b][b - 1 := a];
    var next := h + 1;
    forall p: nat | 1 <= p <= |after| ensures SpouseAt(after, part, personas, next, p) {
      assert SpouseAt(spouseOf, part, personas, h, p);
      if p != a && p != b && spouseOf[p - 1] != NOBODY {
        assert SpouseAt(spouseOf, part, personas, h, spouseOf[p - 1]);
      }
    }
  }

  lemma NoCouple(spouseOf: seq<nat>, part: Partition, personas: seq<Persona>, h: nat)
    requires SpousesSound(spouseOf, part, personas, h)
    ensures SpousesSound(spouseOf, part, personas, h + 1)
  {
    var next := h + 1;
    forall p: nat | 1 <= p <= |spouseOf| ensures SpouseAt(spouseOf, part, personas, next, p) {
      assert SpouseAt(spouseOf, part, personas, h, p);
    }
  }

  // ---- Parents ----

  predicate IsParent(parentsOf: seq<(nat, nat)>, student: nat, p: nat)
    requires 1 <= student <= |parentsOf|
  {
    p != NOBODY && (parentsOf[student - 1].0 == p || parentsOf[student - 1].1 == p)
  }

  // The child is listed once by each of its parents and by no one else.
  predicate ListedOnce(parentsOf: seq<(nat, nat)>, childrenOf: seq<seq<nat>>, student: nat, p: nat)
    requires 1 <= student <= |parentsOf| && 1 <= p <= |childrenOf|
  {
    multiset(childrenOf[p - 1])[student] == if IsParent(parentsOf, student, p) then 1 else 0
  }

  // Slots are filled in order by different people; adults when there are any.
  predicate SlotsSound(parentsOf: seq<(nat, nat)>, personas: seq<Persona>, anyAdult: bool, student: nat)
    requires 1 <= student <= |parentsOf| == |personas|
  {
    var (a, b) := parentsOf[student - 1];
    && a <= |personas| && b <= |personas|
    && (b != NOBODY ==> a != NOBODY && a != b)
    && (a != NOBODY ==> IsStudent(personas, student))
    && (anyAdult ==> (a != NOBODY ==> !IsStudent(personas, a)) && (b != NOBODY ==> !IsStudent(personas, b)))
  }

  ghost predicate AnyAdult(personas: seq<Persona>) {
    exists p: nat :: 1 <= p <= |personas| && !IsStudent(personas, p)
  }

  ghost predicate ParentsSound(parentsOf: seq<(nat, nat)>, childrenOf: seq<seq<nat>>, personas: seq<Persona>) {
    && |parentsOf| == |childrenOf| == |personas|
    && (forall s: nat :: 1 <= s <= |personas| ==> SlotsSound(parentsOf, personas, AnyAdult(personas), s))
    && (forall s: nat, p: nat :: 1 <= s <= |personas| && 1 <= p <= |personas| ==> ListedOnce(parentsOf, childrenOf, s, p))
    && forall i :: 0 <= i < |childrenOf| ==> PeopleOnly(childrenOf[i], |personas|)
  }

  predicate PeopleOnly(list: seq<nat>, n: nat) {
    forall k :: 0 <= k < |list| ==> 1 <= list[k] <= n
  }

  predicate Acceptable(personas: seq<Persona>, anyAdult: bool, p: nat) {
    1 <= p <= |personas| && (anyAdult ==> !IsStudent(personas, p))
  }

  function WithSlot(slots: (nat, nat), i: nat, p: nat): (nat, nat) {
    if i == 0 then (p, slots.1) else (slots.0, p)
  }

  lemma LinkOne(parentsOf: seq<(nat, nat)>, childrenOf: seq<seq<nat>>, personas: seq<Persona>, student: nat, i: nat, p: nat)
    requires ParentsSound(parentsOf, childrenOf, personas) && 1 <= student <= |personas| && IsStudent(personas, student)
    requires Acceptable(personas, AnyAdult(personas), p) && !IsParent(parentsOf, student, p)
    requires i <= 1 && (i == 0 ==> parentsOf[student - 1] == (0, 0)) && (i == 1 ==> parentsOf[student - 1].0 != 0 && parentsOf[student - 1].1 == 0)
    ensures ParentsSound(parentsOf[student - 1 := WithSlot(parentsOf[student - 1], i, p)],
                         childrenOf[p - 1 := childrenOf[p - 1] + [student]], personas)
  {
    hide AnyAdult;
    var after := parentsOf[student - 1 := WithSlot(parentsOf[student - 1], i, p)];
    var children := childrenOf[p - 1 := childrenOf[p - 1] + [student]];
    forall s: nat | 1 <= s <= |personas| ensures SlotsSound(after, personas, AnyAdult(personas), s) {
      assert SlotsSound(parentsOf, personas, AnyAdult(personas), s);
    }
    forall s: nat, q: nat | 1 <= s <= |personas| && 1 <= q <= |personas| ensures ListedOnce(after, children, s, q) {
      assert ListedOnce(parentsOf, childrenOf, s, q);
    }
  }

  lemma NoParents(parentsOf: seq<(nat, nat)>, childrenOf: seq<seq<nat>>, personas: seq<Persona>)
    requires |parentsOf| == |childrenOf| == |personas|
    requires forall i :: 0 <= i < |personas| ==> parentsOf[i] == (0, 0) && childrenOf[i] == []
    ensures ParentsSound(parentsOf, childrenOf, personas)
  {
    hide AnyAdult;
  }

  /** When anyone is not a student, no one is their own parent, and no one is both
      somebody's parent and somebody's child. */
  lemma ParentsAreOlder(parentsOf: seq<(nat, nat)>, childrenOf: seq<seq<nat>>, personas: seq<Persona>, s: nat, p: nat)
    requires ParentsSound(parentsOf, childrenOf, personas) && AnyAdult(personas)
    requires 1 <= s <= |personas| && 1 <= p <= |personas| && IsParent(parentsOf, s, p)
    ensures p != s && parentsOf[p - 1] == (0, 0)
  {
    assert SlotsSound(parentsOf, personas, true, s) && SlotsSound(parentsOf, personas, true, p);
  }

  /** The two lists are exact converses, each pair once. */
  lemma ParentsAreConverse(parentsOf: seq<(nat, nat)>, childrenOf: seq<seq<nat>>, personas: seq<Persona>, s: nat, p: nat)
    requires ParentsSound(parentsOf, childrenOf, personas) && 1 <= s <= |personas| && 1 <= p <= |personas|
    ensures s in childrenOf[p - 1] <==> IsParent(parentsOf, s, p)
    ensures Distinct(childrenOf[p - 1])
  {
    hide AnyAdult;
    var list := childrenOf[p - 1];
    assert ListedOnce(parentsOf, childrenOf, s, p);
    assert s in list <==> s in multiset(list);
    forall x ensures multiset(list)[x] <= 1 {
      if x in multiset(list) {
        assert x in list;
        var k: nat :| k < |list| && list[k] == x;
        assert ListedOnce(parentsOf, childrenOf, x, p);
      }
    }
    DistinctByCount(list);
  }

  // ---- Who may be drawn ----

  ghost predicate Pool(pool: seq<nat>, personas: seq<Persona>) {
    Distinct(pool) && forall k :: 0 <= k < |pool| ==> Acceptable(personas, AnyAdult(personas), pool[k])
  }

  // The adults in order.
  function AdultsUpTo(personas: seq<Persona>, n: nat): (r: seq<nat>)
    requires n <= |personas|
  {
    if n == 0 then [] else AdultsUpTo(personas, n - 1) + if IsStudent(personas, n) then [] else [n]
  }

  // The candidates from the whole population: everyone when there is no adult.
  function Global(personas: seq<Persona>): seq<nat> {
    var adults := AdultsUpTo(personas, |personas|);
    if adults == [] then Identity(|personas|) else adults
  }

  lemma {:induction false} AdultsUpToFacts(personas: seq<Persona>, n: nat)
    requires n <= |personas|
    ensures |AdultsUpTo(personas, n)| <= n && Distinct(AdultsUpTo(personas, n))
    ensures forall k :: 0 <= k < |AdultsUpTo(personas, n)| ==>
              1 <= AdultsUpTo(personas, n)[k] <= n && !IsStudent(personas, AdultsUpTo(personas, n)[k])
    ensures forall p: nat :: 1 <= p <= n && !IsStudent(personas, p) ==> p in AdultsUpTo(personas, n)
  {
    if n > 0 {
      AdultsUpToFacts(personas, n - 1);
    }
  }

  lemma AdultsFound(personas: seq<Persona>)
    ensures AdultsUpTo(personas, |personas|) == [] <==> !AnyAdult(personas)
  {
    hide AdultsUpTo;
    AdultsUpToFacts(personas, |personas|);
    var adults := AdultsUpTo(personas, |personas|);
    if adults != [] {
      assert !IsStudent(personas, adults[0]);
    }
  }

  /** A person is a candidate exactly when they are no student or no one is an
      adult. */
  lemma GlobalIs(personas: seq<Persona>, p: nat)
    requires 1 <= p <= |personas|
    ensures p in Global(personas) <==> !IsStudent(personas, p) || !AnyAdult(personas)
  {
    hide AdultsUpTo, AnyAdult;
    AdultsUpToFacts(personas, |personas|);
    AdultsFound(personas);
    assert Identity(|personas|)[p - 1] == p;
    var adults := AdultsUpTo(personas, |personas|);
    if p in adults {
      var k: nat :| k < |adults| && adults[k] == p;
    }
  }

  lemma GlobalPool(personas: seq<Persona>)
    ensures Pool(Global(personas), personas) && |Global(personas)| <= |personas|
    ensures personas != [] ==> Global(personas) != []
  {
    hide AdultsUpTo, AnyAdult;
    AdultsUpToFacts(personas, |personas|);
    AdultsFound(personas);
  }

  method CollectGlobalAdults(personas: seq<Persona>) returns (adults: seq<nat>)
    requires |personas| < TWO32
    ensures adults == Global(personas)
  {
    adults := [];
    for p := 1 to |personas| + 1
      invariant adults == AdultsUpTo(personas, p - 1)
    {
      if !IsStudent(personas, p) {
        adults := adults + [p];
      }
    }
    if adults == [] {
      for p := 1 to |personas| + 1
        invariant adults == Identity(p - 1)
      {
        adults := adults + [p];
      }
    }
  }

  // ---- What the draws decide ----

  datatype Dependents = Dependents(dependentP: real, coresidesP: real, twoParentP: real)

  lemma SomePicked(words: Words64, n: nat, count: nat, at: nat)
    requires Fair(words) && 0 < count <= n < TWO64
    ensures var picked := RandomKernel.Chosen(words, n, count, at).0;
            |picked| == count && Distinct(picked) && forall k :: 0 <= k < count ==> picked[k] < n
  {
    hide RandomKernel.Chosen;
    RandomKernel.ChosenIsASample(words, n, count, at);
    var picked := RandomKernel.Chosen(words, n, count, at).0;
    assert forall k :: 0 <= k < count ==> picked[k] in picked;
  }

  // The members of a pool that an index sample names, in the sample's order.
  ghost function PickFrom(words: Words64, pool: seq<nat>, count: nat, at: nat): (r: (seq<nat>, nat))
    requires Fair(words) && 0 < count <= |pool| < TWO32
    ensures |r.0| == count
  {
    SomePicked(words, |pool|, count, at);
    var (picked, end) := RandomKernel.Chosen(words, |pool|, count, at);
    (seq(count, k requires 0 <= k < count => pool[picked[k]]), end)
  }

  lemma PickedFromPool(words: Words64, pool: seq<nat>, count: nat, at: nat)
    requires Fair(words) && 0 < count <= |pool| < TWO32
    ensures forall k :: 0 <= k < count ==> PickFrom(words, pool, count, at).0[k] in pool
    ensures Distinct(pool) ==> Distinct(PickFrom(words, pool, count, at).0)
  {
    hide RandomKernel.Chosen;
    SomePicked(words, |pool|, count, at);
  }

  // A household's couple, if it gets one.
  ghost function CoupleDrawn(words: Words64, adults: seq<nat>, spouseP: real, at: nat): (r: (seq<nat>, nat))
    requires Fair(words) && |adults| < TWO32
    ensures r.0 == [] || |r.0| == 2
  {
    if |adults| < 2 then
      ([], at)
    else
      var (couple, next) := RandomKernel.Toss(words, spouseP, at);
      if couple then PickFrom(words, adults, 2, next) else ([], next)
  }

  function Wed(spouseOf: seq<nat>, couple: seq<nat>): (r: seq<nat>)
    ensures |r| == |spouseOf|
  {
    if |couple| == 2 && 1 <= couple[0] <= |spouseOf| && 1 <= couple[1] <= |spouseOf| then
      spouseOf[couple[0] - 1 := couple[1]][couple[1] - 1 := couple[0]]
    else spouseOf
  }

  // A household's members, whoever they are.
  ghost function Roles(part: Partition, personas: seq<Persona>, h: nat, students: bool): (r: seq<nat>)
    requires Sound(part, |personas|) && |personas| < TWO32 && h < part.Count()
    ensures |r| < TWO32 && Distinct(r)
    ensures forall k :: 0 <= k < |r| ==>
              1 <= r[k] <= |personas| == |part.householdOf| && IsStudent(personas, r[k]) == students && part.householdOf[r[k] - 1] == h
  {
    HouseholdFacts(part, |personas|, h);
    RolesFacts(part, personas, h, students);
    Those(HouseholdMembers(part, h), personas, students)
  }

  // The spouses once the first h households are done.
  ghost function Spouses(words: Words64, part: Partition, personas: seq<Persona>, spouseP: real, h: nat, at: nat): (r: (seq<nat>, nat))
    requires Fair(words) && Sound(part, |personas|) && |personas| < TWO32 && h <= part.Count()
    ensures |r.0| == |personas|
  {
    if h == 0 then
      (seq(|personas|, _ => 0), at)
    else
      var (before, next) := Spouses(words, part, personas, spouseP, h - 1, at);
      var (couple, end) := CoupleDrawn(words, Roles(part, personas, h - 1, false), spouseP, next);
      (Wed(before, couple), end)
  }

  datatype Kin = Kin(parentsOf: seq<(nat, nat)>, childrenOf: seq<seq<nat>>)

  ghost predicate Sized(kin: Kin, n: nat) {
    |kin.parentsOf| == |kin.childrenOf| == n
  }

  // A student's parents: none, or one or two from the pool the coins select.
  ghost function ParentsDrawn(words: Words64, local: seq<nat>, global: seq<nat>, dep: Dependents, at: nat): (r: (seq<nat>, nat))
    requires Fair(words) && |local| < TWO32 && |global| < TWO32
    ensures |r.0| <= 2
  {
    var (dependent, next) := RandomKernel.Toss(words, dep.dependentP, at);
    if !dependent then
      ([], next)
    else
      var (pool, last) := PoolDrawn(words, local, global, dep, next);
      FromPool(words, pool, dep, last)
  }

  // The household's own adults when it has any and the coin falls, or else all.
  function PoolDrawn(words: Words64, local: seq<nat>, global: seq<nat>, dep: Dependents, at: nat): (r: (seq<nat>, nat))
    ensures r.0 == local || r.0 == global
  {
    if local == [] then
      (global, at)
    else
      var (resident, next) := RandomKernel.Toss(words, dep.coresidesP, at);
      (if resident then local else global, next)
  }

  ghost function FromPool(words: Words64, pool: seq<nat>, dep: Dependents, at: nat): (r: (seq<nat>, nat))
    requires Fair(words) && |pool| < TWO32
    ensures |r.0| <= 2
  {
    if pool == [] then
      ([], at)
    else
      var (two, next) := if |pool| >= 2 then RandomKernel.Toss(words, dep.twoParentP, at) else (false, at);
      PickFrom(words, pool, if two then 2 else 1, next)
  }

  function Linked(kin: Kin, student: nat, i: nat, p: nat): (r: Kin)
    ensures |r.parentsOf| == |kin.parentsOf| && |r.childrenOf| == |kin.childrenOf|
  {
    if 1 <= student <= |kin.parentsOf| && 1 <= p <= |kin.childrenOf| then
      Kin(kin.parentsOf[student - 1 := WithSlot(kin.parentsOf[student - 1], i, p)],
          kin.childrenOf[p - 1 := kin.childrenOf[p - 1] + [student]])
    else kin
  }

  // The parents fill the student's slots in order and each lists the student.
  function Seated(kin: Kin, student: nat, parents: seq<nat>): (r: Kin)
    ensures |r.parentsOf| == |kin.parentsOf| && |r.childrenOf| == |kin.childrenOf|
  {
    if parents == [] then kin
    else
      var i := |parents| - 1;
      Linked(Seated(kin, student, parents[..i]), student, i, parents[i])
  }

  // After the given students of one household have had their turns.
  ghost function Parented(words: Words64, kin: Kin, students: seq<nat>, local: seq<nat>, global: seq<nat>, dep: Dependents, at: nat): (r: (Kin, nat))
    requires Fair(words) && |local| < TWO32 && |global| < TWO32
    ensures |r.0.parentsOf| == |kin.parentsOf| && |r.0.childrenOf| == |kin.childrenOf|
  {
    if students == [] then
      (kin, at)
    else
      var k := |students| - 1;
      var (before, next) := Parented(words, kin, students[..k], local, global, dep, at);
      var (parents, end) := ParentsDrawn(words, local, global, dep, next);
      (Seated(before, students[k], parents), end)
  }

  // Parents and children once the first h households are done.
  ghost function Families(words: Words64, part: Partition, personas: seq<Persona>, dep: Dependents, h: nat, at: nat): (r: (Kin, nat))
    requires Fair(words) && Sound(part, |personas|) && |personas| < TWO32 && h <= part.Count()
    ensures Sized(r.0, |personas|)
  {
    if h == 0 then
      (Kin(seq(|personas|, _ => (0, 0)), seq(|personas|, _ => [])), at)
    else
      GlobalPool(personas);
      var (before, next) := Families(words, part, personas, dep, h - 1, at);
      Parented(words, before, Roles(part, personas, h - 1, true), Roles(part, personas, h - 1, false), Global(personas), dep, next)
  }

  // ---- What the draws decide is sound ----

  lemma RolesFacts(part: Partition, personas: seq<Persona>, h: nat, students: bool)
    requires Sound(part, |personas|) && |personas| < TWO32 && h < part.Count()
    ensures part.offsets[h] < part.offsets[h + 1] <= |part.members| == |personas| == |part.householdOf|
    ensures var members := HouseholdMembers(part, h);
            && (forall k :: 0 <= k < |members| ==> 1 <= members[k] <= |personas|)
            && var those := Those(members, personas, students);
            && Distinct(those) && |those| < TWO32
            && forall k :: 0 <= k < |those| ==>
                 1 <= those[k] <= |personas| && IsStudent(personas, those[k]) == students && part.householdOf[those[k] - 1] == h
  {
    hide Sound, Those;
    HouseholdFacts(part, |personas|, h);
    SoundSizes(part, |personas|);
    var members := HouseholdMembers(part, h);
    ThoseDistinct(members, personas, students);
    ThoseShorter(members, personas, students);
    ThoseLiveIn(part, members, personas, students, h);
  }

  lemma {:induction false} ThoseShorter(members: seq<nat>, personas: seq<Persona>, students: bool)
    requires forall k :: 0 <= k < |members| ==> 1 <= members[k] <= |personas|
    ensures |Those(members, personas, students)| <= |members|
  {
    if members != [] {
      ThoseShorter(members[..|members| - 1], personas, students);
    }
  }

  lemma SoundSizes(part: Partition, n: nat)
    requires Sound(part, n)
    ensures |part.householdOf| == |part.members| == n
  {
  }

  lemma ThoseLiveIn(part: Partition, members: seq<nat>, personas: seq<Persona>, students: bool, h: nat)
    requires |part.householdOf| == |personas|
    requires forall k :: 0 <= k < |members| ==> 1 <= members[k] <= |personas| && part.householdOf[members[k] - 1] == h
    ensures var those := Those(members, personas, students);
            forall k :: 0 <= k < |those| ==> part.householdOf[those[k] - 1] == h
  {
    var those := Those(members, personas, students);
    forall k | 0 <= k < |those| ensures part.householdOf[those[k] - 1] == h {
      assert those[k] in members;
    }
  }

  // The couple are two different adults of the household.
  lemma CoupleFacts(words: Words64, adults: seq<nat>, spouseP: real, at: nat)
    requires Fair(words) && |adults| < TWO32 && Distinct(adults)
    ensures var couple := CoupleDrawn(words, adults, spouseP, at).0;
            couple != [] ==> |couple| == 2 && couple[0] in adults && couple[1] in adults && couple[0] != couple[1]
  {
    hide PickFrom;
    if |adults| >= 2 {
      PickedFromPool(words, adults, 2, RandomKernel.Toss(words, spouseP, at).1);
    }
  }

  lemma {:induction false} SpousesAreSound(words: Words64, part: Partition, personas: seq<Persona>, spouseP: real, h: nat, at: nat)
    requires Fair(words) && Sound(part, |personas|) && |personas| < TWO32 && h <= part.Count()
    ensures SpousesSound(Spouses(words, part, personas, spouseP, h, at).0, part, personas, h)
  {
    hide Sound, Fair, SpousesSound, Roles, CoupleDrawn;
    SoundSizes(part, |personas|);
    if h == 0 {
      NoSpouses(Spouses(words, part, personas, spouseP, 0, at).0, part, personas);
    } else {
      SpousesAreSound(words, part, personas, spouseP, h - 1, at);
      var (before, next) := Spouses(words, part, personas, spouseP, h - 1, at);
      var adults := Roles(part, personas, h - 1, false);
      CoupleFacts(words, adults, spouseP, next);
      var couple := CoupleDrawn(words, adults, spouseP, next).0;
      NoCouple(before, part, personas, h - 1);
      if couple != [] {
        CoupleSeated(before, part, personas, h - 1, couple[0], couple[1]);
      }
    }
  }

  lemma NoSpouses(spouseOf: seq<nat>, part: Partition, personas: seq<Persona>)
    requires |spouseOf| == |personas| == |part.householdOf| && forall i :: 0 <= i < |spouseOf| ==> spouseOf[i] == 0
    ensures SpousesSound(spouseOf, part, personas, 0)
  {
  }

  // Who a person is wed to by a couple.
  function Partner(couple: seq<nat>, p: nat): nat {
    if |couple| == 2 && p == couple[0] then couple[1] else if |couple| == 2 && p == couple[1] then couple[0] else NOBODY
  }

  /** At most one couple per household: everyone's spouse is their partner in the
      couple their own household draws at its turn, and nobody otherwise. */
  lemma {:induction false} SpouseIsDrawn(words: Words64, part: Partition, personas: seq<Persona>, spouseP: real, h: nat, g: nat, at: nat, p: nat)
    requires Fair(words) && Sound(part, |personas|) && |personas| < TWO32 && h <= part.Count()
    requires 1 <= p <= |personas| == |part.householdOf| && part.householdOf[p - 1] == g < part.Count()
    ensures Spouses(words, part, personas, spouseP, h, at).0[p - 1] ==
              if g < h then
                Partner(CoupleDrawn(words, Roles(part, personas, g, false), spouseP, Spouses(words, part, personas, spouseP, g, at).1).0, p)
              else NOBODY
  {
    hide Sound, Fair, Roles, CoupleDrawn;
    if h > 0 {
      SpouseIsDrawn(words, part, personas, spouseP, h - 1, g, at, p);
      var (before, next) := Spouses(words, part, personas, spouseP, h - 1, at);
      var adults := Roles(part, personas, h - 1, false);
      CoupleFacts(words, adults, spouseP, next);
    }
  }

  ghost predicate Unassigned(parentsOf: seq<(nat, nat)>, students: seq<nat>) {
    forall k :: 0 <= k < |students| ==> 1 <= students[k] <= |parentsOf| && parentsOf[students[k] - 1] == (0, 0)
  }

  // The parents drawn are different members of one pool.
  lemma DrawnFacts(words: Words64, local: seq<nat>, global: seq<nat>, dep: Dependents, at: nat)
    requires Fair(words) && |local| < TWO32 && |global| < TWO32
    ensures var parents := ParentsDrawn(words, local, global, dep, at).0;
            && (Distinct(local) && Distinct(global) ==> Distinct(parents))
            && ((forall k :: 0 <= k < |parents| ==> parents[k] in local) || forall k :: 0 <= k < |parents| ==> parents[k] in global)
  {
    hide PickFrom, PoolDrawn;
    var (pool, next) := PoolDrawn(words, local, global, dep, RandomKernel.Toss(words, dep.dependentP, at).1);
    if pool != [] {
      var (two, last) := if |pool| >= 2 then RandomKernel.Toss(words, dep.twoParentP, next) else (false, next);
      PickedFromPool(words, pool, if two then 2 else 1, last);
    }
  }

  ghost predicate KinSound(kin: Kin, personas: seq<Persona>) {
    ParentsSound(kin.parentsOf, kin.childrenOf, personas)
  }

  ghost predicate Eligible(parents: seq<nat>, personas: seq<Persona>) {
    Distinct(parents) && forall k :: 0 <= k < |parents| ==> Acceptable(personas, AnyAdult(personas), parents[k])
  }

  // A student's slots for the given parents.
  function Slots(parents: seq<nat>): (nat, nat) {
    (if |parents| > 0 then parents[0] else 0, if |parents| > 1 then parents[1] else 0)
  }

  lemma SeatedOne(kin: Kin, student: nat, p: nat)
    ensures Seated(kin, student, [p]) == Linked(kin, student, 0, p)
  {
    assert [p][..0] == [];
  }

  lemma SeatedTwo(kin: Kin, student: nat, p: nat, q: nat)
    ensures Seated(kin, student, [p, q]) == Linked(Linked(kin, student, 0, p), student, 1, q)
  {
    assert [p, q][..1] == [p];
    SeatedOne(kin, student, p);
  }

  lemma LinkedFirst(kin: Kin, personas: seq<Persona>, student: nat, p: nat)
    requires KinSound(kin, personas) && Sized(kin, |personas|) && Acceptable(personas, AnyAdult(personas), p)
    requires 1 <= student <= |personas| && IsStudent(personas, student) && kin.parentsOf[student - 1] == (0, 0)
    ensures KinSound(Linked(kin, student, 0, p), personas)
    ensures Linked(kin, student, 0, p).parentsOf == kin.parentsOf[student - 1 := (p, 0)]
  {
    hide ParentsSound, AnyAdult;
    LinkOne(kin.parentsOf, kin.childrenOf, personas, student, 0, p);
  }

  lemma LinkedSecond(kin: Kin, personas: seq<Persona>, student: nat, p: nat, q: nat)
    requires KinSound(kin, personas) && Sized(kin, |personas|) && Acceptable(personas, AnyAdult(personas), q)
    requires 1 <= student <= |personas| && IsStudent(personas, student) && kin.parentsOf[student - 1] == (p, 0)
    requires p != 0 && p != q
    ensures KinSound(Linked(kin, student, 1, q), personas)
    ensures Linked(kin, student, 1, q).parentsOf == kin.parentsOf[student - 1 := (p, q)]
  {
    hide ParentsSound, AnyAdult;
    LinkOne(kin.parentsOf, kin.childrenOf, personas, student, 1, q);
  }

  lemma SeatedSound(kin: Kin, personas: seq<Persona>, student: nat, parents: seq<nat>)
    requires KinSound(kin, personas) && Sized(kin, |personas|) && Eligible(parents, personas) && |parents| <= 2
    requires 1 <= student <= |personas| && IsStudent(personas, student) && kin.parentsOf[student - 1] == (0, 0)
    ensures KinSound(Seated(kin, student, parents), personas)
    ensures Seated(kin, student, parents).parentsOf == kin.parentsOf[student - 1 := Slots(parents)]
  {
    hide KinSound, AnyAdult, Linked, Seated;
    if parents == [] {
      SeatedNone(kin, student);
    } else if |parents| == 1 {
      assert parents == [parents[0]];
      SeatedOne(kin, student, parents[0]);
      LinkedFirst(kin, personas, student, parents[0]);
    } else {
      var p, q := parents[0], parents[1];
      assert parents == [p, q];
      SeatedTwo(kin, student, p, q);
      LinkedFirst(kin, personas, student, p);
      LinkedSecond(Linked(kin, student, 0, p), personas, student, p, q);
    }
  }

  lemma SeatedNone(kin: Kin, student: nat)
    ensures Seated(kin, student, []) == kin
  {
  }

  lemma DrawnEligible(words: Words64, local: seq<nat>, global: seq<nat>, dep: Dependents, at: nat, personas: seq<Persona>)
    requires Fair(words) && |local| < TWO32 && |global| < TWO32 && Pool(local, personas) && Pool(global, personas)
    ensures Eligible(ParentsDrawn(words, local, global, dep, at).0, personas)
  {
    hide ParentsDrawn, AnyAdult, Acceptable;
    DrawnFacts(words, local, global, dep, at);
  }

  // The turns of one household keep everything sound, and each student ends with
  // the parents drawn at their own turn.
  lemma {:induction false} ParentedSound(words: Words64, kin: Kin, students: seq<nat>, local: seq<nat>, global: seq<nat>, dep: Dependents,
                                         at: nat, personas: seq<Persona>)
    requires Fair(words) && |local| < TWO32 && |global| < TWO32 && Pool(local, personas) && Pool(global, personas)
    requires KinSound(kin, personas) && Sized(kin, |personas|) && Distinct(students) && Unassigned(kin.parentsOf, students)
    requires forall k :: 0 <= k < |students| ==> 1 <= students[k] <= |personas| && IsStudent(personas, students[k])
    ensures KinSound(Parented(words, kin, students, local, global, dep, at).0, personas)
    ensures forall i :: 0 <= i < |personas| && i + 1 !in students ==>
              Parented(words, kin, students, local, global, dep, at).0.parentsOf[i] == kin.parentsOf[i]
    ensures forall k :: 0 <= k < |students| ==>
              HadTurn(words, kin, students, local, global, dep, at, k, Parented(words, kin, students, local, global, dep, at).0)
  {
    hide ParentsSound, Pool, Eligible, ParentsDrawn, Seated, KinSound, Fair, HadTurn;
    if students != [] {
      var k := |students| - 1;
      var rest := students[..k];
      ParentedSound(words, kin, rest, local, global, dep, at, personas);
      var (before, next) := Parented(words, kin, rest, local, global, dep, at);
      DrawnEligible(words, local, global, dep, next, personas);
      assert students[k] !in rest;
      SeatedSound(before, personas, students[k], ParentsDrawn(words, local, global, dep, next).0);
      var done := Parented(words, kin, students, local, global, dep, at).0;
      forall j | 0 <= j < |students| ensures HadTurn(words, kin, students, local, global, dep, at, j, done) {
        LaterTurn(words, kin, students, local, global, dep, at, before, next, done, j);
      }
      forall i | 0 <= i < |personas| && i + 1 !in students ensures done.parentsOf[i] == kin.parentsOf[i] {
        assert i + 1 !in rest && i != students[k] - 1;
      }
    }
  }

  // A turn stands once the last student has had theirs too.
  lemma LaterTurn(words: Words64, kin: Kin, students: seq<nat>, local: seq<nat>, global: seq<nat>, dep: Dependents, at: nat,
                  before: Kin, next: nat, done: Kin, j: nat)
    requires Fair(words) && |local| < TWO32 && |global| < TWO32 && j < |students| && Distinct(students)
    requires |done.parentsOf| == |before.parentsOf| && forall k :: 0 <= k < |students| ==> 1 <= students[k] <= |done.parentsOf|
    requires next == Parented(words, kin, students[..|students| - 1], local, global, dep, at).1
    requires done.parentsOf == before.parentsOf[students[|students| - 1] - 1 := Slots(ParentsDrawn(words, local, global, dep, next).0)]
    requires j < |students| - 1 ==> HadTurn(words, kin, students[..|students| - 1], local, global, dep, at, j, before)
    ensures HadTurn(words, kin, students, local, global, dep, at, j, done)
  {
    hide ParentsDrawn, Fair, Parented, Slots;
    var k := |students| - 1;
    if j < k {
      assert students[..k][..j] == students[..j] && students[..k][j] != students[k];
    }
  }

  ghost predicate HadTurn(words: Words64, kin: Kin, students: seq<nat>, local: seq<nat>, global: seq<nat>, dep: Dependents,
                          at: nat, k: nat, done: Kin)
    requires Fair(words) && |local| < TWO32 && |global| < TWO32 && k < |students|
  {
    && 1 <= students[k] <= |done.parentsOf|
    && done.parentsOf[students[k] - 1] ==
         Slots(ParentsDrawn(words, local, global, dep, Parented(words, kin, students[..k], local, global, dep, at).1).0)
  }

  // No student of the households from h on has parents yet.
  ghost predicate UnassignedFrom(parentsOf: seq<(nat, nat)>, part: Partition, h: nat) {
    && |parentsOf| == |part.householdOf|
    && forall i :: 0 <= i < |parentsOf| && part.householdOf[i] >= h ==> parentsOf[i] == (0, 0)
  }

  lemma LocalPool(adults: seq<nat>, personas: seq<Persona>)
    requires Distinct(adults) && forall k :: 0 <= k < |adults| ==> 1 <= adults[k] <= |personas| && !IsStudent(personas, adults[k])
    ensures Pool(adults, personas)
  {
  }

  lemma StudentsWait(parentsOf: seq<(nat, nat)>, part: Partition, h: nat, students: seq<nat>)
    requires UnassignedFrom(parentsOf, part, h)
    requires forall k :: 0 <= k < |students| ==> 1 <= students[k] <= |part.householdOf| && part.householdOf[students[k] - 1] == h
    ensures Unassigned(parentsOf, students)
  {
  }

  lemma HouseholdDone(before: seq<(nat, nat)>, after: seq<(nat, nat)>, part: Partition, h: nat, students: seq<nat>)
    requires UnassignedFrom(before, part, h) && |after| == |before|
    requires forall i :: 0 <= i < |after| && i + 1 !in students ==> after[i] == before[i]
    requires forall k :: 0 <= k < |students| ==> 1 <= students[k] <= |part.householdOf| && part.householdOf[students[k] - 1] == h
    ensures UnassignedFrom(after, part, h + 1)
  {
  }

  lemma {:induction false} FamiliesAreSound(words: Words64, part: Partition, personas: seq<Persona>, dep: Dependents, h: nat, at: nat)
    requires Fair(words) && Sound(part, |personas|) && |personas| < TWO32 && h <= part.Count()
    ensures KinSound(Families(words, part, personas, dep, h, at).0, personas)
    ensures UnassignedFrom(Families(words, part, personas, dep, h, at).0.parentsOf, part, h)
  {
    hide Sound, Fair, ParentsSound, Roles, Pool, Global, Unassigned, UnassignedFrom, Parented, HadTurn;
    SoundSizes(part, |personas|);
    if h == 0 {
      var kin := Families(words, part, personas, dep, 0, at).0;
      NoParents(kin.parentsOf, kin.childrenOf, personas);
      NoneAssigned(kin.parentsOf, part);
    } else {
      FamiliesAreSound(words, part, personas, dep, h - 1, at);
      var (before, next) := Families(words, part, personas, dep, h - 1, at);
      var students, adults := Roles(part, personas, h - 1, true), Roles(part, personas, h - 1, false);
      GlobalPool(personas);
      LocalPool(adults, personas);
      StudentsWait(before.parentsOf, part, h - 1, students);
      ParentedSound(words, before, students, adults, Global(personas), dep, next, personas);
      var after := Parented(words, before, students, adults, Global(personas), dep, next).0;
      HouseholdDone(before.parentsOf, after.parentsOf, part, h - 1, students);
    }
  }

  lemma NoneAssigned(parentsOf: seq<(nat, nat)>, part: Partition)
    requires |parentsOf| == |part.householdOf| && forall i :: 0 <= i < |parentsOf| ==> parentsOf[i] == (0, 0)
    ensures UnassignedFrom(parentsOf, part, 0)
  {
  }

  // Where the k-th student of household g has their turn.
  ghost function TurnOf(words: Words64, part: Partition, personas: seq<Persona>, dep: Dependents, g: nat, k: nat, at: nat): nat
    requires Fair(words) && Sound(part, |personas|) && |personas| < TWO32 && g < part.Count() && k < |Roles(part, personas, g, true)|
  {
    GlobalPool(personas);
    var (kin, next) := Families(words, part, personas, dep, g, at);
    Parented(words, kin, Roles(part, personas, g, true)[..k], Roles(part, personas, g, false), Global(personas), dep, next).1
  }

  /** Every student's parents are the ones drawn at the student's own turn: no
      later turn overwrites them. */
  lemma {:induction false} ParentsAreDrawn(words: Words64, part: Partition, personas: seq<Persona>, dep: Dependents, h: nat, g: nat, k: nat, at: nat)
    requires Fair(words) && Sound(part, |personas|) && |personas| < TWO32 && g < h <= part.Count()
    requires k < |Roles(part, personas, g, true)| && |Global(personas)| < TWO32
    ensures Families(words, part, personas, dep, h, at).0.parentsOf[Roles(part, personas, g, true)[k] - 1] ==
              Slots(ParentsDrawn(words, Roles(part, personas, g, false), Global(personas), dep, TurnOf(words, part, personas, dep, g, k, at)).0)
  {
    hide Sound, Fair, ParentsSound, Roles, Pool, Global, Unassigned, UnassignedFrom, Parented, ParentsDrawn;
    FamiliesAreSound(words, part, personas, dep, h - 1, at);
    var (before, next) := Families(words, part, personas, dep, h - 1, at);
    var students, adults := Roles(part, personas, h - 1, true), Roles(part, personas, h - 1, false);
    GlobalPool(personas);
    LocalPool(adults, personas);
    StudentsWait(before.parentsOf, part, h - 1, students);
    ParentedSound(words, before, students, adults, Global(personas), dep, next, personas);
    var after := Parented(words, before, students, adults, Global(personas), dep, next).0;
    if g == h - 1 {
      assert HadTurn(words, before, students, adults, Global(personas), dep, next, k, after);
    } else {
      ParentsAreDrawn(words, part, personas, dep, h - 1, g, k, at);
      var student := Roles(part, personas, g, true)[k];
      assert student !in students;
    }
  }

  // ---- The builder ----

  class FamilyLinks {
    var spouseOf: seq<nat>
    var parentsOf: seq<(nat, nat)>
    var childrenOf: seq<seq<nat>>

    constructor (n: nat)
      ensures spouseOf == seq(n, _ => 0) && Kinship() == Kin(seq(n, _ => (0, 0)), seq(n, _ => []))
    {
      spouseOf := seq(n, _ => 0);
      parentsOf := seq(n, _ => (0, 0));
      childrenOf := seq(n, _ => []);
    }

    function Kinship(): Kin
      reads this`parentsOf, this`childrenOf
    {
      Kin(parentsOf, childrenOf)
    }

    method SeatCouple(rng: RandomKernel.Rng, adults: seq<nat>)
      requires Fair(rng.words) && 2 <= |adults| < TWO32
      requires forall k :: 0 <= k < |adults| ==> 1 <= adults[k] <= |spouseOf|
      modifies rng, this`spouseOf
      ensures var (couple, end) := PickFrom(rng.words, adults, 2, old(rng.pos));
              spouseOf == Wed(old(spouseOf), couple) && rng.pos == end
    {
      hide Fair, RandomKernel.Chosen;
      SomePicked(rng.words, |adults|, 2, rng.pos);
      var picked := rng.ChoiceIndices(|adults|, 2, false);
      var a, b := adults[picked.value[0]], adults[picked.value[1]];
      spouseOf := spouseOf[a - 1 := b];
      spouseOf := spouseOf[b - 1 := a];
    }

    method AssignSpouses(rng: RandomKernel.Rng, part: Partition, personas: seq<Persona>, spouseP: real)
      requires Fair(rng.words) && |personas| < TWO32 && Sound(part, |personas|)
      requires spouseOf == seq(|personas|, _ => 0)
      modifies rng, this`spouseOf
      ensures (spouseOf, rng.pos) == Spouses(rng.words, part, personas, spouseP, part.Count(), old(rng.pos))
      ensures SpousesSound(spouseOf, part, personas, part.Count())
    {
      hide Sound, Fair, SpousesSound, Those, CoupleDrawn;
      for h := 0 to part.Count()
        invariant (spouseOf, rng.pos) == Spouses(rng.words, part, personas, spouseP, h, old(rng.pos))
      {
        RolesFacts(part, personas, h, false);
        var adults, students := SplitHouseholdRoles(HouseholdMembers(part, h), personas);
        CoupleIn(rng, adults, spouseP);
      }
      SpousesAreSound(rng.words, part, personas, spouseP, part.Count(), old(rng.pos));
    }

    method CoupleIn(rng: RandomKernel.Rng, adults: seq<nat>, spouseP: real)
      requires Fair(rng.words) && |adults| < TWO32
      requires forall k :: 0 <= k < |adults| ==> 1 <= adults[k] <= |spouseOf|
      modifies rng, this`spouseOf
      ensures var (couple, end) := CoupleDrawn(rng.words, adults, spouseP, old(rng.pos));
              spouseOf == Wed(old(spouseOf), couple) && rng.pos == end
    {
      hide Fair, PickFrom;
      if |adults| >= 2 {
        var couple := rng.Coin(spouseP);
        if couple {
          SeatCouple(rng, adults);
        }
      }
    }

    // Writes one or two parents of a student and lists the student with each.
    method Seat(rng: RandomKernel.Rng, student: nat, pool: seq<nat>, count: nat)
      requires Fair(rng.words) && 0 < count <= |pool| < TWO32
      requires 1 <= student <= |parentsOf| && forall k :: 0 <= k < |pool| ==> 1 <= pool[k] <= |childrenOf|
      modifies rng, this`parentsOf, this`childrenOf
      ensures var (parents, end) := PickFrom(rng.words, pool, count, old(rng.pos));
              Kinship() == Seated(old(Kinship()), student, parents) && rng.pos == end
    {
      hide Fair, RandomKernel.Chosen, Distinct, Linked;
      SomePicked(rng.words, |pool|, count, rng.pos);
      ghost var parents, end := PickFrom(rng.words, pool, count, rng.pos).0, PickFrom(rng.words, pool, count, rng.pos).1;
      var picked := rng.ChoiceIndices(|pool|, count, false);
      assert forall k :: 0 <= k < count ==> parents[k] == pool[picked.value[k]];
      for i := 0 to |picked.value|
        invariant rng.pos == end
        invariant Kinship() == Seated(old(Kinship()), student, parents[..i])
        invariant |parentsOf| == |old(parentsOf)| && |childrenOf| == |old(childrenOf)|
      {
        assert parents[..i + 1][..i] == parents[..i];
        Link(student, i, pool[picked.value[i]]);
      }
      assert parents[..|parents|] == parents;
    }

    method Link(student: nat, i: nat, parent: nat)
      requires 1 <= student <= |parentsOf| && 1 <= parent <= |childrenOf|
      modifies this`parentsOf, this`childrenOf
      ensures Kinship() == Linked(old(Kinship()), student, i, parent)
    {
      parentsOf := parentsOf[student - 1 := WithSlot(parentsOf[student - 1], i, parent)];
      childrenOf := childrenOf[parent - 1 := childrenOf[parent - 1] + [student]];
    }

    method AssignFor(rng: RandomKernel.Rng, student: nat, local: seq<nat>, global: seq<nat>, dep: Dependents)
      requires Fair(rng.words) && |local| < TWO32 && |global| < TWO32 && 1 <= student <= |parentsOf|
      requires forall k :: 0 <= k < |local| ==> 1 <= local[k] <= |childrenOf|
      requires forall k :: 0 <= k < |global| ==> 1 <= global[k] <= |childrenOf|
      modifies rng, this`parentsOf, this`childrenOf
      ensures var (parents, end) := ParentsDrawn(rng.words, local, global, dep, old(rng.pos));
              Kinship() == Seated(old(Kinship()), student, parents) && rng.pos == end
    {
      hide Fair, FromPool, Seated;
      ghost var kin, at := Kinship(), rng.pos;
      var dependent := rng.Coin(dep.dependentP);
      assert Kinship() == kin;
      if !dependent {
        SeatedNone(kin, student);
        return;
      }
      var pool := global;
      if local != [] {
        var resident := rng.Coin(dep.coresidesP);
        if resident {
          pool := local;
        }
      }
      assert Kinship() == kin && ParentsDrawn(rng.words, local, global, dep, at) == FromPool(rng.words, pool, dep, rng.pos);
      SeatFrom(rng, student, pool, dep);
    }

    method SeatFrom(rng: RandomKernel.Rng, student: nat, pool: seq<nat>, dep: Dependents)
      requires Fair(rng.words) && |pool| < TWO32 && 1 <= student <= |parentsOf|
      requires forall k :: 0 <= k < |pool| ==> 1 <= pool[k] <= |childrenOf|
      modifies rng, this`parentsOf, this`childrenOf
      ensures var (parents, end) := FromPool(rng.words, pool, dep, old(rng.pos));
              Kinship() == Seated(old(Kinship()), student, parents) && rng.pos == end
    {
      hide Fair, PickFrom;
      if pool == [] {
        return;
      }
      var count := 1;
      if |pool| >= 2 {
        var two := rng.Coin(dep.twoParentP);
        if two {
          count := 2;
        }
      }
      Seat(rng, student, pool, count);
    }

    method AssignParents(rng: RandomKernel.Rng, part: Partition, personas: seq<Persona>, dep: Dependents)
      requires Fair(rng.words) && |personas| < TWO32 && Sound(part, |personas|)
      requires Kinship() == Kin(seq(|personas|, _ => (0, 0)), seq(|personas|, _ => []))
      modifies rng, this`parentsOf, this`childrenOf
      ensures (Kinship(), rng.pos) == Families(rng.words, part, personas, dep, part.Count(), old(rng.pos))
      ensures ParentsSound(parentsOf, childrenOf, personas)
    {
      hide Sound, Fair, ParentsSound, Pool, Those, Parented, Global, UnassignedFrom;
      var global := CollectGlobalAdults(personas);
      GlobalPool(personas);
      for h := 0 to part.Count()
        invariant (Kinship(), rng.pos) == Families(rng.words, part, personas, dep, h, old(rng.pos))
      {
        RolesFacts(part, personas, h, false);
        RolesFacts(part, personas, h, true);
        var adults, students := SplitHouseholdRoles(HouseholdMembers(part, h), personas);
        InRange(global, personas);
        ParentsIn(rng, students, adults, global, dep);
      }
      FamiliesAreSound(rng.words, part, personas, dep, part.Count(), old(rng.pos));
    }

    method ParentsIn(rng: RandomKernel.Rng, students: seq<nat>, local: seq<nat>, global: seq<nat>, dep: Dependents)
      requires Fair(rng.words) && |local| < TWO32 && |global| < TWO32
      requires forall k :: 0 <= k < |students| ==> 1 <= students[k] <= |parentsOf|
      requires forall k :: 0 <= k < |local| ==> 1 <= local[k] <= |childrenOf|
      requires forall k :: 0 <= k < |global| ==> 1 <= global[k] <= |childrenOf|
      modifies rng, this`parentsOf, this`childrenOf
      ensures (Kinship(), rng.pos) == Parented(rng.words, old(Kinship()), students, local, global, dep, old(rng.pos))
    {
      hide Fair, ParentsDrawn;
      for k := 0 to |students|
        invariant (Kinship(), rng.pos) == Parented(rng.words, old(Kinship()), students[..k], local, global, dep, old(rng.pos))
      {
        assert students[..k + 1][..k] == students[..k];
        AssignFor(rng, students[k], local, global, dep);
      }
      assert students[..|students|] == students;
    }
  }

  lemma InRange(pool: seq<nat>, personas: seq<Persona>)
    requires Pool(pool, personas)
    ensures forall k :: 0 <= k < |pool| ==> 1 <= pool[k] <= |personas|
  {
  }

  /** Couples, then parents. */
  method BuildLinks(rng: RandomKernel.Rng, part: Partition, personas: seq<Persona>, spouseP: real, dep: Dependents) returns (out: FamilyLinks)
    requires Fair(rng.words) && |personas| < TWO32 && Sound(part, |personas|)
    modifies rng
    ensures fresh(out)
    ensures var (spouses, next) := Spouses(rng.words, part, personas, spouseP, part.Count(), old(rng.pos));
            out.spouseOf == spouses && (out.Kinship(), rng.pos) == Families(rng.words, part, personas, dep, part.Count(), next)
    ensures SpousesSound(out.spouseOf, part, personas, part.Count())
    ensures ParentsSound(out.parentsOf, out.childrenOf, personas)
  {
    hide Sound, Fair, SpousesSound, ParentsSound;
    out := new FamilyLinks(|personas|);
    out.AssignSpouses(rng, part, personas, spouseP);
    out.AssignParents(rng, part, personas, dep);
  }
}
