/** When a student can end up as their own parent. */
module OwnParents {
  import opened Words
  import opened Lists
  import opened Bounded
  import RandomKernel
  import Sampling
  import opened Reachability
  import opened HouseholdPartition
  import opened FamilyLinking

  ghost predicate OwnParentOn(words: Words64, part: Partition, personas: seq<Persona>, dep: Dependents, at: nat)
    requires Fair(words) && Sound(part, |personas|) && |personas| < TWO32
  {
    exists s: nat :: 1 <= s <= |personas| && IsParent(Families(words, part, personas, dep, part.Count(), at).0.parentsOf, s, s)
  }

  /** No run makes a student their own parent exactly when somebody is an adult,
      or nobody is there, or no student is ever dependent. */
  lemma NoOwnParentExactlyWhen(part: Partition, personas: seq<Persona>, dep: Dependents)
    requires Sound(part, |personas|) && |personas| < TWO32
    ensures (forall words: Words64, at: nat :: Fair(words) ==> !OwnParentOn(words, part, personas, dep, at)) <==>
              personas == [] || AnyAdult(personas) || dep.dependentP <= 0.0
  {
    hide Fair, Sound, AnyAdult, OwnParentOn;
    if personas == [] || AnyAdult(personas) || dep.dependentP <= 0.0 {
      forall words: Words64, at: nat | Fair(words) ensures !OwnParentOn(words, part, personas, dep, at) {
        NoOwnParent(words, part, personas, dep, at);
      }
    } else {
      var words := OwnParentReached(part, personas, dep);
      assert OwnParentOn(words, part, personas, dep, 0);
    }
  }

  lemma NoOwnParent(words: Words64, part: Partition, personas: seq<Persona>, dep: Dependents, at: nat)
    requires Fair(words) && Sound(part, |personas|) && |personas| < TWO32
    requires personas == [] || AnyAdult(personas) || dep.dependentP <= 0.0
    ensures !OwnParentOn(words, part, personas, dep, at)
  {
    hide Fair, Sound, AnyAdult, Families, ParentsSound;
    var kin := Families(words, part, personas, dep, part.Count(), at).0;
    FamiliesAreSound(words, part, personas, dep, part.Count(), at);
    forall s: nat | 1 <= s <= |personas| ensures !IsParent(kin.parentsOf, s, s) {
      if IsParent(kin.parentsOf, s, s) {
        if AnyAdult(personas) {
          ParentsAreOlder(kin.parentsOf, kin.childrenOf, personas, s, s);
        } else {
          ParentsOfStudents(kin, personas, s);
          var h, k := TurnExists(part, personas, s);
          GlobalPool(personas);
          ParentsAreDrawn(words, part, personas, dep, part.Count(), h, k, at);
        }
      }
    }
  }

  lemma ParentsOfStudents(kin: Kin, personas: seq<Persona>, s: nat)
    requires KinSound(kin, personas) && 1 <= s <= |personas| == |kin.parentsOf| && IsParent(kin.parentsOf, s, s)
    ensures IsStudent(personas, s)
  {
    hide AnyAdult;
    assert SlotsSound(kin.parentsOf, personas, AnyAdult(personas), s);
  }

  // Every student has a turn.
  lemma TurnExists(part: Partition, personas: seq<Persona>, s: nat) returns (h: nat, k: nat)
    requires Sound(part, |personas|) && |personas| < TWO32 && 1 <= s <= |personas| && IsStudent(personas, s)
    ensures h < part.Count() && k < |Roles(part, personas, h, true)| && Roles(part, personas, h, true)[k] == s
  {
    hide Sound, Those;
    SoundSizes(part, |personas|);
    h := HouseholdNamed(part, |personas|, s);
    HouseholdFacts(part, |personas|, h);
    HouseholdOfIsInverse(part, |personas|, s, h);
    ThoseAll(HouseholdMembers(part, h), personas, true, s);
    k :| k < |Roles(part, personas, h, true)| && Roles(part, personas, h, true)[k] == s;
  }

  lemma HouseholdNamed(part: Partition, n: nat, s: nat) returns (h: nat)
    requires Sound(part, n) && 1 <= s <= n
    ensures |part.householdOf| == n && h == part.householdOf[s - 1] < part.Count()
  {
    hide CutUpTo;
    assert part.Count() > 0 by {
      CutPositive(part, n);
    }
    HouseholdOfIsInverse(part, n, s, 0);
    h := part.householdOf[s - 1];
  }

  lemma CutPositive(part: Partition, n: nat)
    requires CutUpTo(part, n) && n > 0
    ensures part.Count() > 0
  {
  }

  // All-student populations reach it, whatever the other probabilities are.
  lemma OwnParentReached(part: Partition, personas: seq<Persona>, dep: Dependents) returns (words: Words64)
    requires Sound(part, |personas|) && 0 < |personas| < TWO32 && !AnyAdult(personas) && dep.dependentP > 0.0
    ensures Fair(words) && OwnParentOn(words, part, personas, dep, 0)
  {
    hide Fair, Sound, AnyAdult, Families, ParentsDrawn, Global, Roles, Begins;
    var s := FirstStudent(part, personas);
    GlobalPool(personas);
    words := SelfDrawn(personas, dep, s);
    ParentsAreDrawn(words, part, personas, dep, part.Count(), 0, 0, 0);
    FirstTurn(words, part, personas, dep);
    var parents := ParentsDrawn(words, [], Global(personas), dep, 0).0;
    var i: nat :| i < |parents| && parents[i] == s;
    assert IsParent(Families(words, part, personas, dep, part.Count(), 0).0.parentsOf, s, s);
  }

  // The first student of the first household, who has no adult around.
  lemma FirstStudent(part: Partition, personas: seq<Persona>) returns (s: nat)
    requires Sound(part, |personas|) && 0 < |personas| < TWO32 && !AnyAdult(personas)
    ensures part.Count() > 0 && Roles(part, personas, 0, false) == [] && |Roles(part, personas, 0, true)| > 0
    ensures s == Roles(part, personas, 0, true)[0]
  {
    hide Those, CutUpTo, IsPopulation;
    CutPositive(part, |personas|);
    HouseholdFacts(part, |personas|, 0);
    var first := HouseholdMembers(part, 0)[0];
    assert first in HouseholdMembers(part, 0) && IsStudent(personas, first);
    ThoseAll(HouseholdMembers(part, 0), personas, true, first);
    if Roles(part, personas, 0, false) != [] {
      SomeAdult(Roles(part, personas, 0, false), personas);
    }
    s := Roles(part, personas, 0, true)[0];
  }

  lemma SomeAdult(adults: seq<nat>, personas: seq<Persona>)
    requires adults != [] && forall k :: 0 <= k < |adults| ==> 1 <= adults[k] <= |personas| && !IsStudent(personas, adults[k])
    ensures AnyAdult(personas)
  {
    assert !IsStudent(personas, adults[0]);
  }

  lemma FirstTurn(words: Words64, part: Partition, personas: seq<Persona>, dep: Dependents)
    requires Fair(words) && Sound(part, |personas|) && |personas| < TWO32 && part.Count() > 0 && |Roles(part, personas, 0, true)| > 0
    ensures TurnOf(words, part, personas, dep, 0, 0, 0) == 0
  {
    hide Fair, Sound, Roles, Global;
    assert Roles(part, personas, 0, true)[..0] == [];
  }

  // A stream on which the first turn draws the student from everyone.
  lemma SelfDrawn(personas: seq<Persona>, dep: Dependents, s: nat) returns (words: Words64)
    requires 1 <= s <= |personas| < TWO32 && !AnyAdult(personas) && dep.dependentP > 0.0
    ensures Fair(words) && |Global(personas)| < TWO32 && s in ParentsDrawn(words, [], Global(personas), dep, 0).0
  {
    hide Fair, AnyAdult, AdultsUpTo, PickFrom, Begins, RandomKernel.Toss, RandomKernel.Chosen;
    AdultsFound(personas);
    var n := |personas|;
    var dependent := ForceHeads([], dep.dependentP);
    var two := n >= 2 && dep.twoParentP > 0.0;
    var tossed := dependent;
    if two {
      tossed := ForceHeads(dependent, dep.twoParentP);
    }
    var chosen := Including(n, if two then 2 else 1, s - 1);
    var all := ForceChoice(tossed, n, if two then 2 else 1, chosen);
    words := Stream(all);
    StreamIsFair(all);
    BeginsPrefix(words, dependent, all);
    BeginsPrefix(words, tossed, all);
    if n >= 2 && !two {
      NoHeads(words, dep.twoParentP, |dependent|);
    }
    ChosenIncludes(words, n, if two then 2 else 1, |tossed|, s - 1);
  }

  lemma NoHeads(words: Words64, p: real, at: nat)
    requires p <= 0.0
    ensures RandomKernel.Toss(words, p, at) == (false, at)
  {
  }

  lemma BeginsPrefix(words: Words64, first: seq<u64>, all: seq<u64>)
    requires first <= all && Begins(words, all)
    ensures Begins(words, first)
  {
    forall k | 0 <= k < |first| ensures words.At(k) == first[k] {
      assert words.At(k) == all[k] == first[k];
    }
  }

  lemma Including(n: nat, count: nat, x: nat) returns (s: set<nat>)
    requires 1 <= count <= 2 && count <= n && x < n
    ensures |s| == count && x in s && Sampling.UpTo(s, n)
  {
    s := if count == 1 then {x} else {x, if x == 0 then 1 else 0};
  }

  lemma ChosenIncludes(words: Words64, n: nat, count: nat, at: nat, x: nat)
    requires Fair(words) && 0 < count <= n < TWO32 && x < n && x in Elements(RandomKernel.Chosen(words, n, count, at).0)
    ensures x + 1 in PickFrom(words, Identity(n), count, at).0
  {
    hide Fair, RandomKernel.Chosen;
    SomePicked(words, n, count, at);
    var picked := RandomKernel.Chosen(words, n, count, at).0;
    var k: nat :| k < |picked| && picked[k] == x;
    assert PickFrom(words, Identity(n), count, at).0[k] == Identity(n)[x];
  }

  /** A student alone in the population, and always dependent, becomes their own
      parent and child on every word stream. */
  lemma LoneStudentsOwnParent(words: Words64, part: Partition, dep: Dependents, at: nat)
    requires Fair(words) && Sound(part, 1) && dep.dependentP >= 1.0
    ensures Families(words, part, [Student], dep, part.Count(), at).0 == Kin([(1, 0)], [[1]])
  {
    hide Fair, Sound, Roles, ParentsDrawn, Seated, Global;
    var personas := [Student];
    OneHousehold(part);
    OneStudent(part);
    NobodyYet(words, part, dep, at);
    OneCandidate(words, dep, at);
    var kin := Kin([(0, 0)], [[]]);
    assert [1][..0] == [];
    SeatedOne(kin, 1, 1);
    assert kin.childrenOf[0] + [1] == [1];
    var seated := Linked(kin, 1, 0, 1);
    assert seated.parentsOf == [(1, 0)] && seated.childrenOf == [[1]];
    assert Parented(words, kin, [], [], [1], dep, at) == (kin, at);
    assert Parented(words, kin, [1], [], [1], dep, at).0 == seated;
    assert Families(words, part, personas, dep, 1, at) == Parented(words, kin, [1], [], [1], dep, at);
  }

  lemma OneStudent(part: Partition)
    requires Sound(part, 1) && part.Count() == 1 && part.offsets == [0, 1] && part.members == [1]
    ensures Roles(part, [Student], 0, true) == [1] && Roles(part, [Student], 0, false) == []
    ensures Global([Student]) == [1]
  {
    hide Sound;
    assert HouseholdMembers(part, 0) == [1] && [1][..0] == [];
  }

  lemma NobodyYet(words: Words64, part: Partition, dep: Dependents, at: nat)
    requires Fair(words) && Sound(part, 1)
    ensures Families(words, part, [Student], dep, 0, at) == (Kin([(0, 0)], [[]]), at)
  {
    hide Fair, Sound;
    var kin := Families(words, part, [Student], dep, 0, at).0;
    assert kin.parentsOf == [(0, 0)] && kin.childrenOf == [[]];
  }

  lemma OneCandidate(words: Words64, dep: Dependents, at: nat)
    requires Fair(words) && dep.dependentP >= 1.0
    ensures ParentsDrawn(words, [], [1], dep, at).0 == [1]
  {
    hide Fair, PickFrom;
    PickedFromPool(words, [1], 1, at);
    assert PickFrom(words, [1], 1, at).0 == [1];
  }

  lemma OneHousehold(part: Partition)
    requires Sound(part, 1)
    ensures part.Count() == 1 && part.offsets == [0, 1] && part.members == [1]
  {
    Known(part.members, 1);
    CutPositive(part, 1);
    assert RisesAt(part.offsets, 0, 1);
    var last := |part.offsets| - 1;
    if last > 1 {
      OffsetsRise(part, 1, 1, last);
    }
  }
}
