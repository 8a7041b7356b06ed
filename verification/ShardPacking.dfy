/** Canonical components of the planned-coupling graph and their next-fit
    packing into shards. */
module ShardPacking {
  import opened Words
  import opened Lists
  import opened Bounded
  import opened Cogen

  datatype Component = Component(anchor: nat, members: seq<nat>)

  datatype Shard = Shard(index: nat, peopleCount: nat, components: seq<Component>)

  datatype Result = Built(shards: seq<Shard>) | TargetNotPositive | TooLarge(anchor: nat, size: nat)

  ghost predicate Ascending(s: seq<nat>) {
    forall i, j :: 0 <= i < j < |s| ==> s[i] < s[j]
  }

  ghost predicate AnchoredAtLeast(c: Component) {
    c.members != [] && c.anchor == c.members[0] && Ascending(c.members)
  }

  // Person i + 1 is a member of component owner[i] and of no other.
  ghost predicate Owned(cs: seq<Component>, owner: seq<nat>) {
    && (forall i :: 0 <= i < |owner| ==> owner[i] < |cs| && i + 1 in cs[owner[i]].members)
    && (forall c, p :: 0 <= c < |cs| && p in cs[c].members ==> 1 <= p <= |owner| && owner[p - 1] == c)
  }

  ghost predicate Ordered(cs: seq<Component>) {
    && (forall c :: 0 <= c < |cs| ==> AnchoredAtLeast(cs[c]))
    && (forall c, d :: 0 <= c < d < |cs| ==> cs[c].anchor < cs[d].anchor)
  }

  /** The components are the classes of the links over 1..n: each person in
      exactly one, listed upwards from its anchor, ordered by anchor. */
  ghost predicate AreComponents(cs: seq<Component>, owner: seq<nat>, links: Links, n: nat) {
    && |owner| == n && Owned(cs, owner) && Ordered(cs) && People(cs) == n
    && forall i, j :: 0 <= i < n && 0 <= j < n ==> (owner[i] == owner[j] <==> Connected(links, i + 1, j + 1))
  }

  function People(cs: seq<Component>): nat {
    if cs == [] then 0 else People(cs[..|cs| - 1]) + |cs[|cs| - 1].members|
  }

  lemma {:induction false} PeopleConcat(cs: seq<Component>, ds: seq<Component>)
    ensures People(cs + ds) == People(cs) + People(ds)
  {
    if ds == [] {
      assert cs + ds == cs;
    } else {
      PeopleConcat(cs, ds[..|ds| - 1]);
      assert (cs + ds)[..|cs + ds| - 1] == cs + ds[..|ds| - 1];
    }
  }

  lemma {:induction false} PeopleGrow(cs: seq<Component>, slot: nat, p: nat)
    requires slot < |cs|
    ensures People(Grown(cs, slot, p)) == People(cs) + 1
  {
    var grown := Grown(cs, slot, p);
    var m := |cs| - 1;
    if slot == m {
      assert grown[..m] == cs[..m];
    } else {
      PeopleGrow(cs[..m], slot, p);
      assert grown[..m] == Grown(cs[..m], slot, p);
    }
  }

  // ---- Collecting components ----

  // The slot table after filing 1..|owner|: classRoot names each component's root.
  ghost predicate Filed(slotOf: seq<Option<nat>>, root: seq<nat>, owner: seq<nat>, classRoot: seq<nat>) {
    && |owner| <= |root| == |slotOf|
    && (forall i :: 0 <= i < |root| ==> root[i] < |root|)
    && (forall i :: 0 <= i < |owner| ==> owner[i] < |classRoot| && classRoot[owner[i]] == root[i])
    && (forall i :: 0 <= i < |owner| ==> slotOf[root[i]] == Some(owner[i]))
    && (forall r :: 0 <= r < |root| && slotOf[r].Some? ==> slotOf[r].value < |classRoot| && classRoot[slotOf[r].value] == r)
  }

  lemma OpenComponent(cs: seq<Component>, owner: seq<nat>)
    requires Owned(cs, owner) && Ordered(cs)
    ensures var cs' := cs + [Component(|owner| + 1, [|owner| + 1])];
            Owned(cs', owner + [|cs|]) && Ordered(cs') && People(cs') == People(cs) + 1
  {
    var cs' := cs + [Component(|owner| + 1, [|owner| + 1])];
    assert cs'[..|cs|] == cs;
    forall c | 0 <= c < |cs| ensures cs[c].anchor <= |owner| {
      assert cs[c].members[0] in cs[c].members;
    }
  }

  function Grown(cs: seq<Component>, slot: nat, p: nat): (r: seq<Component>)
    requires slot < |cs|
    ensures |r| == |cs|
  {
    cs[slot := cs[slot].(members := cs[slot].members + [p])]
  }

  lemma {:induction false} GrowComponent(cs: seq<Component>, owner: seq<nat>, slot: nat)
    requires Owned(cs, owner) && Ordered(cs) && slot < |cs|
    ensures Owned(Grown(cs, slot, |owner| + 1), owner + [slot]) && Ordered(Grown(cs, slot, |owner| + 1))
  {
    var cs' := Grown(cs, slot, |owner| + 1);
    forall i | 0 <= i < |cs[slot].members| ensures cs[slot].members[i] <= |owner| {
      assert cs[slot].members[i] in cs[slot].members;
    }
    assert forall c :: 0 <= c < |cs| ==> cs'[c].anchor == cs[c].anchor;
  }

  method CollectComponents(graph: CogenGraph) returns (cs: seq<Component>, ghost owner: seq<nat>)
    requires graph.Valid()
    modifies graph`parent
    ensures graph.Valid() && |graph.parent| == |old(graph.parent)|
    ensures AreComponents(cs, owner, graph.links, |graph.parent|)
  {
    hide *;
    var personCount := |graph.parent|;
    graph.SameLengths();
    var slotOf: seq<Option<nat>> := seq(personCount, _ => None);
    cs, owner := [], [];
    ghost var classRoot: seq<nat> := [];
    StartFiling(graph, slotOf);
    for index := 0 to personCount
      invariant graph.Valid() && |graph.parent| == personCount == |graph.root|
      invariant |owner| == index == People(cs) && |classRoot| == |cs|
      invariant Owned(cs, owner) && Ordered(cs) && Filed(slotOf, graph.root, owner, classRoot)
    {
      var root := graph.RootOf(index);
      FiledSlots(slotOf, graph.root, owner, classRoot, root);
      if slotOf[root] == None {
        OpenComponent(cs, owner);
        FileNew(slotOf, graph.root, owner, classRoot);
        slotOf := slotOf[root := Some(|cs|)];
        owner, classRoot := owner + [|cs|], classRoot + [root];
        cs := cs + [Component(index + 1, [index + 1])];
      } else {
        var slot := slotOf[root].value;
        GrowComponent(cs, owner, slot);
        PeopleGrow(cs, slot, index + 1);
        FileKnown(slotOf, graph.root, owner, classRoot);
        owner := owner + [slot];
        cs := Grown(cs, slot, index + 1);
      }
    }
    FiledAreComponents(graph, slotOf, cs, owner, classRoot);
  }

  lemma FiledAreComponents(graph: CogenGraph, slotOf: seq<Option<nat>>, cs: seq<Component>, owner: seq<nat>, classRoot: seq<nat>)
    requires graph.Valid() && |owner| == |graph.parent| == People(cs)
    requires Owned(cs, owner) && Ordered(cs) && Filed(slotOf, graph.root, owner, classRoot)
    ensures AreComponents(cs, owner, graph.links, |graph.parent|)
  {
    hide Forest, Node, BigTrees, LeastKept, Connected, Represents, Owned, Ordered, Filed, People;
    graph.SameLengths();
    FiledAreClasses(slotOf, graph.root, owner, classRoot, graph.links);
  }

  lemma StartFiling(graph: CogenGraph, slotOf: seq<Option<nat>>)
    requires graph.Valid() && |slotOf| == |graph.parent| && forall r :: 0 <= r < |slotOf| ==> slotOf[r] == None
    ensures Filed(slotOf, graph.root, [], []) && Owned([], []) && Ordered([]) && People([]) == 0
  {
    forall i | 0 <= i < |graph.root| ensures graph.root[i] < |graph.root| {
      RootIsOwn(graph.parent, graph.rank, graph.root, i);
    }
  }

  lemma FiledSlots(slotOf: seq<Option<nat>>, root: seq<nat>, owner: seq<nat>, classRoot: seq<nat>, r: nat)
    requires Filed(slotOf, root, owner, classRoot) && r < |root|
    ensures |slotOf| == |root| && (slotOf[r].Some? ==> slotOf[r].value < |classRoot|)
  {
  }

  lemma FileNew(slotOf: seq<Option<nat>>, root: seq<nat>, owner: seq<nat>, classRoot: seq<nat>)
    requires Filed(slotOf, root, owner, classRoot) && |owner| < |root| == |slotOf|
    requires root[|owner|] < |root| && slotOf[root[|owner|]] == None
    ensures Filed(slotOf[root[|owner|] := Some(|classRoot|)], root, owner + [|classRoot|], classRoot + [root[|owner|]])
  {
  }

  lemma FileKnown(slotOf: seq<Option<nat>>, root: seq<nat>, owner: seq<nat>, classRoot: seq<nat>)
    requires Filed(slotOf, root, owner, classRoot) && |owner| < |root| == |slotOf|
    requires root[|owner|] < |root| && slotOf[root[|owner|]].Some?
    ensures Filed(slotOf, root, owner + [slotOf[root[|owner|]].value], classRoot)
  {
  }

  lemma FiledAreClasses(slotOf: seq<Option<nat>>, root: seq<nat>, owner: seq<nat>, classRoot: seq<nat>, links: Links)
    requires Filed(slotOf, root, owner, classRoot) && Represents(root, links) && |owner| == |root|
    ensures forall i, j :: 0 <= i < |owner| && 0 <= j < |owner| ==>
              (owner[i] == owner[j] <==> Connected(links, i + 1, j + 1))
  {
    hide Connected;
  }

  // ---- Packing ----

  function Sizes(shards: seq<Shard>): nat {
    if shards == [] then 0 else Sizes(shards[..|shards| - 1]) + shards[|shards| - 1].peopleCount
  }

  function Flatten(shards: seq<Shard>): seq<Component> {
    if shards == [] then [] else Flatten(shards[..|shards| - 1]) + shards[|shards| - 1].components
  }

  predicate ShardSound(s: Shard, index: nat, target: nat) {
    && s.index == index && s.components != [] && s.peopleCount == People(s.components)
    && (s.peopleCount <= target || |s.components| == 1)
  }

  ghost predicate WellPacked(shards: seq<Shard>, target: nat) {
    && (forall i :: 0 <= i < |shards| ==> ShardSound(shards[i], i, target))
    && forall i :: 0 < i < |shards| ==>
         shards[i - 1].peopleCount + |shards[i].components[0].members| > target
  }

  lemma AppendShard(shards: seq<Shard>, s: Shard)
    ensures Flatten(shards + [s]) == Flatten(shards) + s.components
    ensures Sizes(shards + [s]) == Sizes(shards) + s.peopleCount
  {
    assert (shards + [s])[..|shards|] == shards;
  }

  lemma PeopleSnoc(cs: seq<Component>, c: Component)
    ensures People(cs + [c]) == People(cs) + |c.members|
  {
    assert (cs + [c])[..|cs|] == cs;
  }

  // The shard being filled: within the target or a single component, and begun
  // only because the closed shard before it had no room.
  ghost predicate Filling(shards: seq<Shard>, current: Shard, target: nat) {
    && current.peopleCount == People(current.components)
    && (current.peopleCount > 0 <==> current.components != [])
    && (current.peopleCount <= target || |current.components| == 1)
    && (shards != [] ==>
         && current.components != []
         && shards[|shards| - 1].peopleCount + |current.components[0].members| > target)
  }

  function Numbered(s: Shard, index: nat): Shard {
    Shard(index, s.peopleCount, s.components)
  }

  lemma {:induction false} Close(shards: seq<Shard>, current: Shard, target: nat)
    requires WellPacked(shards, target) && Filling(shards, current, target) && current.components != []
    ensures WellPacked(shards + [Numbered(current, |shards|)], target)
    ensures Flatten(shards + [Numbered(current, |shards|)]) == Flatten(shards) + current.components
  {
    hide Flatten, Sizes, People;
    var s, all := Numbered(current, |shards|), shards + [Numbered(current, |shards|)];
    AppendShard(shards, s);
    forall i | 0 <= i < |all| ensures ShardSound(all[i], i, target) {
      assert i < |shards| ==> all[i] == shards[i];
    }
  }

  lemma Place(shards: seq<Shard>, current: Shard, c: Component, target: nat)
    requires Filling(shards, current, target) && c.members != []
    requires current.peopleCount == 0 || current.peopleCount + |c.members| <= target
    ensures Filling(shards, Shard(current.index, current.peopleCount + |c.members|, current.components + [c]), target)
  {
    PeopleSnoc(current.components, c);
    if current.components != [] {
      assert (current.components + [c])[0] == current.components[0];
    }
  }

  lemma PlaceFresh(shards: seq<Shard>, c: Component, target: nat)
    requires shards != [] && c.members != [] && shards[|shards| - 1].peopleCount + |c.members| > target
    ensures Filling(shards, Shard(0, |c.members|, [c]), target)
  {
    PeopleSnoc([], c);
  }

  /** Next-fit in component order: nothing is split or reordered, a shard over
      the target is a single component, and a shard is closed only when the
      next component does not fit. */
  method Pack(cs: seq<Component>, target: nat) returns (shards: seq<Shard>)
    requires target > 0 && forall c :: 0 <= c < |cs| ==> cs[c].members != []
    ensures Flatten(shards) == cs && WellPacked(shards, target)
  {
    hide WellPacked, Filling, People, Flatten, Sizes;
    shards := [];
    var current := Shard(0, 0, []);
    NothingPacked(target);
    for i := 0 to |cs|
      invariant Flatten(shards) + current.components == cs[..i]
      invariant WellPacked(shards, target) && Filling(shards, current, target)
    {
      var size := |cs[i].members|;
      NotEmpty(shards, current, target);
      if current.peopleCount > 0 && current.peopleCount + size > target {
        Close(shards, current, target);
        shards := shards + [Numbered(current, |shards|)];
        current := Shard(0, size, [cs[i]]);
        PlaceFresh(shards, cs[i], target);
      } else {
        Place(shards, current, cs[i], target);
        current := Shard(current.index, current.peopleCount + size, current.components + [cs[i]]);
      }
      assert cs[..i + 1] == cs[..i] + [cs[i]];
    }
    assert cs[..|cs|] == cs;
    if current.components != [] {
      Close(shards, current, target);
      shards := shards + [Numbered(current, |shards|)];
    }
  }

  lemma NothingPacked(target: nat)
    ensures Flatten([]) == [] && WellPacked([], target) && Filling([], Shard(0, 0, []), target)
  {
  }

  lemma NotEmpty(shards: seq<Shard>, current: Shard, target: nat)
    requires Filling(shards, current, target)
    ensures current.peopleCount > 0 <==> current.components != []
  {
  }

  lemma {:induction false} SizesArePeople(shards: seq<Shard>, target: nat)
    requires WellPacked(shards, target)
    ensures Sizes(shards) == People(Flatten(shards))
  {
    if shards != [] {
      SizesArePeople(shards[..|shards| - 1], target);
      PeopleConcat(Flatten(shards[..|shards| - 1]), shards[|shards| - 1].components);
    }
  }

  // Consecutive shards together exceed the target.
  lemma PairsExceedTarget(shards: seq<Shard>, target: nat, i: nat)
    requires WellPacked(shards, target) && 0 < i < |shards|
    ensures shards[i - 1].peopleCount + shards[i].peopleCount > target
  {
    var cs := shards[i].components;
    PeopleConcat([cs[0]], cs[1..]);
    assert [cs[0]] + cs[1..] == cs;
    PeopleSnoc([], cs[0]);
    assert [] + [cs[0]] == [cs[0]];
  }

  lemma {:induction false} PairsAddUp(shards: seq<Shard>, target: nat)
    requires WellPacked(shards, target) && shards != []
    ensures (|shards| - 1) * target + |shards| - 1 + shards[|shards| - 1].peopleCount <= 2 * Sizes(shards)
  {
    var m := |shards| - 1;
    if m > 0 {
      PairsExceedTarget(shards, target, m);
      PairsAddUp(shards[..m], target);
      OneMore(m, target);
    }
  }

  lemma OneMore(m: nat, t: nat)
    requires m > 0
    ensures m * t == (m - 1) * t + t
  {
  }

  /** The number of shards is below twice the people over the target, plus 2. */
  lemma FewShards(shards: seq<Shard>, target: nat)
    requires WellPacked(shards, target) && target > 0
    ensures |shards| < 2 * People(Flatten(shards)) / target + 2
  {
    hide WellPacked, Flatten, People, Sizes;
    SizesArePeople(shards, target);
    if shards != [] {
      PairsAddUp(shards, target);
      BelowQuotient(|shards| - 1, 2 * Sizes(shards), target);
    }
  }

  lemma BelowQuotient(m: nat, n: nat, d: nat)
    requires d > 0 && m * d <= n
    ensures m <= n / d
  {
    CeilingDivision(n + 1, d, m);
    CeilingDivision(n + 1, d, n / d + 1);
  }

  // ---- The whole build ----

  method Build(graph: CogenGraph, target: nat, cap: nat) returns (r: Result, ghost owner: seq<nat>)
    requires graph.Valid()
    modifies graph`parent
    ensures graph.Valid()
    ensures r.TargetNotPositive? <==> target == 0
    ensures r.Built? ==>
      && AreComponents(Flatten(r.shards), owner, graph.links, |old(graph.parent)|)
      && WellPacked(r.shards, target)
      && (cap > 0 ==> forall c :: 0 <= c < |Flatten(r.shards)| ==> |Flatten(r.shards)[c].members| <= cap)
    ensures r.TooLarge? ==>
      && 0 < cap < r.size && 1 <= r.anchor <= |old(graph.parent)|
      && r.size == |graph.Component(r.anchor)|
      && forall p: nat :: 1 <= p <= |old(graph.parent)| ==>
           |graph.Component(p)| <= r.size && (|graph.Component(p)| == r.size ==> r.anchor <= p)
  {
    owner := [];
    if target == 0 {
      return TargetNotPositive, owner;
    }
    var cs;
    cs, owner := CollectComponents(graph);
    var maxSize, maxAnchor := 0, 0;
    ghost var maxAt := 0;
    for i := 0 to |cs|
      invariant forall c :: 0 <= c < i ==> |cs[c].members| <= maxSize
      invariant maxSize > 0 ==> maxAt < i && maxSize == |cs[maxAt].members| && maxAnchor == cs[maxAt].anchor
      invariant forall c :: 0 <= c < maxAt && c < i ==> |cs[c].members| < maxSize
    {
      if |cs[i].members| > maxSize {
        maxSize, maxAnchor := |cs[i].members|, cs[i].anchor;
        maxAt := i;
      }
    }
    if cap > 0 && maxSize > cap {
      LargestComponent(graph, cs, owner, maxAt);
      return TooLarge(maxAnchor, maxSize), owner;
    }
    var shards := Pack(cs, target);
    r := Built(shards);
  }

  lemma ComponentSize(graph: CogenGraph, cs: seq<Component>, owner: seq<nat>, p: nat)
    requires graph.Valid() && AreComponents(cs, owner, graph.links, |graph.parent|) && 1 <= p <= |graph.parent|
    ensures owner[p - 1] < |cs| && |cs[owner[p - 1]].members| == |graph.Component(p)| && cs[owner[p - 1]].anchor <= p
  {
    hide Connected, Represents, BigTrees, LeastKept, Forest;
    var c := owner[p - 1];
    var ms := cs[c].members;
    assert p - 1 + 1 in ms;
    forall q: nat ensures q in graph.Component(p) <==> q in ms {
      if 1 <= q <= |graph.parent| {
        assert owner[p - 1] == owner[q - 1] <==> Connected(graph.links, (p - 1) + 1, (q - 1) + 1);
        assert q - 1 + 1 in cs[owner[q - 1]].members;
      }
    }
    DistinctSize(ms);
    assert graph.Component(p) == Elements(ms);
    var i: nat :| i < |ms| && ms[i] == p;
    assert AnchoredAtLeast(cs[c]);
  }

  lemma AnchorsOwn(cs: seq<Component>, owner: seq<nat>, links: Links, n: nat, c: nat)
    requires AreComponents(cs, owner, links, n) && c < |cs|
    ensures 1 <= cs[c].anchor <= n && owner[cs[c].anchor - 1] == c
  {
    assert AnchoredAtLeast(cs[c]) && cs[c].anchor in cs[c].members;
  }

  // The first of the largest components holds the least of their people.
  lemma LargestComponent(graph: CogenGraph, cs: seq<Component>, owner: seq<nat>, m: nat)
    requires graph.Valid() && AreComponents(cs, owner, graph.links, |graph.parent|) && m < |cs|
    requires forall c :: 0 <= c < |cs| ==> |cs[c].members| <= |cs[m].members|
    requires forall c :: 0 <= c < m ==> |cs[c].members| < |cs[m].members|
    ensures 1 <= cs[m].anchor <= |graph.parent| && |cs[m].members| == |graph.Component(cs[m].anchor)|
    ensures forall p: nat :: 1 <= p <= |graph.parent| ==>
              |graph.Component(p)| <= |cs[m].members| && (|graph.Component(p)| == |cs[m].members| ==> cs[m].anchor <= p)
  {
    hide AreComponents;
    AnchorsOwn(cs, owner, graph.links, |graph.parent|, m);
    ComponentSize(graph, cs, owner, cs[m].anchor);
    forall p: nat | 1 <= p <= |graph.parent|
      ensures |graph.Component(p)| <= |cs[m].members| && (|graph.Component(p)| == |cs[m].members| ==> cs[m].anchor <= p)
    {
      ComponentSize(graph, cs, owner, p);
      AnchorsRise(cs, owner, graph.links, |graph.parent|);
    }
  }

  lemma AnchorsRise(cs: seq<Component>, owner: seq<nat>, links: Links, n: nat)
    requires AreComponents(cs, owner, links, n)
    ensures |owner| == n && forall c, d :: 0 <= c < d < |cs| ==> cs[c].anchor < cs[d].anchor
  {
  }
}
