/** The planned-coupling graph: a disjoint-set forest over PersonIds with union
    by rank, path halving and a least member kept at each root. */
module Cogen {
  import opened Words
  import opened Arithmetic
  import opened Counting

  // ---- What the links connect ----

  type Links = set<(nat, nat)>

  ghost predicate Step(links: Links, a: nat, b: nat) {
    (a, b) in links || (b, a) in links
  }

  ghost predicate IsPath(links: Links, path: seq<nat>, a: nat, b: nat) {
    && path != [] && path[0] == a && path[|path| - 1] == b
    && forall i :: 0 <= i < |path| - 1 ==> Step(links, path[i], path[i + 1])
  }

  ghost predicate Connected(links: Links, a: nat, b: nat) {
    exists path :: IsPath(links, path, a, b)
  }

  lemma ConnectedSelf(links: Links, a: nat)
    ensures Connected(links, a, a)
  {
    assert IsPath(links, [a], a, a);
  }

  lemma ConnectedStep(links: Links, a: nat, b: nat)
    requires Step(links, a, b)
    ensures Connected(links, a, b)
  {
    assert IsPath(links, [a, b], a, b);
  }

  lemma ConnectedTransitive(links: Links, a: nat, b: nat, c: nat)
    requires Connected(links, a, b) && Connected(links, b, c)
    ensures Connected(links, a, c)
  {
    var p :| IsPath(links, p, a, b);
    var q :| IsPath(links, q, b, c);
    var joined := p + q[1..];
    forall i | 0 <= i < |joined| - 1 ensures Step(links, joined[i], joined[i + 1]) {
      if i >= |p| - 1 {
        assert joined[i] == q[i - (|p| - 1)] && joined[i + 1] == q[i - (|p| - 1) + 1];
      }
    }
    assert IsPath(links, joined, a, c);
  }

  lemma ConnectedSymmetric(links: Links, a: nat, b: nat)
    requires Connected(links, a, b)
    ensures Connected(links, b, a)
  {
    var p :| IsPath(links, p, a, b);
    var q := seq(|p|, i requires 0 <= i < |p| => p[|p| - 1 - i]);
    forall i | 0 <= i < |q| - 1 ensures Step(links, q[i], q[i + 1]) {
      assert Step(links, p[|p| - 2 - i], p[|p| - 2 - i + 1]);
    }
    assert IsPath(links, q, b, a);
  }

  lemma ConnectedMonotone(links: Links, more: Links, a: nat, b: nat)
    requires Connected(links, a, b) && links <= more
    ensures Connected(more, a, b)
  {
    var p :| IsPath(links, p, a, b);
    assert IsPath(more, p, a, b);
  }

  // A labelling that agrees across every link agrees on everything connected.
  lemma ConnectedRespects(links: Links, tag: nat -> nat, a: nat, b: nat)
    requires Connected(links, a, b)
    requires forall x, y :: (x, y) in links ==> tag(x) == tag(y)
    ensures tag(a) == tag(b)
  {
    var p :| IsPath(links, p, a, b);
    PathRespects(links, tag, p);
  }

  lemma {:induction false} PathRespects(links: Links, tag: nat -> nat, p: seq<nat>)
    requires p != [] && IsPath(links, p, p[0], p[|p| - 1])
    requires forall x, y :: (x, y) in links ==> tag(x) == tag(y)
    ensures tag(p[0]) == tag(p[|p| - 1])
  {
    if |p| > 1 {
      assert Step(links, p[0], p[1]);
      PathRespects(links, tag, p[1..]);
    }
  }

  /** Chaining a group to its first member connects exactly what linking every
      pair of its members connects. */
  lemma StarEqualsClique(links: Links, members: seq<nat>, a: nat, b: nat)
    requires members != []
    ensures Connected(links + Star(members), a, b) <==> Connected(links + Clique(members), a, b)
  {
    var star, clique := links + Star(members), links + Clique(members);
    if Connected(star, a, b) {
      assert Star(members) <= Clique(members);
      ConnectedMonotone(star, clique, a, b);
    }
    if Connected(clique, a, b) {
      forall x, y | (x, y) in clique ensures Connected(star, x, y) {
        if (x, y) in links {
          ConnectedStep(star, x, y);
        } else {
          StarReaches(links, members, x);
          StarReaches(links, members, y);
          ConnectedSymmetric(star, members[0], x);
          ConnectedTransitive(star, x, members[0], y);
        }
      }
      ConnectedWithin(clique, star, a, b);
    }
  }

  ghost function Star(members: seq<nat>): Links
    requires members != []
  {
    set m | m in members[1..] :: (members[0], m)
  }

  ghost function Chain(members: seq<nat>): Links {
    if members == [] then {} else Star(members)
  }

  ghost function Clique(members: seq<nat>): Links {
    set x, y | x in members && y in members :: (x, y)
  }

  lemma StarReaches(links: Links, members: seq<nat>, x: nat)
    requires members != [] && x in members
    ensures Connected(links + Star(members), members[0], x)
  {
    if x == members[0] {
      ConnectedSelf(links + Star(members), x);
    } else {
      assert x in members[1..];
      ConnectedStep(links + Star(members), members[0], x);
    }
  }

  lemma ConnectedWithin(links: Links, others: Links, a: nat, b: nat)
    requires Connected(links, a, b)
    requires forall x, y :: (x, y) in links ==> Connected(others, x, y)
    ensures Connected(others, a, b)
  {
    var p :| IsPath(links, p, a, b);
    PathWithin(links, others, p);
  }

  lemma {:induction false} PathWithin(links: Links, others: Links, p: seq<nat>)
    requires p != [] && IsPath(links, p, p[0], p[|p| - 1])
    requires forall x, y :: (x, y) in links ==> Connected(others, x, y)
    ensures Connected(others, p[0], p[|p| - 1])
  {
    if |p| == 1 {
      ConnectedSelf(others, p[0]);
    } else {
      PathWithin(links, others, p[1..]);
      assert Step(links, p[0], p[1]);
      if (p[0], p[1]) !in links {
        ConnectedSymmetric(others, p[1], p[0]);
      }
      ConnectedTransitive(others, p[0], p[1], p[|p| - 1]);
    }
  }

  // ---- The forest ----

  // The parent lies in the same tree, one rank or more up; a root is its own.
  ghost predicate Node(parent: seq<nat>, rank: seq<nat>, root: seq<nat>, i: nat)
    requires |parent| == |rank| == |root| && i < |parent|
  {
    && parent[i] < |parent| && root[i] < |parent|
    && root[parent[i]] == root[i] && parent[root[i]] == root[i]
    && (parent[i] == i ==> root[i] == i)
    && (parent[i] != i ==> rank[i] < rank[parent[i]])
    && rank[i] <= rank[root[i]]
  }

  ghost predicate Forest(parent: seq<nat>, rank: seq<nat>, root: seq<nat>) {
    |parent| == |rank| == |root| && forall i :: 0 <= i < |parent| ==> Node(parent, rank, root, i)
  }

  ghost function Tree(root: seq<nat>, r: nat): set<nat> {
    set i: nat | i < |root| && root[i] == r
  }

  ghost predicate BigTrees(rank: seq<nat>, root: seq<nat>) {
    |rank| == |root| && forall r :: 0 <= r < |root| && root[r] == r ==> Power2(rank[r]) <= |Tree(root, r)|
  }

  // The id kept at each root is the least of its tree; ids are indices + 1.
  ghost predicate LeastKept(least: seq<nat>, root: seq<nat>) {
    && |least| == |root|
    && (forall i :: 0 <= i < |root| ==> root[i] < |root| && 1 <= least[root[i]] <= i + 1)
    && (forall i :: 0 <= i < |root| ==> root[least[root[i]] - 1] == root[i])
  }

  // Two people share a root exactly when the links connect them.
  ghost predicate Represents(root: seq<nat>, links: Links) {
    && (forall a, b :: (a, b) in links ==> 1 <= a <= |root| && 1 <= b <= |root|)
    && forall i, j :: 0 <= i < |root| && 0 <= j < |root| ==>
         (root[i] == root[j] <==> Connected(links, i + 1, j + 1))
  }

  function Merge(root: seq<nat>, kept: nat, gone: nat): (r: seq<nat>)
    ensures |r| == |root| && forall i :: 0 <= i < |r| ==> r[i] == if root[i] == gone then kept else root[i]
  {
    seq(|root|, i requires 0 <= i < |root| => if root[i] == gone then kept else root[i])
  }

  lemma MergeBigTrees(rank: seq<nat>, root: seq<nat>, kept: nat, gone: nat)
    requires BigTrees(rank, root) && kept < |root| && gone < |root| && kept != gone
    requires root[kept] == kept && root[gone] == gone && rank[gone] <= rank[kept]
    ensures BigTrees(RaisedRank(rank, kept, gone), Merge(root, kept, gone))
  {
    var merged := Merge(root, kept, gone);
    forall r | 0 <= r < |root| && merged[r] == r && r != kept ensures Tree(merged, r) == Tree(root, r) {
      assert root[r] == r;
    }
    assert Tree(merged, kept) == Tree(root, kept) + Tree(root, gone);
    assert Tree(root, kept) !! Tree(root, gone);
  }

  // kept and gone are the roots above a and b, in either order.
  ghost predicate RootsOf(root: seq<nat>, a: nat, b: nat, kept: nat, gone: nat) {
    && 1 <= a <= |root| && 1 <= b <= |root| && kept != gone
    && ((kept == root[a - 1] && gone == root[b - 1]) || (kept == root[b - 1] && gone == root[a - 1]))
  }

  lemma MergeRepresents(root: seq<nat>, links: Links, a: nat, b: nat, kept: nat, gone: nat)
    requires Represents(root, links) && RootsOf(root, a, b, kept, gone)
    ensures Represents(Merge(root, kept, gone), links + {(a, b)})
  {
    hide Connected;
    var merged, more := Merge(root, kept, gone), links + {(a, b)};
    forall i, j | 0 <= i < |root| && 0 <= j < |root|
      ensures merged[i] == merged[j] <==> Connected(more, i + 1, j + 1)
    {
      if merged[i] == merged[j] {
        MergedAreConnected(root, links, a, b, i, j);
      }
      if Connected(more, i + 1, j + 1) {
        ConnectedAreMerged(root, links, a, b, kept, gone, i, j);
      }
    }
  }

  lemma ConnectedAreMerged(root: seq<nat>, links: Links, a: nat, b: nat, kept: nat, gone: nat, i: nat, j: nat)
    requires Represents(root, links) && RootsOf(root, a, b, kept, gone)
    requires i < |root| && j < |root| && Connected(links + {(a, b)}, i + 1, j + 1)
    ensures Merge(root, kept, gone)[i] == Merge(root, kept, gone)[j]
  {
    hide Connected;
    var merged := Merge(root, kept, gone);
    var tag := (p: nat) => if 1 <= p <= |merged| then merged[p - 1] else 0;
    forall x, y | (x, y) in links + {(a, b)} ensures tag(x) == tag(y) {
      if (x, y) in links {
        ConnectedStep(links, x, y);
        assert root[x - 1] == root[y - 1];
      }
    }
    ConnectedRespects(links + {(a, b)}, tag, i + 1, j + 1);
  }

  lemma MergedAreConnected(root: seq<nat>, links: Links, a: nat, b: nat, i: nat, j: nat)
    requires Represents(root, links) && 1 <= a <= |root| && 1 <= b <= |root| && i < |root| && j < |root|
    requires root[i] == root[j] || RootsOf(root, a, b, root[i], root[j])
    ensures Connected(links + {(a, b)}, i + 1, j + 1)
  {
    hide Connected;
    var more := links + {(a, b)};
    if root[i] == root[j] {
      ConnectedMonotone(links, more, i + 1, j + 1);
    } else {
      var (x, y) := if root[i] == root[a - 1] then (a, b) else (b, a);
      assert root[x - 1] == root[i] && root[y - 1] == root[j];
      ConnectedMonotone(links, more, i + 1, x);
      ConnectedStep(more, x, y);
      ConnectedMonotone(links, more, y, j + 1);
      ConnectedTransitive(more, i + 1, x, y);
      ConnectedTransitive(more, i + 1, y, j + 1);
    }
  }

  lemma HalvingKeepsForest(parent: seq<nat>, rank: seq<nat>, root: seq<nat>, i: nat)
    requires Forest(parent, rank, root) && i < |parent| && parent[i] != i
    ensures parent[i] < |parent| && parent[parent[i]] < |parent| && root[i] < |parent|
    ensures Forest(parent[i := parent[parent[i]]], rank, root)
    ensures rank[i] < rank[parent[parent[i]]] <= rank[root[i]] && root[parent[parent[i]]] == root[i]
  {
    assert Node(parent, rank, root, i);
    var p := parent[i];
    assert Node(parent, rank, root, p);
    assert Node(parent, rank, root, parent[p]);
    assert Node(parent, rank, root, root[i]);
    var parent' := parent[i := parent[p]];
    forall j | 0 <= j < |parent| ensures Node(parent', rank, root, j) {
      assert Node(parent, rank, root, j);
    }
  }

  lemma RootIsOwn(parent: seq<nat>, rank: seq<nat>, root: seq<nat>, i: nat)
    requires Forest(parent, rank, root) && i < |parent|
    ensures parent[i] < |parent| && root[i] < |parent|
    ensures rank[i] <= rank[root[i]] && (parent[i] == i ==> root[i] == i)
  {
    assert Node(parent, rank, root, i);
  }

  lemma MergeKeepsForest(parent: seq<nat>, rank: seq<nat>, root: seq<nat>, kept: nat, gone: nat)
    requires Forest(parent, rank, root) && kept < |parent| && gone < |parent| && kept != gone
    requires root[kept] == kept && root[gone] == gone && rank[gone] <= rank[kept]
    ensures Forest(parent[gone := kept], RaisedRank(rank, kept, gone), Merge(root, kept, gone))
  {
    assert Node(parent, rank, root, kept) && Node(parent, rank, root, gone);
    var parent', rank', root' := parent[gone := kept], RaisedRank(rank, kept, gone), Merge(root, kept, gone);
    forall i | 0 <= i < |parent| ensures Node(parent', rank', root', i) {
      assert Node(parent, rank, root, i);
      if i != gone {
        assert Node(parent, rank, root, parent[i]) && Node(parent, rank, root, root[i]);
      }
    }
  }

  function RaisedRank(rank: seq<nat>, kept: nat, gone: nat): seq<nat>
    requires kept < |rank| && gone < |rank|
  {
    if rank[kept] == rank[gone] then rank[kept := rank[kept] + 1] else rank
  }

  lemma MergeKeepsLeast(least: seq<nat>, root: seq<nat>, kept: nat, gone: nat)
    requires LeastKept(least, root) && kept < |root| && gone < |root| && kept != gone
    requires root[kept] == kept && root[gone] == gone
    ensures LeastKept(least[kept := Min(least[kept], least[gone])], Merge(root, kept, gone))
  {
    assert root[least[kept] - 1] == kept && root[least[gone] - 1] == gone;
  }

  lemma {:induction false} TreeFits(root: seq<nat>, r: nat)
    ensures |Tree(root, r)| <= |root|
  {
    var rest := if root == [] then [] else root[..|root| - 1];
    if root == [] {
      assert Tree(root, r) == {};
    } else {
      TreeFits(rest, r);
      assert Tree(root, r) == Tree(rest, r) + if root[|rest|] == r then {|rest|} else {};
    }
  }

  function NextId(index: nat): nat {
    index + 1
  }

  class CogenGraph {
    var parent: seq<nat>
    var rank: seq<nat>
    var least: seq<nat>
    ghost var root: seq<nat>
    ghost var links: Links

    ghost predicate Valid()
      reads this
    {
      && |parent| < TWO32
      && Forest(parent, rank, root)
      && BigTrees(rank, root)
      && LeastKept(least, root)
      && Represents(root, links)
    }

    constructor (personCount: u32)
      ensures Valid() && |parent| == personCount && links == {}
    {
      parent := seq(personCount, i => i);
      rank := seq(personCount, _ => 0);
      least := seq(personCount, i => i + 1);
      root := seq(personCount, i => i);
      links := {};
      new;
      forall i, j | 0 <= i < |root| && 0 <= j < |root|
        ensures root[i] == root[j] <==> Connected(links, i + 1, j + 1)
      {
        ConnectedSelf(links, i + 1);
        if Connected(links, i + 1, j + 1) {
          ConnectedRespects(links, p => p, i + 1, j + 1);
        }
      }
      forall r | 0 <= r < |root| ensures Tree(root, r) == {r} {
      }
    }

    lemma SameLengths()
      requires Valid()
      ensures |parent| == |rank| == |least| == |root|
    {
    }

    // Ranks stay below 32, so the eight-bit rank never wraps.
    lemma RankFits(i: nat)
      requires Valid() && i < |rank|
      ensures rank[i] < 32
    {
      var r := root[i];
      assert Node(parent, rank, root, i) && Node(parent, rank, root, r);
      TreeFits(root, r);
      if rank[r] >= 32 {
        PowerMonotone(32, rank[r]);
        WordPowers();
      }
    }

    // The people the links connect to one person, that person included.
    ghost function Component(person: nat): set<nat>
      reads this
    {
      set q: nat | q <= |parent| && 1 <= q && Connected(links, person, q)
    }

    lemma RankWithinComponent(i: nat)
      requires Valid() && i < |rank| && parent[i] == i
      ensures Power2(rank[i]) <= |Component(i + 1)|
    {
      hide Connected, LeastKept, Forest, Power2;
      RootIsItself(i);
      ComponentIsTree(i);
      ImageSize(Tree(root, i), NextId);
    }

    lemma RootIsItself(i: nat)
      requires Valid() && i < |rank| && parent[i] == i
      ensures |rank| == |root| && root[i] == i
    {
      hide Connected, LeastKept, BigTrees, Represents;
      assert Node(parent, rank, root, i);
    }

    lemma ComponentIsTree(i: nat)
      requires Valid() && i < |root| && root[i] == i
      ensures Component(i + 1) == Image(Tree(root, i), NextId)
    {
      hide Connected, LeastKept, Forest, BigTrees;
      SameLengths();
      forall q: nat ensures q in Image(Tree(root, i), NextId) <==> q in Component(i + 1) {
        if 1 <= q <= |parent| {
          assert NextId(q - 1) == q;
          assert Connected(links, i + 1, (q - 1) + 1) <==> root[i] == root[q - 1];
        }
      }
    }

    predicate HasId(person: nat)
      reads this
    {
      1 <= person <= |parent|
    }

    method RootOf(start: nat) returns (index: nat)
      requires Valid() && start < |parent|
      modifies this`parent
      ensures Valid() && index == root[start]
      ensures |parent| == |old(parent)| && index < |parent| && root[index] == index
    {
      hide Connected, Represents, BigTrees, LeastKept, Forest, Node;
      index := start;
      SameLengths();
      RootIsOwn(parent, rank, root, index);
      while parent[index] != index
        invariant index < |parent| == |old(parent)| && root[index] == root[start] < |parent|
        invariant Forest(parent, rank, root) && rank[index] <= rank[root[start]]
        decreases rank[root[start]] - rank[index]
      {
        HalvingKeepsForest(parent, rank, root, index);
        parent := parent[index := parent[parent[index]]];
        index := parent[index];
      }
      RootIsOwn(parent, rank, root, index);
    }

    /** Records a link. An id outside the population is refused and changes
        nothing. */
    method Link(a: nat, b: nat) returns (ok: bool)
      requires Valid()
      modifies this
      ensures Valid() && |parent| == |old(parent)|
      ensures ok == (HasId(a) && HasId(b))
      ensures links == if ok then old(links) + {(a, b)} else old(links)
    {
      hide Connected, Represents, BigTrees, LeastKept, Forest, Merge;
      SameLengths();
      if !(HasId(a) && HasId(b)) {
        return false;
      }
      var lhs := RootOf(a - 1);
      var rhs := RootOf(b - 1);
      if lhs == rhs {
        links := links + {(a, b)};
        SameRootLink(root, old(links), a, b);
        return true;
      }
      if rank[lhs] < rank[rhs] {
        lhs, rhs := rhs, lhs;
      }
      MergeKeepsForest(parent, rank, root, lhs, rhs);
      MergeBigTrees(rank, root, lhs, rhs);
      MergeKeepsLeast(least, root, lhs, rhs);
      MergeRepresents(root, links, a, b, lhs, rhs);
      parent := parent[rhs := lhs];
      least := least[lhs := Min(least[lhs], least[rhs])];
      if rank[lhs] == rank[rhs] {
        rank := rank[lhs := rank[lhs] + 1];
      }
      assert rank == RaisedRank(old(rank), lhs, rhs);
      root := Merge(root, lhs, rhs);
      links := links + {(a, b)};
      ok := true;
    }

    // The k-th member is the first whose id is unknown.
    ghost predicate FirstRefused(members: seq<nat>, k: nat)
      reads this
    {
      k < |members| && !HasId(members[k]) && forall i :: 0 <= i < k ==> HasId(members[i])
    }

    /** Links every member to the first; an unknown id stops it, with exactly the
        members before it linked. */
    method LinkAll(members: seq<nat>) returns (ok: bool)
      requires Valid()
      modifies this
      ensures Valid() && |parent| == |old(parent)|
      ensures ok == forall m :: m in members ==> HasId(m)
      ensures ok ==> links == old(links) + Chain(members)
      ensures !ok ==> exists k: nat :: FirstRefused(members, k) && links == old(links) + Chain(members[..k])
    {
      if members == [] {
        return true;
      }
      assert Star(members[..1]) == {};
      if !HasId(members[0]) {
        assert FirstRefused(members, 0) && members[..0] == [];
        return false;
      }
      for index := 1 to |members|
        invariant Valid() && |parent| == |old(parent)|
        invariant forall i :: 0 <= i < index ==> HasId(members[i])
        invariant links == old(links) + Star(members[..index])
      {
        ok := Link(members[0], members[index]);
        assert members[..index + 1] == members[..index] + [members[index]];
        if !ok {
          assert FirstRefused(members, index);
          return;
        }
        assert Star(members[..index + 1]) == Star(members[..index]) + {(members[0], members[index])};
      }
      assert members[..|members|] == members;
      ok := true;
    }

    /** The smallest person the links connect to the given one; the links alone
        decide it, in whatever order they came. */
    method RepresentativeOf(person: nat) returns (r: Option<nat>)
      requires Valid()
      modifies this`parent
      ensures Valid() && |parent| == |old(parent)|
      ensures r.Some? == HasId(person)
      ensures r.Some? ==> Connected(links, person, r.value)
      ensures r.Some? ==> forall q :: Connected(links, person, q) ==> r.value <= q
    {
      hide Connected, Represents, BigTrees, LeastKept, Forest;
      SameLengths();
      if !HasId(person) {
        return None;
      }
      var index := RootOf(person - 1);
      r := Some(least[index]);
      LeastIsRepresentative(least, root, links, person);
    }
  }

  lemma SameRootLink(root: seq<nat>, links: Links, a: nat, b: nat)
    requires Represents(root, links) && 1 <= a <= |root| && 1 <= b <= |root| && root[a - 1] == root[b - 1]
    ensures Represents(root, links + {(a, b)})
  {
    hide Connected;
    var more := links + {(a, b)};
    forall i, j | 0 <= i < |root| && 0 <= j < |root|
      ensures root[i] == root[j] <==> Connected(more, i + 1, j + 1)
    {
      if root[i] == root[j] {
        ConnectedMonotone(links, more, i + 1, j + 1);
      }
      if Connected(more, i + 1, j + 1) {
        forall x, y | (x, y) in more ensures Connected(links, x, y) {
          if (x, y) in links {
            ConnectedStep(links, x, y);
          } else {
            assert Connected(links, (a - 1) + 1, (b - 1) + 1);
          }
        }
        ConnectedWithin(more, links, i + 1, j + 1);
      }
    }
  }

  lemma LeastIsRepresentative(least: seq<nat>, root: seq<nat>, links: Links, person: nat)
    requires LeastKept(least, root) && Represents(root, links) && 1 <= person <= |root|
    ensures var r := least[root[person - 1]];
            Connected(links, person, r) && forall q :: Connected(links, person, q) ==> r <= q
  {
    hide Connected;
    var r := least[root[person - 1]];
    assert root[r - 1] == root[person - 1];
    assert Connected(links, (person - 1) + 1, (r - 1) + 1);
    forall q | Connected(links, person, q) ensures r <= q {
      StaysInside(root, links, person, q);
      assert root[q - 1] == root[person - 1] by {
        assert Connected(links, (person - 1) + 1, (q - 1) + 1);
      }
    }
  }

  lemma StaysInside(root: seq<nat>, links: Links, person: nat, q: nat)
    requires Represents(root, links) && 1 <= person <= |root| && Connected(links, person, q)
    ensures 1 <= q <= |root|
  {
    hide Connected;
    var inside := (p: nat) => if 1 <= p <= |root| then 1 else 0;
    ConnectedRespects(links, inside, person, q);
  }
}
