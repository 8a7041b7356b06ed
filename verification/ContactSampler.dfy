/** Drawing distinct contacts, with an epoch-stamped membership scratch. */
module ContactSampling {
  import opened Words
  import opened Lists
  import Arithmetic
  import Counting
  import Bounded
  import RandomKernel
  import opened AliasTables
  import opened CommunityBlocks
  import opened ContactDraws

  const DEDUP_BASE := 24
  const DEDUP_MULTIPLIER := 10

  // ---- The deterministic fill ----

  // Distinct people other than the source.
  ghost predicate Others(out: seq<nat>, src: nat, n: nat) {
    Distinct(out) && forall i :: 0 <= i < |out| ==> out[i] < n && out[i] != src
  }

  method ContainsLinear(seen: seq<nat>, value: nat) returns (found: bool)
    ensures found <==> value in seen
  {
    for i := 0 to |seen|
      invariant value !in seen[..i]
    {
      if seen[i] == value {
        return true;
      }
    }
    found := false;
  }

  // The second pass walks on one person at a time.
  function StepCandidate(src: nat, step: nat, n: nat): (x: nat)
    requires n > 0
    ensures x == (src + step) % TWO32 % n
  {
    StrideCandidate(src, step, 1, n)
  }

  predicate Reaches(src: nat, n: nat, step: nat, x: nat)
    requires n > 0
  {
    1 <= step < n && StepCandidate(src, step, n) == x
  }

  lemma WrapsAt(src: nat, step: nat, n: nat)
    requires src < n < TWO32 && 1 <= step < n
    ensures src + step < n ==> StepCandidate(src, step, n) == src + step
    ensures n <= src + step < TWO32 ==> StepCandidate(src, step, n) == src + step - n
    ensures TWO32 <= src + step ==> StepCandidate(src, step, n) == src + step - TWO32
  {
    var v := src + step;
    if v < TWO32 {
      assert v % TWO32 == v;
      if v < n {
        Arithmetic.RemainderUnique(v, n, 0, v);
      } else {
        Arithmetic.RemainderUnique(v, n, 1, v - n);
      }
    } else {
      assert v % TWO32 == v - TWO32;
      Arithmetic.RemainderUnique(v - TWO32, n, 0, v - TWO32);
    }
  }

  predicate IsOther(x: nat, src: nat, n: nat) {
    x < n && x != src
  }

  /** The second pass visits everyone else exactly when the source's index and
      the number of people together fit 32 bits. */
  lemma FillReachesAll(src: nat, n: nat)
    requires src < n < TWO32
    ensures (forall x: nat :: IsOther(x, src, n) ==> exists step: nat :: Reaches(src, n, step, x)) <==> src + n <= TWO32
  {
    hide StepCandidate;
    if src + n <= TWO32 {
      forall x: nat | IsOther(x, src, n) ensures exists step: nat :: Reaches(src, n, step, x) {
        var step := if x > src then x - src else x + n - src;
        WrapsAt(src, step, n);
        assert Reaches(src, n, step, x);
      }
    } else {
      var missed: nat := src - 1;
      forall step: nat ensures !Reaches(src, n, step, missed) {
        if 1 <= step < n {
          WrapsAt(src, step, n);
        }
      }
      assert IsOther(missed, src, n);
    }
  }

  lemma OthersNext(out: seq<nat>, src: nat, n: nat, x: nat)
    requires Others(out, src, n) && x < n && x != src && x !in out
    ensures Others(out + [x], src, n)
  {
  }

  lemma ConsideredOthers(src: nat, candidate: nat, n: nat, out: seq<nat>)
    requires Others(out, src, n) && candidate < n
    ensures var r := Considered(src, candidate, out);
            Others(r, src, n) && out <= r && |r| <= |out| + 1 && (candidate == src || candidate in r)
  {
    if candidate != src && candidate !in out {
      OthersNext(out, src, n, candidate);
    }
  }

  lemma {:induction false} PassOthers(src: nat, stride: nat, n: nat, desired: nat, step: nat, out: seq<nat>)
    requires src < n && Others(out, src, n) && |out| <= desired
    ensures var r := Pass(src, stride, n, desired, step, out); Others(r, src, n) && out <= r && |r| <= desired
    decreases n - step
  {
    hide Others, StrideCandidate;
    if step < n && |out| < desired {
      var candidate := StrideCandidate(src, step, stride, n);
      Below(src, step, stride, n);
      ConsideredOthers(src, candidate, n, out);
      PassOthers(src, stride, n, desired, step + 1, Considered(src, candidate, out));
    }
  }

  lemma Below(src: nat, step: nat, stride: nat, n: nat)
    requires n > 0
    ensures StrideCandidate(src, step, stride, n) < n
  {
  }

  // A pass that does not find enough has considered every step.
  lemma {:induction false} PassVisits(src: nat, stride: nat, n: nat, desired: nat, step: nat, out: seq<nat>, k: nat)
    requires src < n && Others(out, src, n) && |out| <= desired && step <= k < n
    requires |Pass(src, stride, n, desired, step, out)| < desired
    ensures StrideCandidate(src, k, stride, n) == src || StrideCandidate(src, k, stride, n) in Pass(src, stride, n, desired, step, out)
    decreases n - step
  {
    hide Others, StrideCandidate;
    var candidate := StrideCandidate(src, step, stride, n);
    Below(src, step, stride, n);
    PassOthers(src, stride, n, desired, step, out);
    ConsideredOthers(src, candidate, n, out);
    var next := Considered(src, candidate, out);
    PassOthers(src, stride, n, desired, step + 1, next);
    if step < k {
      PassVisits(src, stride, n, desired, step + 1, next, k);
    }
  }

  method Consider(src: nat, candidate: nat, out: seq<nat>) returns (r: seq<nat>)
    ensures r == Considered(src, candidate, out)
  {
    if candidate == src {
      return out;
    }
    var found := ContainsLinear(out, candidate);
    r := if found then out else out + [candidate];
  }

  method FillRemainingUnique(src: nat, desired: nat, n: nat, out: seq<nat>) returns (r: seq<nat>)
    requires src < n < TWO32
    ensures r == Filled(src, desired, n, out)
  {
    hide Considered, StrideCandidate;
    r := out;
    if n <= 1 {
      return;
    }
    var word := (src * 1103515245 + 12345) % TWO32;
    var stride := if word % 2 == 0 then word + 1 else word;
    stride := stride % n;
    if stride == 0 {
      stride := 1;
    }
    assert stride == Stride(src, n);
    ghost var goal := Pass(src, stride, n, desired, 1, out);
    var step := 1;
    while step < n && |r| < desired
      invariant step >= 1 && Pass(src, stride, n, desired, step, r) == goal
    {
      r := Consider(src, StrideCandidate(src, step, stride, n), r);
      step := step + 1;
    }
    ghost var last := Pass(src, 1, n, desired, 1, r);
    step := 1;
    while step < n && |r| < desired
      invariant step >= 1 && Pass(src, 1, n, desired, step, r) == last
    {
      r := Consider(src, StrideCandidate(src, step, 1, n), r);
      step := step + 1;
    }
  }

  /** The fill adds distinct others up to the number wanted; it falls short only
      with everyone the second pass reaches included, and never when index and
      population fit 32 bits together. */
  lemma FillIsComplete(src: nat, desired: nat, n: nat, out: seq<nat>)
    requires src < n < TWO32 && Others(out, src, n) && |out| <= desired <= n - 1
    ensures var r := Filled(src, desired, n, out);
            && Others(r, src, n) && out <= r && |r| <= desired
            && (src + n <= TWO32 ==> |r| == desired)
            && (|r| < desired ==> forall step: nat, x: nat :: Reaches(src, n, step, x) ==> x == src || x in r)
  {
    hide Others, Reaches, Pass;
    if n > 1 {
      var first := Pass(src, Stride(src, n), n, desired, 1, out);
      PassOthers(src, Stride(src, n), n, desired, 1, out);
      PassOthers(src, 1, n, desired, 1, first);
      var r := Pass(src, 1, n, desired, 1, first);
      if |r| < desired {
        forall step: nat, x: nat | Reaches(src, n, step, x) ensures x == src || x in r {
          ReachedBy(src, n, step, x);
          PassVisits(src, 1, n, desired, 1, first, step);
        }
        if src + n <= TWO32 {
          EveryoneIn(r, src, n);
        }
      }
    }
  }

  lemma ReachedBy(src: nat, n: nat, step: nat, x: nat)
    requires n > 0 && Reaches(src, n, step, x)
    ensures 1 <= step < n && StepCandidate(src, step, n) == x
  {
  }

  // A list of others holds at most everyone, and everyone when all are visited.
  lemma OthersSize(out: seq<nat>, src: nat, n: nat)
    requires src < n && Others(out, src, n)
    ensures |out| <= n - 1
    ensures (forall x: nat :: x < n && x != src ==> x in out) ==> |out| == n - 1
  {
    DistinctSize(out);
    var rest := Counting.Below(n) - {src};
    assert Elements(out) <= rest;
    Subset(Elements(out), rest);
    if forall x: nat :: x < n && x != src ==> x in out {
      assert Elements(out) == rest;
    }
  }

  lemma {:induction false} Subset(a: set<nat>, b: set<nat>)
    requires a <= b
    ensures |a| <= |b|
  {
    if a != {} {
      var x :| x in a;
      Subset(a - {x}, b - {x});
    }
  }

  lemma EveryoneIn(out: seq<nat>, src: nat, n: nat)
    requires src < n < TWO32 && src + n <= TWO32 && Others(out, src, n)
    requires forall step: nat, x: nat :: Reaches(src, n, step, x) ==> x == src || x in out
    ensures |out| == n - 1
  {
    hide Others, Reaches;
    FillReachesAll(src, n);
    forall x: nat | x < n && x != src ensures x in out {
      assert IsOther(x, src, n);
      var step: nat :| Reaches(src, n, step, x);
    }
    OthersSize(out, src, n);
  }

  // ---- The sampler ----

  function ColumnsOf(t: AliasTable): Columns
    reads t
  {
    Columns(t.prob, t.alias)
  }

  ghost predicate Usable(t: AliasTable, size: nat)
    reads t
  {
    Fits(ColumnsOf(t), size)
  }

  // A stamp counts as present when it is the current epoch.
  ghost predicate Stamped(mark: seq<u32>, epoch: u32, src: nat, out: seq<nat>) {
    forall x: nat :: x < |mark| ==> (mark[x] == epoch <==> x == src || x in out)
  }

  ghost predicate NoneBeyond(mark: seq<u32>, epoch: u32) {
    forall x :: 0 <= x < |mark| ==> mark[x] <= epoch
  }

  class ContactSampler {
    const communities: Communities
    const personCount: nat
    const localProb: real
    const crossProb: real
    const globalAlias: AliasTable
    var blockAliases: seq<AliasTable>
    var seenMark: seq<u32>
    var seenEpoch: u32

    ghost predicate Valid()
      reads this, globalAlias, blockAliases
    {
      && personCount < TWO32 && Tiles(communities, personCount)
      && |communities.ends| == communities.Count() == |blockAliases| && |seenMark| == personCount
      && NoneBeyond(seenMark, seenEpoch)
      && (personCount > 0 ==> Usable(globalAlias, personCount))
      && forall b: nat :: b < |blockAliases| ==> Usable(blockAliases[b], communities.ends[b] - communities.starts[b])
    }

    /** Takes the tables it draws from; building them is AliasTable.Build. */
    constructor (communities: Communities, personCount: nat, localProb: real, crossProb: real,
                 globalAlias: AliasTable, blockAliases: seq<AliasTable>)
      requires personCount < TWO32 && Tiles(communities, personCount) && |blockAliases| == communities.Count()
      requires personCount > 0 ==> Usable(globalAlias, personCount)
      requires forall b: nat :: b < |blockAliases| ==> Usable(blockAliases[b], communities.ends[b] - communities.starts[b])
      ensures Valid() && this.communities == communities && this.personCount == personCount && seenEpoch == 0
    {
      this.communities, this.personCount := communities, personCount;
      this.localProb, this.crossProb := localProb, crossProb;
      this.globalAlias, this.blockAliases := globalAlias, blockAliases;
      seenMark, seenEpoch := seq(personCount, i => 0), 0;
    }

    // What a draw for a person of the given block depends on.
    function SettingOf(block: nat): Setting
      requires block < |communities.starts| && block < |communities.ends| && block < |blockAliases|
      reads this, globalAlias, blockAliases
    {
      Setting(personCount, communities.starts[block], communities.ends[block], localProb, crossProb,
              ColumnsOf(globalAlias), ColumnsOf(blockAliases[block]))
    }

    ghost predicate Ready(src: nat, block: nat)
      reads this, globalAlias, blockAliases
    {
      && |communities.ends| == communities.Count() == |blockAliases| && block < communities.Count()
      && ValidSetting(SettingOf(block), src)
    }

    method SampleBelow(t: AliasTable, size: nat, rng: RandomKernel.Rng) returns (r: nat)
      requires Bounded.Fair(rng.words) && Fits(ColumnsOf(t), size) && size > 0
      modifies rng
      ensures (r, rng.pos) == PickOne(rng.words, ColumnsOf(t), size, old(rng.pos))
    {
      var pick := t.Sample(rng);
      r := pick.value;
    }

    method DrawLocal(src: nat, block: nat, rng: RandomKernel.Rng) returns (r: nat)
      requires Bounded.Fair(rng.words) && Ready(src, block)
      modifies rng
      ensures (r, rng.pos) == Local(rng.words, SettingOf(block), src, old(rng.pos))
    {
      hide Bounded.Fair, PickOne;
      var lo, hi := communities.starts[block], communities.ends[block];
      if hi - lo <= 1 {
        return FallbackOther(src, personCount);
      }
      ghost var columns := ColumnsOf(blockAliases[block]);
      ghost var goal := FirstOutside(rng.words, columns, hi - lo, lo, src, src + 1, LOCAL_TRIES, rng.pos);
      for attempt := 0 to LOCAL_TRIES
        invariant FirstOutside(rng.words, columns, hi - lo, lo, src, src + 1, LOCAL_TRIES - attempt, rng.pos) == goal
      {
        var pick := SampleBelow(blockAliases[block], hi - lo, rng);
        var candidate := lo + pick;
        if candidate != src {
          return candidate;
        }
      }
      if src != lo {
        return lo;
      }
      // The block has a second person, so no further fallback is reached.
      r := src + 1;
    }

    method DrawGlobal(src: nat, ghost block: nat, rng: RandomKernel.Rng) returns (r: nat)
      requires Bounded.Fair(rng.words) && Ready(src, block)
      modifies rng
      ensures (r, rng.pos) == Global(rng.words, SettingOf(block), src, old(rng.pos))
    {
      hide Bounded.Fair, PickOne;
      if personCount <= 1 {
        return src;
      }
      ghost var columns := ColumnsOf(globalAlias);
      ghost var goal := FirstOutside(rng.words, columns, personCount, 0, src, src + 1, GLOBAL_TRIES, rng.pos);
      for attempt := 0 to GLOBAL_TRIES
        invariant FirstOutside(rng.words, columns, personCount, 0, src, src + 1, GLOBAL_TRIES - attempt, rng.pos) == goal
      {
        var candidate := SampleBelow(globalAlias, personCount, rng);
        if candidate != src {
          return candidate;
        }
      }
      r := FallbackOther(src, personCount);
    }

    method DrawCross(src: nat, block: nat, rng: RandomKernel.Rng) returns (r: nat)
      requires Bounded.Fair(rng.words) && Ready(src, block)
      modifies rng
      ensures (r, rng.pos) == Cross(rng.words, SettingOf(block), src, old(rng.pos))
    {
      hide Bounded.Fair, PickOne, Global;
      var lo, hi := communities.starts[block], communities.ends[block];
      if personCount - (hi - lo) == 0 {
        r := DrawGlobal(src, block, rng);
        return;
      }
      ghost var columns := ColumnsOf(globalAlias);
      ghost var goal := FirstOutside(rng.words, columns, personCount, 0, lo, hi, CROSS_TRIES, rng.pos);
      for attempt := 0 to CROSS_TRIES
        invariant FirstOutside(rng.words, columns, personCount, 0, lo, hi, CROSS_TRIES - attempt, rng.pos) == goal
      {
        var candidate := SampleBelow(globalAlias, personCount, rng);
        if candidate < lo || candidate >= hi {
          return candidate;
        }
      }
      r := DrawGlobal(src, block, rng);
    }

    method DrawCandidate(src: nat, block: nat, rng: RandomKernel.Rng) returns (r: nat)
      requires Bounded.Fair(rng.words) && Ready(src, block)
      modifies rng
      ensures (r, rng.pos) == Candidate(rng.words, SettingOf(block), src, old(rng.pos))
    {
      hide Bounded.Fair, Local, Cross, Global;
      var size := communities.ends[block] - communities.starts[block];
      if size > 1 {
        var local := rng.Coin(localProb);
        if local {
          r := DrawLocal(src, block, rng);
          return;
        }
      }
      if personCount - size > 0 {
        var cross := rng.Coin(crossProb);
        if cross {
          r := DrawCross(src, block, rng);
          return;
        }
      }
      r := DrawGlobal(src, block, rng);
    }

    // A new epoch empties the scratch; on wrap-around it is wiped.
    method NextEpoch(src: nat)
      requires Valid() && src < personCount
      modifies this`seenMark, this`seenEpoch
      ensures Valid() && Stamped(seenMark, seenEpoch, src, [])
    {
      hide Tiles, Usable;
      seenEpoch := (seenEpoch + 1) % TWO32;
      if seenEpoch == 0 {
        seenMark := seq(|seenMark|, i => 0);
        seenEpoch := 1;
      }
      seenMark := seenMark[src := seenEpoch];
    }

    /** The contacts of one person: those drawn, completed by the fill. */
    ghost function Contacts(words: Words64, src: nat, desired: nat, at: nat): (r: (seq<nat>, nat))
      requires Bounded.Fair(words) && Valid() && 1 < personCount && src < personCount
      reads this, globalAlias, blockAliases
    {
      SourceReady(src);
      var wanted := Min(desired, personCount - 1);
      var (drawn, end) := Gathered(words, SettingOf(communities.memberOf[src]), src, wanted,
                                   Max(DEDUP_BASE, DEDUP_MULTIPLIER * wanted), [], at);
      (Filled(src, wanted, personCount, drawn), end)
    }

    lemma SourceReady(src: nat)
      requires Valid() && 1 < personCount && src < personCount
      ensures |communities.memberOf| == personCount && Ready(src, communities.memberOf[src])
    {
      hide Tiles;
      OwnBlock(communities, personCount, src);
      BlockInside(communities, personCount, communities.memberOf[src]);
    }

    /** Distinct contacts of one person: exactly as many as wanted, or as there
        are, whatever is drawn, while index and population fit 32 bits. */
    method DrawUnique(src: nat, desired: nat, rng: RandomKernel.Rng) returns (out: seq<nat>)
      requires Bounded.Fair(rng.words) && Valid() && (personCount > 0 ==> src < personCount)
      modifies rng, this`seenMark, this`seenEpoch
      ensures Valid()
      ensures desired == 0 || personCount == 0 ==> out == [] && rng.pos == old(rng.pos)
      ensures desired > 0 && personCount == 1 ==> out == [src] && rng.pos == old(rng.pos)
      ensures desired > 0 && personCount > 1 ==> (out, rng.pos) == old(Contacts(rng.words, src, desired, rng.pos))
      ensures personCount > 1 ==> Others(out, src, personCount) && |out| <= Min(desired, personCount - 1)
      ensures personCount > 1 && src + personCount <= TWO32 ==> |out| == Min(desired, personCount - 1)
      ensures 1 < personCount <= TWO31 ==> |out| == Min(desired, personCount - 1)
      ensures personCount > 1 && |out| < Min(desired, personCount - 1) ==>
        forall step: nat, x: nat :: Reaches(src, personCount, step, x) ==> x == src || x in out
      ensures personCount > 1 && desired > 0 ==>
        exists k :: 0 <= k <= |out| && Stamped(seenMark, seenEpoch, src, out[..k])
    {
      hide Tiles, Usable, Others, Reaches, Stamped, Filled, Fits;
      out := [];
      NoOthers(src, personCount);
      if desired == 0 || personCount == 0 {
        return;
      }
      if personCount == 1 {
        return [src];
      }
      var wanted := Min(desired, personCount - 1);
      SourceReady(src);
      var drawn := Gather(src, communities.memberOf[src], wanted, rng);
      FillIsComplete(src, wanted, personCount, drawn);
      out := FillRemainingUnique(src, wanted, personCount, drawn);
      assert out[..|drawn|] == drawn;
      if out == [] {
        // The second pass reaches a neighbour, so someone is there.
        NeighbourReached(src, personCount);
        assert false;
      }
    }

    // Draws until enough are stamped or the tries run out.
    method Gather(src: nat, block: nat, wanted: nat, rng: RandomKernel.Rng) returns (out: seq<nat>)
      requires Bounded.Fair(rng.words) && Valid() && src < personCount && Ready(src, block)
      modifies rng, this`seenMark, this`seenEpoch
      ensures Valid() && SettingOf(block) == old(SettingOf(block))
      ensures (out, rng.pos) ==
                Gathered(rng.words, old(SettingOf(block)), src, wanted, Max(DEDUP_BASE, DEDUP_MULTIPLIER * wanted), [], old(rng.pos))
      ensures Others(out, src, personCount) && |out| <= wanted && Stamped(seenMark, seenEpoch, src, out)
    {
      hide Tiles, Usable, Others, Stamped, Bounded.Fair, Candidate, Fits;
      out := [];
      NoOthers(src, personCount);
      NextEpoch(src);
      var maxTries := Max(DEDUP_BASE, DEDUP_MULTIPLIER * wanted);
      ghost var setting := SettingOf(block);
      ghost var goal := Gathered(rng.words, setting, src, wanted, maxTries, [], rng.pos);
      var attempt := 0;
      while attempt < maxTries && |out| < wanted
        invariant attempt <= maxTries && Valid() && Ready(src, block) && SettingOf(block) == setting
        invariant Others(out, src, personCount) && |out| <= wanted && Stamped(seenMark, seenEpoch, src, out)
        invariant Gathered(rng.words, setting, src, wanted, maxTries - attempt, out, rng.pos) == goal
        decreases maxTries - attempt
      {
        var candidate := DrawCandidate(src, block, rng);
        StampIs(seenMark, seenEpoch, src, out, candidate);
        if seenMark[candidate] != seenEpoch {
          OthersNext(out, src, personCount, candidate);
          StampNext(seenMark, seenEpoch, src, out, candidate);
          seenMark := seenMark[candidate := seenEpoch];
          out := out + [candidate];
        }
        attempt := attempt + 1;
      }
    }
  }

  lemma StampIs(mark: seq<u32>, epoch: u32, src: nat, out: seq<nat>, x: nat)
    requires Stamped(mark, epoch, src, out) && x < |mark| && x != src
    ensures mark[x] == epoch <==> x in out
  {
  }

  lemma NeighbourReached(src: nat, n: nat)
    requires src < n < TWO32 && n > 1
    ensures exists x: nat :: x != src && Reaches(src, n, 1, x)
  {
    var x := StepCandidate(src, 1, n);
    WrapsAt(src, 1, n);
    assert Reaches(src, n, 1, x);
  }

  lemma StampNext(mark: seq<u32>, epoch: u32, src: nat, out: seq<nat>, x: nat)
    requires Stamped(mark, epoch, src, out) && x < |mark|
    ensures Stamped(mark[x := epoch], epoch, src, out + [x])
  {
  }

  lemma NoOthers(src: nat, n: nat)
    ensures Others([], src, n)
  {
  }

  lemma OwnBlock(c: Communities, n: nat, src: nat)
    requires Tiles(c, n) && src < n
    ensures |c.memberOf| == n && c.memberOf[src] < c.Count() && |c.starts| == |c.ends| && InBlock(c, c.memberOf[src], src)
  {
    assert MemberIn(c, src);
  }
}
