/** Residence: everyone is shuffled and the list is cut into households. */
module HouseholdPartition {
  import opened Words
  import opened Lists
  import opened Bounded
  import RandomKernel
  import Sampling

  datatype Partition = Partition(members: seq<nat>, offsets: seq<nat>, householdOf: seq<nat>) {
    function Count(): nat {
      if offsets == [] then 0 else |offsets| - 1
    }
  }

  // ---- The shuffle ----

  lemma SwapKeeps(s: seq<nat>, i: nat, j: nat)
    requires i < |s| && j < |s|
    ensures multiset(Sampling.Swap(s, i, j)) == multiset(s)
  {
  }

  // One draw for each position from the last to the second.
  predicate DrawsFor(d: seq<nat>, n: nat) {
    |d| == (if n <= 1 then 0 else n - 1) && forall k :: 0 <= k < |d| ==> d[k] < n - k
  }

  lemma TailDraws(d: seq<nat>, n: nat)
    requires DrawsFor(d, n) && n > 1
    ensures DrawsFor(d[1..], n - 1) && d[0] < n
  {
  }

  // The last entry is drawn first and stays put.
  function DownShuffle(s: seq<nat>, d: seq<nat>): (r: seq<nat>)
    requires DrawsFor(d, |s|)
    ensures |r| == |s|
    decreases |s|
  {
    if |s| <= 1 then
      s
    else
      TailDraws(d, |s|);
      var t := Sampling.Swap(s, |s| - 1, d[0]);
      DownShuffle(t[..|s| - 1], d[1..]) + [t[|s| - 1]]
  }

  lemma {:induction false} ShuffleKeeps(s: seq<nat>, d: seq<nat>)
    requires DrawsFor(d, |s|)
    ensures multiset(DownShuffle(s, d)) == multiset(s)
    decreases |s|
  {
    if |s| > 1 {
      TailDraws(d, |s|);
      var m := |s| - 1;
      var t := Sampling.Swap(s, m, d[0]);
      SwapKeeps(s, m, d[0]);
      ShuffleKeeps(t[..m], d[1..]);
      assert t == t[..m] + [t[m]];
    }
  }

  lemma SwapDistinct(s: seq<nat>, i: nat, j: nat)
    requires i < |s| && j < |s| && Distinct(s)
    ensures Distinct(Sampling.Swap(s, i, j)) && Sampling.Swap(s, i, j)[i] == s[j]
  {
  }

  lemma ShuffleUnfolds(s: seq<nat>, d: seq<nat>)
    requires |s| > 1 && |d| > 0 && d[0] < |s| && DrawsFor(d[1..], |s| - 1) && DrawsFor(d, |s|)
    ensures var m := |s| - 1;
            var t := Sampling.Swap(s, m, d[0]);
            && |t[..m]| == m && DownShuffle(s, d) == DownShuffle(t[..m], d[1..]) + [s[d[0]]]
  {
  }

  // Different draws end in different orders.
  lemma {:induction false} ShuffleOneToOne(s: seq<nat>, d: seq<nat>, e: seq<nat>)
    requires DrawsFor(d, |s|) && DrawsFor(e, |s|) && Distinct(s) && DownShuffle(s, d) == DownShuffle(s, e)
    ensures d == e
    decreases |s|
  {
    hide DownShuffle, Distinct, DrawsFor, Sampling.Swap;
    TailLength(d, e, |s|);
    if |s| > 1 {
      TailDraws(d, |s|);
      TailDraws(e, |s|);
      ShuffleUnfolds(s, d);
      ShuffleUnfolds(s, e);
      var m := |s| - 1;
      var t, u := Sampling.Swap(s, m, d[0]), Sampling.Swap(s, m, e[0]);
      SameEnds(DownShuffle(t[..m], d[1..]), s[d[0]], DownShuffle(u[..m], e[1..]), s[e[0]]);
      SameIndex(s, d[0], e[0]);
      SwapDistinct(s, m, d[0]);
      PrefixDistinct(t, m);
      ShuffleOneToOne(t[..m], d[1..], e[1..]);
      assert d == [d[0]] + d[1..] && e == [e[0]] + e[1..];
    }
  }

  lemma TailLength(d: seq<nat>, e: seq<nat>, n: nat)
    requires DrawsFor(d, n) && DrawsFor(e, n)
    ensures |d| == |e| && (n > 1 ==> |d| > 0) && (n <= 1 ==> d == e)
  {
  }

  lemma SameEnds(a: seq<nat>, x: nat, b: seq<nat>, y: nat)
    requires |a| == |b| && a + [x] == b + [y]
    ensures a == b && x == y
  {
    assert a == (a + [x])[..|a|] && b == (b + [y])[..|b|];
    assert x == (a + [x])[|a|] && y == (b + [y])[|b|];
  }

  lemma SameIndex(s: seq<nat>, i: nat, j: nat)
    requires Distinct(s) && i < |s| && j < |s| && s[i] == s[j]
    ensures i == j
  {
  }

  lemma PrefixDistinct(s: seq<nat>, m: nat)
    requires Distinct(s) && m <= |s|
    ensures Distinct(s[..m])
  {
  }

  // Every order is the end of some draws.
  lemma {:induction false} ShuffleOnto(s: seq<nat>, p: seq<nat>)
    requires multiset(p) == multiset(s)
    ensures exists d :: Leads(s, d, p)
    decreases |s|
  {
    hide DownShuffle, DrawsFor, Sampling.Swap, Leads;
    SameLength(s, p);
    if |s| <= 1 {
      ShortOnto(s, p);
    } else {
      var m := |s| - 1;
      assert p[m] in multiset(p);
      assert p[m] in s;
      var j: nat :| j < |s| && s[j] == p[m];
      var t := Sampling.Swap(s, m, j);
      LastSwapped(s, j);
      SwapKeeps(s, m, j);
      WithoutLast(t, s, m);
      WithoutLast(p, s, m);
      ShuffleOnto(t[..m], p[..m]);
      var rest :| Leads(t[..m], rest, p[..m]);
      LeadsNext(s, j, rest, p);
    }
  }

  lemma WithoutLast(t: seq<nat>, s: seq<nat>, m: nat)
    requires |t| == m + 1 && multiset(t) == multiset(s)
    ensures multiset(t[..m]) == multiset(s) - multiset{t[m]}
  {
    assert t == t[..m] + [t[m]];
  }

  lemma LastSwapped(s: seq<nat>, j: nat)
    requires j < |s|
    ensures Sampling.Swap(s, |s| - 1, j)[|s| - 1] == s[j]
  {
  }

  lemma ShortOnto(s: seq<nat>, p: seq<nat>)
    requires |p| == |s| <= 1 && multiset(p) == multiset(s)
    ensures Leads(s, [], p)
  {
    if |s| == 1 {
      assert p[0] in multiset(p);
    }
  }

  lemma LeadsNext(s: seq<nat>, j: nat, rest: seq<nat>, p: seq<nat>)
    requires |p| == |s| > 1 && j < |s| && s[j] == p[|s| - 1]
    requires Leads(Sampling.Swap(s, |s| - 1, j)[..|s| - 1], rest, p[..|s| - 1])
    ensures Leads(s, [j] + rest, p)
  {
    hide Sampling.Swap;
    var d := [j] + rest;
    assert d[1..] == rest;
    DrawsNext(rest, j, |s|);
    ShuffleUnfolds(s, d);
    assert p == p[..|s| - 1] + [p[|s| - 1]];
  }

  lemma DrawsNext(rest: seq<nat>, j: nat, n: nat)
    requires n > 1 && j < n && DrawsFor(rest, n - 1)
    ensures DrawsFor([j] + rest, n)
  {
    var d := [j] + rest;
    forall k | 0 <= k < |d| ensures d[k] < n - k {
      assert k == 0 || d[k] == rest[k - 1];
    }
  }

  lemma SameLength(s: seq<nat>, p: seq<nat>)
    requires multiset(p) == multiset(s)
    ensures |p| == |s|
  {
    assert |multiset(p)| == |multiset(s)|;
  }

  ghost predicate Leads(s: seq<nat>, d: seq<nat>, p: seq<nat>) {
    DrawsFor(d, |s|) && DownShuffle(s, d) == p
  }

  /** Each order of the people comes from exactly one vector of draws. */
  lemma OneVectorPerOrder(s: seq<nat>, p: seq<nat>)
    requires Distinct(s) && multiset(p) == multiset(s)
    ensures exists d :: Leads(s, d, p) && forall e :: Leads(s, e, p) ==> e == d
  {
    ShuffleOnto(s, p);
    var d :| Leads(s, d, p);
    forall e | Leads(s, e, p) ensures e == d {
      ShuffleOneToOne(s, d, e);
    }
  }

  function Identity(n: nat): (s: seq<nat>)
    ensures |s| == n && forall i :: 0 <= i < n ==> s[i] == i + 1
  {
    seq(n, i => i + 1)
  }

  // The draws of a shuffle of n entries from word position at.
  ghost function DownDraws(words: Words64, n: nat, at: nat): (r: (seq<nat>, nat))
    requires Fair(words) && n < TWO32
    ensures DrawsFor(r.0, n)
  {
    if n <= 1 then
      ([], at)
    else
      var (first, next) := Draw(words, n, at);
      var (rest, end) := DownDraws(words, n - 1, next);
      ([first] + rest, end)
  }

  // What a shuffle still to come makes of a list, and where it ends.
  ghost function Finished(words: Words64, s: seq<nat>, at: nat): (r: (seq<nat>, nat))
    requires Fair(words) && |s| < TWO32
    ensures |r.0| == |s|
  {
    (DownShuffle(s, DownDraws(words, |s|, at).0), DownDraws(words, |s|, at).1)
  }

  method ShuffleIdentityPermutation(rng: RandomKernel.Rng, n: nat) returns (out: array<nat>)
    requires Fair(rng.words) && n < TWO32
    modifies rng
    ensures fresh(out) && (out[..], rng.pos) == Finished(rng.words, Identity(n), old(rng.pos))
  {
    hide Finished, Fair;
    out := new nat[n](i => i + 1);
    assert out[..] == Identity(n);
    ghost var goal := Finished(rng.words, Identity(n), rng.pos);
    var i := n;
    assert out[..n] == out[..] && out[n..] == [];
    while i > 1
      invariant i <= n == out.Length
      invariant Finished(rng.words, out[..i], rng.pos).0 + out[i..] == goal.0
      invariant Finished(rng.words, out[..i], rng.pos).1 == goal.1
    {
      ShuffleRound(rng, out, i);
      i := i - 1;
    }
    ShuffleEnds(rng.words, out[..i], i, rng.pos);
    assert out[..] == out[..i] + out[i..];
  }

  method ShuffleRound(rng: RandomKernel.Rng, out: array<nat>, i: nat)
    requires Fair(rng.words) && 1 < i <= out.Length < TWO32
    modifies rng, out
    ensures Finished(rng.words, out[..i - 1], rng.pos).0 + out[i - 1..] ==
              old(Finished(rng.words, out[..i], rng.pos).0 + out[i..])
    ensures Finished(rng.words, out[..i - 1], rng.pos).1 == old(Finished(rng.words, out[..i], rng.pos).1)
  {
    hide Finished, Draw, Sampling.Swap, Fair;
    ghost var before, suffix := out[..i], out[i..];
    ShuffleStep(rng.words, before, i, rng.pos);
    var drawn := rng.UniformInt(0, i);
    SwapWithLast(out, i, drawn.value);
    Regroup(Finished(rng.words, out[..i - 1], rng.pos).0, before[drawn.value], suffix);
  }

  // Exchanges the last of the first i entries with entry j.
  method SwapWithLast(out: array<nat>, i: nat, j: nat)
    requires j < i <= out.Length
    modifies out
    ensures out[..i - 1] == Sampling.Swap(old(out[..i]), i - 1, j)[..i - 1]
    ensures out[i - 1..] == [old(out[..i])[j]] + old(out[i..])
  {
    ghost var before, suffix, whole := out[..i], out[i..], out[..];
    assert whole == before + suffix;
    out[i - 1], out[j] := out[j], out[i - 1];
    assert out[..] == whole[i - 1 := before[j]][j := before[i - 1]];
    SwapsInside(before, suffix, out[..], i, j);
    assert out[..i - 1] == out[..][..i - 1] && out[i - 1..] == out[..][i - 1..];
  }

  lemma Regroup(a: seq<nat>, x: nat, b: seq<nat>)
    ensures (a + [x]) + b == a + ([x] + b)
  {
  }

  lemma SwapsInside(before: seq<nat>, suffix: seq<nat>, after: seq<nat>, i: nat, j: nat)
    requires 0 < i == |before| && j < i && |after| == i + |suffix|
    requires after == (before + suffix)[i - 1 := before[j]][j := before[i - 1]]
    ensures var t := Sampling.Swap(before, i - 1, j);
            after[..i - 1] == t[..i - 1] && after[i - 1..] == [before[j]] + suffix
  {
    var t := Sampling.Swap(before, i - 1, j);
    assert after == t + suffix && t[i - 1] == before[j];
  }

  lemma ShuffleStep(words: Words64, s: seq<nat>, n: nat, at: nat)
    requires Fair(words) && |s| == n && 1 < n < TWO32
    ensures var (first, next) := Draw(words, n, at);
            var t := Sampling.Swap(s, n - 1, first);
            && first < n
            && Finished(words, s, at).0 == Finished(words, t[..n - 1], next).0 + [s[first]]
            && Finished(words, s, at).1 == Finished(words, t[..n - 1], next).1
  {
    hide Draw, Sampling.Swap;
    var draws := DownDraws(words, n, at).0;
    assert draws[1..] == DownDraws(words, n - 1, Draw(words, n, at).1).0;
    LastSwapped(s, draws[0]);
  }

  lemma ShuffleEnds(words: Words64, s: seq<nat>, n: nat, at: nat)
    requires Fair(words) && |s| == n <= 1
    ensures Finished(words, s, at) == (s, at)
  {
  }

  // ---- The cut ----

  // Household h's stretch of the members.
  predicate LivesIn(p: Partition, h: nat, k: nat) {
    h + 1 < |p.offsets| && p.offsets[h] <= k < p.offsets[h + 1] <= |p.members|
  }

  ghost predicate IsPopulation(members: seq<nat>, n: nat) {
    |members| == n && Distinct(members) && forall p: nat :: p in members <==> 1 <= p <= n
  }

  predicate Indexed(p: Partition, h: nat, k: nat)
    requires h + 1 < |p.offsets| && k < |p.members|
  {
    LivesIn(p, h, k) ==> 1 <= p.members[k] <= |p.householdOf| && p.householdOf[p.members[k] - 1] == h
  }

  predicate RisesAt(offsets: seq<nat>, h: nat, cursor: nat)
    requires h + 1 < |offsets|
  {
    offsets[h] < offsets[h + 1] <= cursor
  }

  // The first households cover the members below the cursor.
  ghost predicate CutUpTo(p: Partition, cursor: nat) {
    && |p.offsets| >= 1 && p.offsets[0] == 0 && p.offsets[|p.offsets| - 1] == cursor <= |p.members|
    && (forall h: nat :: h < |p.offsets| - 1 ==> RisesAt(p.offsets, h, cursor))
    && forall h: nat, k: nat :: h + 1 < |p.offsets| && k < |p.members| ==> Indexed(p, h, k)
  }

  ghost predicate Sound(p: Partition, n: nat) {
    && |p.householdOf| == n && IsPopulation(p.members, n) && CutUpTo(p, n)
  }

  lemma IdentityIsPopulation(n: nat)
    ensures IsPopulation(Identity(n), n)
  {
    forall p: nat | 1 <= p <= n ensures p in Identity(n) {
      assert Identity(n)[p - 1] == p;
    }
  }

  lemma ShuffledPopulation(n: nat, d: seq<nat>)
    requires DrawsFor(d, n)
    ensures IsPopulation(DownShuffle(Identity(n), d), n)
  {
    hide DownShuffle, Distinct;
    IdentityIsPopulation(n);
    ShuffleKeeps(Identity(n), d);
    DistinctByCount(Identity(n));
    DistinctByCount(DownShuffle(Identity(n), d));
    forall p: nat ensures p in DownShuffle(Identity(n), d) <==> p in Identity(n) {
      assert p in multiset(DownShuffle(Identity(n), d)) <==> p in multiset(Identity(n));
    }
  }

  lemma FinishedPopulation(words: Words64, n: nat, at: nat)
    requires Fair(words) && n < TWO32
    ensures IsPopulation(Finished(words, Identity(n), at).0, n)
  {
    hide IsPopulation, DownShuffle, DownDraws;
    ShuffledPopulation(n, DownDraws(words, n, at).0);
  }

  // The first entry greater than u, as the source's sampler searches.
  function UpperBound(cdf: seq<real>, u: real, i: nat): (k: nat)
    requires i <= |cdf|
    ensures i <= k <= |cdf| && (forall j :: i <= j < k ==> cdf[j] <= u) && (k < |cdf| ==> cdf[k] > u)
    decreases |cdf| - i
  {
    if i < |cdf| && cdf[i] <= u then UpperBound(cdf, u, i + 1) else i
  }

  datatype Sizes = Sizes(cdf: seq<real>, singleP: real, maxSize: nat)

  predicate UsableSizes(z: Sizes) {
    z.maxSize >= 2 && |z.cdf| == z.maxSize - 1
  }

  ghost function SizeDrawn(words: Words64, z: Sizes, at: nat): (r: (nat, nat))
    requires UsableSizes(z)
    ensures 1 <= r.0 <= z.maxSize
  {
    var (single, next) := RandomKernel.Toss(words, z.singleP, at);
    if single then (1, next)
    else (Min(2 + Min(UpperBound(z.cdf, RandomKernel.Fraction(words.At(next)), 0), |z.cdf| - 1), z.maxSize), next + 1)
  }

  // Where the households from the cursor on begin, and the end of the last one.
  ghost function Cuts(words: Words64, z: Sizes, cursor: nat, n: nat, at: nat): (r: (seq<nat>, nat))
    requires UsableSizes(z) && cursor <= n
    ensures |r.0| > 0 && r.0[0] == cursor
    decreases n - cursor
  {
    if cursor == n then
      ([cursor], at)
    else
      var (size, next) := SizeDrawn(words, z, at);
      var (rest, end) := Cuts(words, z, cursor + Min(size, n - cursor), n, next);
      ([cursor] + rest, end)
  }

  /** Every household has the size drawn for it, but for the last, which takes who
      is left: no household exceeds the largest size. */
  lemma {:induction false} CutsAreSizes(words: Words64, z: Sizes, cursor: nat, n: nat, at: nat, h: nat)
    requires UsableSizes(z) && cursor <= n && h + 1 < |Cuts(words, z, cursor, n, at).0|
    ensures var cuts := Cuts(words, z, cursor, n, at).0;
            && 1 <= cuts[h + 1] - cuts[h] <= z.maxSize
            && (h + 2 < |cuts| ==> exists p: nat :: cuts[h + 1] - cuts[h] == SizeDrawn(words, z, p).0)
    decreases n - cursor
  {
    var (size, next) := SizeDrawn(words, z, at);
    var after := cursor + Min(size, n - cursor);
    if h > 0 {
      CutsAreSizes(words, z, after, n, next, h - 1);
    } else {
      assert Cuts(words, z, cursor, n, at).0[1] == after;
      assert size == SizeDrawn(words, z, at).0;
    }
  }

  method DrawHouseholdSize(rng: RandomKernel.Rng, z: Sizes) returns (size: nat)
    requires UsableSizes(z)
    modifies rng
    ensures (size, rng.pos) == SizeDrawn(rng.words, z, old(rng.pos))
  {
    var single := rng.Coin(z.singleP);
    if single {
      return 1;
    }
    var u := rng.NextDouble();
    var i := Min(UpperBound(z.cdf, u, 0), |z.cdf| - 1);
    size := Min(2 + i, z.maxSize);
  }

  method Stamp(householdOf: seq<nat>, people: seq<nat>, h: nat) returns (r: seq<nat>)
    requires forall k :: 0 <= k < |people| ==> 1 <= people[k] <= |householdOf|
    ensures |r| == |householdOf|
    ensures forall i: nat :: i < |r| ==> r[i] == if i + 1 in people then h else householdOf[i]
  {
    r := householdOf;
    for k := 0 to |people|
      invariant |r| == |householdOf|
      invariant forall i: nat :: i < |r| ==> r[i] == if i + 1 in people[..k] then h else householdOf[i]
    {
      r := r[people[k] - 1 := h];
    }
  }

  const NO_HOUSEHOLD := TWO32 - 1

  /** Shuffles the population and cuts it into households of sampled sizes. */
  method MakePartition(rng: RandomKernel.Rng, personCount: nat, z: Sizes) returns (out: Partition)
    requires Fair(rng.words) && personCount < TWO32 && UsableSizes(z)
    modifies rng
    ensures Sound(out, personCount)
    ensures var (order, next) := Finished(rng.words, Identity(personCount), old(rng.pos));
            out.members == order && (out.offsets, rng.pos) == Cuts(rng.words, z, 0, personCount, next)
  {
    hide IsPopulation, CutUpTo, Finished, SizeDrawn;
    if personCount == 0 {
      out := Partition([], [0], []);
      NobodyCut(out);
      ShuffleEnds(rng.words, Identity(0), 0, rng.pos);
      return;
    }
    ghost var at := rng.pos;
    var permuted := ShuffleIdentityPermutation(rng, personCount);
    FinishedPopulation(rng.words, personCount, at);
    Known(permuted[..], personCount);
    out := CutHouseholds(rng, permuted[..], personCount, z);
  }

  // Cuts the shuffled people from the front, a drawn size at a time.
  method CutHouseholds(rng: RandomKernel.Rng, members: seq<nat>, personCount: nat, z: Sizes) returns (out: Partition)
    requires UsableSizes(z) && IsPopulation(members, personCount) && |members| == personCount
    modifies rng
    ensures out.members == members && |out.householdOf| == personCount && CutUpTo(out, personCount)
    ensures (out.offsets, rng.pos) == Cuts(rng.words, z, 0, personCount, old(rng.pos))
  {
    hide IsPopulation, CutUpTo, SizeDrawn, Cuts, UsableSizes;
    out := Partition(members, [0], seq(personCount, i => NO_HOUSEHOLD));
    NothingCut(out);
    var cursor, household := 0, 0;
    ghost var cuts := Cuts(rng.words, z, 0, personCount, rng.pos);
    while cursor < personCount
      invariant |out.householdOf| == personCount && out.members == members
      invariant CutUpTo(out, cursor) && cursor <= personCount && |out.offsets| == household + 1
      invariant out.offsets[..household] + Cuts(rng.words, z, cursor, personCount, rng.pos).0 == cuts.0
      invariant Cuts(rng.words, z, cursor, personCount, rng.pos).1 == cuts.1
      decreases personCount - cursor
    {
      CutEnd(out, cursor);
      Known(members, personCount);
      CutsNext(rng.words, z, cursor, personCount, rng.pos);
      var desired := DrawHouseholdSize(rng, z);
      var take := Min(desired, personCount - cursor);
      ghost var rest := Cuts(rng.words, z, cursor + take, personCount, rng.pos).0;
      NextCut(out.offsets, cursor, rest, cursor + take);
      var householdOf := Stamp(out.householdOf, members[cursor..cursor + take], household);
      CutNext(out, cursor, take, householdOf, personCount);
      cursor := cursor + take;
      out := Partition(members, out.offsets + [cursor], householdOf);
      household := household + 1;
    }
    CutEnd(out, cursor);
    CutsNext(rng.words, z, cursor, personCount, rng.pos);
    assert out.offsets[..household] + [cursor] == out.offsets;
  }

  lemma CutsNext(words: Words64, z: Sizes, cursor: nat, n: nat, at: nat)
    requires UsableSizes(z) && cursor <= n
    ensures cursor == n ==> Cuts(words, z, cursor, n, at) == ([cursor], at)
    ensures cursor < n ==>
      var (size, next) := SizeDrawn(words, z, at);
      var (rest, end) := Cuts(words, z, cursor + Min(size, n - cursor), n, next);
      Cuts(words, z, cursor, n, at) == ([cursor] + rest, end)
  {
  }

  lemma CutEnd(p: Partition, cursor: nat)
    requires CutUpTo(p, cursor)
    ensures |p.offsets| > 0 && p.offsets[|p.offsets| - 1] == cursor
  {
  }

  lemma NextCut(offsets: seq<nat>, cursor: nat, rest: seq<nat>, next: nat)
    requires offsets != [] && offsets[|offsets| - 1] == cursor
    ensures (offsets + [next])[..|offsets|] + rest == offsets[..|offsets| - 1] + ([cursor] + rest)
  {
    assert (offsets + [next])[..|offsets|] == offsets[..|offsets| - 1] + [cursor];
  }

  lemma NobodyCut(p: Partition)
    requires p == Partition([], [0], [])
    ensures CutUpTo(p, 0) && IsPopulation([], 0)
  {
  }

  lemma NothingCut(p: Partition)
    requires p.offsets == [0]
    ensures CutUpTo(p, 0)
  {
  }

  lemma Known(members: seq<nat>, n: nat)
    requires IsPopulation(members, n)
    ensures |members| == n && forall k :: 0 <= k < n ==> 1 <= members[k] <= n
  {
    forall k | 0 <= k < n ensures 1 <= members[k] <= n {
      assert members[k] in members;
    }
  }

  lemma CutNext(p: Partition, cursor: nat, take: nat, householdOf: seq<nat>, n: nat)
    requires CutUpTo(p, cursor) && IsPopulation(p.members, n) && take > 0 && cursor + take <= n == |householdOf| == |p.householdOf|
    requires var people := p.members[cursor..cursor + take];
             forall i: nat :: i < n ==> householdOf[i] == if i + 1 in people then |p.offsets| - 1 else p.householdOf[i]
    ensures CutUpTo(Partition(p.members, p.offsets + [cursor + take], householdOf), cursor + take)
  {
    hide IsPopulation, Indexed;
    Known(p.members, n);
    var q := Partition(p.members, p.offsets + [cursor + take], householdOf);
    forall h: nat, k: nat | h + 1 < |q.offsets| && k < |q.members| ensures Indexed(q, h, k) {
      if h + 2 == |q.offsets| {
        NewIndexed(p, cursor, take, householdOf, n, k);
      } else {
        assert Indexed(p, h, k) && RisesAt(p.offsets, h, cursor);
        OldIndexed(p, cursor, take, householdOf, n, h, k);
      }
    }
    var end := cursor + take;
    forall h: nat | h < |q.offsets| - 1 ensures RisesAt(q.offsets, h, end) {
      assert h < |p.offsets| - 1 ==> RisesAt(p.offsets, h, cursor);
    }
  }

  lemma NewIndexed(p: Partition, cursor: nat, take: nat, householdOf: seq<nat>, n: nat, k: nat)
    requires |p.offsets| > 0 && p.offsets[|p.offsets| - 1] == cursor && IsPopulation(p.members, n)
    requires take > 0 && cursor + take <= n == |householdOf| == |p.householdOf| && k < n
    requires var people := p.members[cursor..cursor + take];
             forall i: nat :: i < n ==> householdOf[i] == if i + 1 in people then |p.offsets| - 1 else p.householdOf[i]
    ensures Indexed(Partition(p.members, p.offsets + [cursor + take], householdOf), |p.offsets| - 1, k)
  {
    hide IsPopulation;
    Known(p.members, n);
    if cursor <= k < cursor + take {
      assert p.members[cursor..cursor + take][k - cursor] == p.members[k];
    }
  }

  lemma OldIndexed(p: Partition, cursor: nat, take: nat, householdOf: seq<nat>, n: nat, h: nat, k: nat)
    requires h + 1 < |p.offsets| && p.offsets[h + 1] <= cursor && IsPopulation(p.members, n)
    requires take > 0 && cursor + take <= n == |householdOf| == |p.householdOf| && k < n && Indexed(p, h, k)
    requires var people := p.members[cursor..cursor + take];
             forall i: nat :: i < n ==> householdOf[i] == if i + 1 in people then |p.offsets| - 1 else p.householdOf[i]
    ensures Indexed(Partition(p.members, p.offsets + [cursor + take], householdOf), h, k)
  {
    Known(p.members, n);
    if k < cursor {
      AllDistinct(p.members, n);
      var people := p.members[cursor..cursor + take];
      forall j | 0 <= j < |people| ensures people[j] != p.members[k] {
        assert people[j] == p.members[cursor + j];
      }
    }
  }

  lemma AllDistinct(members: seq<nat>, n: nat)
    requires IsPopulation(members, n)
    ensures forall i, j :: 0 <= i < j < |members| ==> members[i] != members[j]
  {
  }

  // ---- What the partition is ----

  function HouseholdMembers(p: Partition, h: nat): seq<nat>
    requires h + 1 < |p.offsets| && p.offsets[h] <= p.offsets[h + 1] <= |p.members|
  {
    p.members[p.offsets[h]..p.offsets[h + 1]]
  }

  lemma {:induction false} OffsetsRise(p: Partition, n: nat, g: nat, h: nat)
    requires CutUpTo(p, n) && g < h < |p.offsets|
    ensures p.offsets[g] < p.offsets[h]
  {
    assert RisesAt(p.offsets, h - 1, n);
    if g + 1 < h {
      OffsetsRise(p, n, g, h - 1);
    }
  }

  lemma {:induction false} FindHousehold(p: Partition, n: nat, k: nat, h: nat)
    requires CutUpTo(p, n) && h < |p.offsets| && k < p.offsets[h]
    ensures exists g: nat :: g < h && LivesIn(p, g, k)
  {
    if k < p.offsets[h - 1] {
      FindHousehold(p, n, k, h - 1);
    } else {
      assert RisesAt(p.offsets, h - 1, n);
      assert LivesIn(p, h - 1, k);
    }
  }

  /** Everyone lives in exactly one household, the one householdOf names. */
  lemma HouseholdOfIsInverse(p: Partition, n: nat, person: nat, h: nat)
    requires Sound(p, n) && 1 <= person <= n && h < p.Count()
    ensures p.offsets[h] < p.offsets[h + 1] <= n && p.householdOf[person - 1] < p.Count()
    ensures person in HouseholdMembers(p, h) <==> p.householdOf[person - 1] == h
  {
    hide CutUpTo;
    assert person in p.members;
    var k: nat :| k < n && p.members[k] == person;
    CutFacts(p, n, h);
    FindHousehold(p, n, k, |p.offsets| - 1);
    var g: nat :| g < |p.offsets| - 1 && LivesIn(p, g, k);
    IndexedAt(p, n, g, k);
    assert HouseholdMembers(p, h) == p.members[p.offsets[h]..p.offsets[h + 1]];
    if g == h {
      assert HouseholdMembers(p, h)[k - p.offsets[h]] == person;
    } else if g < h {
      OffsetsAgree(p, n, g + 1, h);
    } else {
      OffsetsAgree(p, n, h + 1, g);
    }
  }

  lemma OffsetsAgree(p: Partition, n: nat, g: nat, h: nat)
    requires CutUpTo(p, n) && g <= h < |p.offsets|
    ensures p.offsets[g] <= p.offsets[h]
  {
    if g < h {
      OffsetsRise(p, n, g, h);
    }
  }

  lemma CutFacts(p: Partition, n: nat, h: nat)
    requires CutUpTo(p, n) && h < p.Count()
    ensures p.offsets[h] < p.offsets[h + 1] <= n && p.offsets[|p.offsets| - 1] == n
  {
    assert RisesAt(p.offsets, h, n);
  }

  lemma IndexedAt(p: Partition, n: nat, g: nat, k: nat)
    requires CutUpTo(p, n) && g + 1 < |p.offsets| && k < |p.members| && LivesIn(p, g, k)
    ensures 1 <= p.members[k] <= |p.householdOf| && p.householdOf[p.members[k] - 1] == g
  {
    assert Indexed(p, g, k);
  }
}
