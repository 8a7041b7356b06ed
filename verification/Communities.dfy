/** Blocks of consecutive people. */
module CommunityBlocks {
  import opened Words
  import Bounded
  import RandomKernel

  datatype Communities = Communities(starts: seq<nat>, ends: seq<nat>, memberOf: seq<nat>) {
    function Count(): nat {
      |starts|
    }
  }

  predicate InBlock(c: Communities, b: nat, i: nat)
    requires b < |c.starts| == |c.ends|
  {
    c.starts[b] <= i < c.ends[b]
  }

  predicate MemberIn(c: Communities, i: nat)
    requires i < |c.memberOf| && |c.starts| == |c.ends|
  {
    c.memberOf[i] < |c.starts| && InBlock(c, c.memberOf[i], i)
  }

  // The blocks so far cover the people below the cursor, in order, none empty.
  ghost predicate Covers(c: Communities, cursor: nat) {
    && |c.starts| == |c.ends| && cursor <= |c.memberOf|
    && (c.starts == [] <==> cursor == 0)
    && (c.starts != [] ==> c.starts[0] == 0 && c.ends[|c.ends| - 1] == cursor)
    && (forall b: nat :: b < |c.starts| ==> c.starts[b] < c.ends[b])
    && (forall b: nat :: b + 1 < |c.starts| ==> c.ends[b] == c.starts[b + 1])
    && forall i: nat :: i < cursor ==> MemberIn(c, i)
  }

  ghost predicate Tiles(c: Communities, n: nat) {
    |c.memberOf| == n && Covers(c, n)
  }

  // Every block but the last is of an allowed size.
  ghost predicate Sized(c: Communities, cMin: int, cMax: int, n: nat) {
    |c.starts| == |c.ends| &&
    forall b: nat :: b < |c.starts| ==> BlockSized(c.starts[b], c.ends[b], cMin, cMax, n)
  }

  predicate BlockSized(start: int, end: int, cMin: int, cMax: int, n: nat) {
    end - start <= Max(cMin, cMax) && (end < n ==> cMin <= end - start)
  }

  lemma NextBlock(c: Communities, cursor: nat, end: nat, members: seq<nat>)
    requires Covers(c, cursor) && cursor < end <= |c.memberOf| == |members|
    requires members[..cursor] == c.memberOf[..cursor] && forall i :: cursor <= i < end ==> members[i] == |c.starts|
    ensures Covers(Communities(c.starts + [cursor], c.ends + [end], members), end)
  {
    var d := Communities(c.starts + [cursor], c.ends + [end], members);
    forall i: nat | i < end ensures MemberIn(d, i) {
      if i < cursor {
        assert MemberIn(c, i) && members[i] == members[..cursor][i] == c.memberOf[i];
      }
    }
  }

  predicate UsableBounds(n: nat, cMin: int, cMax: int) {
    1 <= cMin < TWO31 && cMax < TWO31 && n + Max(cMin, cMax) <= TWO32
  }

  // Where the blocks from the cursor on end: each of the size drawn at its turn.
  ghost function Ends(words: Words64, n: nat, cMin: int, cMax: int, cursor: nat, at: nat): (r: (seq<nat>, nat))
    requires Bounded.Fair(words) && UsableBounds(n, cMin, cMax) && cursor <= n
    decreases n - cursor
  {
    if cursor == n then
      ([], at)
    else
      var (offset, next) := Bounded.Draw(words, Max(1, cMax - cMin + 1), at);
      var end := Min(n, cursor + cMin + offset);
      var (rest, last) := Ends(words, n, cMin, cMax, end, next);
      ([end] + rest, last)
  }

  lemma EndsNext(words: Words64, n: nat, cMin: int, cMax: int, cursor: nat, at: nat)
    requires Bounded.Fair(words) && UsableBounds(n, cMin, cMax) && cursor < n
    ensures var (offset, next) := Bounded.Draw(words, Max(1, cMax - cMin + 1), at);
            var end := Min(n, cursor + cMin + offset);
            && Ends(words, n, cMin, cMax, cursor, at).0 == [end] + Ends(words, n, cMin, cMax, end, next).0
            && Ends(words, n, cMin, cMax, cursor, at).1 == Ends(words, n, cMin, cMax, end, next).1
  {
  }

  lemma EndsDone(words: Words64, n: nat, cMin: int, cMax: int, at: nat)
    requires Bounded.Fair(words) && UsableBounds(n, cMin, cMax)
    ensures Ends(words, n, cMin, cMax, n, at) == ([], at)
  {
  }

  lemma AppendEnd(ends: seq<nat>, end: nat, rest: seq<nat>)
    ensures ends + ([end] + rest) == ends + [end] + rest
  {
  }

  /** Cuts the people into blocks of sampled sizes. Sizes and ends are 32-bit. */
  method BuildCommunities(rng: RandomKernel.Rng, personCount: nat, cMin: int, cMax: int) returns (out: Communities)
    requires Bounded.Fair(rng.words)
    requires UsableBounds(personCount, cMin, cMax)
    modifies rng
    ensures (out.ends, rng.pos) == Ends(rng.words, personCount, cMin, cMax, 0, old(rng.pos))
    ensures Tiles(out, personCount) && Sized(out, cMin, cMax, personCount)
  {
    hide Covers, Sized, BlockSized, Bounded.Fair, Bounded.Draw, Ends;
    ghost var goal := Ends(rng.words, personCount, cMin, cMax, 0, rng.pos);
    out := Communities([], [], []);
    NoBlocks(0);
    NoneSized(out, cMin, cMax, personCount);
    if personCount == 0 {
      EndsDone(rng.words, personCount, cMin, cMax, rng.pos);
      return;
    }
    out := Communities([], [], seq(personCount, i => 0));
    NoBlocks(personCount);
    NoneSized(out, cMin, cMax, personCount);
    var sizeRange := Max(1, cMax - cMin + 1);
    var cursor := 0;
    assert goal.0 == out.ends + goal.0;
    while cursor < personCount
      invariant cursor <= personCount && out.ends + Ends(rng.words, personCount, cMin, cMax, cursor, rng.pos).0 == goal.0
      invariant Ends(rng.words, personCount, cMin, cMax, cursor, rng.pos).1 == goal.1
      invariant cursor <= personCount == |out.memberOf| && Covers(out, cursor) && Sized(out, cMin, cMax, personCount)
      decreases personCount - cursor
    {
      EndsNext(rng.words, personCount, cMin, cMax, cursor, rng.pos);
      var offset := rng.UniformInt(0, sizeRange);
      var size := (cMin + offset.value) % TWO32;
      var end := Min(personCount, (cursor + size) % TWO32);
      FitsWord(cMin, offset.value, cursor, cMax, personCount);
      AppendEnd(out.ends, end, Ends(rng.words, personCount, cMin, cMax, end, rng.pos).0);
      var members := Assign(out.memberOf, cursor, end, |out.starts|);
      NextBlock(out, cursor, end, members);
      SizedNext(out, cursor, end, members, cMin, cMax, personCount);
      out := Communities(out.starts + [cursor], out.ends + [end], members);
      cursor := end;
    }
    EndsDone(rng.words, personCount, cMin, cMax, rng.pos);
    assert out.ends + [] == out.ends;
  }

  // Where a block of a sampled size ends, in 32-bit arithmetic.
  function BlockEnd(n: nat, cursor: nat, size: nat): int {
    Min(n, (cursor + size % TWO32) % TWO32)
  }

  predicate MayBe(size: nat, cMin: int, cMax: int) {
    cMin <= size < cMin + Max(1, cMax - cMin + 1)
  }

  /** Every block advances exactly when the least size is positive and people and
      greatest size fit 32 bits; otherwise some draw stands still or goes back. */
  lemma AdvancesExactlyWhen(n: nat, cMin: int, cMax: int)
    requires 0 < n < TWO32 && 0 <= cMin < TWO31 && cMax < TWO31
    ensures (forall cursor: nat, size: nat :: cursor < n && MayBe(size, cMin, cMax) ==> cursor < BlockEnd(n, cursor, size)) <==>
              cMin >= 1 && n + Max(cMin, cMax) <= TWO32
  {
    hide BlockEnd;
    var greatest := Max(cMin, cMax);
    if cMin >= 1 && n + greatest <= TWO32 {
      forall cursor: nat, size: nat | cursor < n && MayBe(size, cMin, cMax) ensures cursor < BlockEnd(n, cursor, size) {
        EndAdvances(n, cursor, size);
      }
    } else if cMin == 0 {
      EndStays(n);
      assert MayBe(0, cMin, cMax);
    } else {
      EndWraps(n, n - 1, greatest);
      assert MayBe(greatest, cMin, cMax);
    }
  }

  lemma EndAdvances(n: nat, cursor: nat, size: nat)
    requires cursor < n && 1 <= size && n + size <= TWO32
    ensures cursor < BlockEnd(n, cursor, size)
  {
  }

  lemma EndStays(n: nat)
    ensures BlockEnd(n, 0, 0) == 0
  {
  }

  lemma EndWraps(n: nat, cursor: nat, size: nat)
    requires cursor < n < TWO32 && size < TWO31 && TWO32 <= cursor + size
    ensures BlockEnd(n, cursor, size) < cursor
  {
  }

  lemma FitsWord(cMin: int, offset: int, cursor: nat, cMax: int, n: nat)
    requires 1 <= cMin && 0 <= offset < Max(1, cMax - cMin + 1) && cursor < n && n + Max(cMin, cMax) <= TWO32
    ensures (cMin + offset) % TWO32 == cMin + offset && (cursor + (cMin + offset)) % TWO32 == cursor + cMin + offset
    ensures var end := Min(n, cursor + cMin + offset); cursor < end <= n && BlockSized(cursor, end, cMin, cMax, n)
  {
  }

  method Assign(members: seq<nat>, from: nat, end: nat, block: nat) returns (r: seq<nat>)
    requires from <= end <= |members|
    ensures |r| == |members| && r[..from] == members[..from]
    ensures forall k :: from <= k < end ==> r[k] == block
  {
    r := members;
    for i := from to end
      invariant |r| == |members| && r[..from] == members[..from] && forall k :: from <= k < i ==> r[k] == block
    {
      r := r[i := block];
    }
  }

  lemma SizedNext(c: Communities, cursor: nat, end: nat, members: seq<nat>, cMin: int, cMax: int, n: nat)
    requires Sized(c, cMin, cMax, n) && BlockSized(cursor, end, cMin, cMax, n)
    ensures Sized(Communities(c.starts + [cursor], c.ends + [end], members), cMin, cMax, n)
  {
  }

  lemma NoneSized(c: Communities, cMin: int, cMax: int, n: nat)
    requires c.starts == c.ends == []
    ensures Sized(c, cMin, cMax, n)
  {
  }

  lemma NoBlocks(n: nat)
    ensures Covers(Communities([], [], seq(n, i => 0)), 0)
    ensures n == 0 ==> seq(n, i => 0) == []
  {
  }

  // Blocks end where later ones have not begun.
  lemma {:induction false} BlocksInOrder(c: Communities, n: nat, a: nat, b: nat)
    requires Tiles(c, n) && a < b < |c.starts|
    ensures c.ends[a] <= c.starts[b]
  {
    if a + 1 < b {
      BlocksInOrder(c, n, a, b - 1);
    }
  }

  /** A person is in exactly the block they are a member of. */
  lemma OneBlock(c: Communities, n: nat, i: nat, b: nat)
    requires Tiles(c, n) && i < n && b < |c.starts|
    ensures InBlock(c, b, i) <==> c.memberOf[i] == b
  {
    assert MemberIn(c, i);
    var m := c.memberOf[i];
    if m < b {
      BlocksInOrder(c, n, m, b);
    } else if b < m {
      BlocksInOrder(c, n, b, m);
    }
  }

  lemma BlockInside(c: Communities, n: nat, b: nat)
    requires Tiles(c, n) && b < |c.starts|
    ensures c.starts[b] < c.ends[b] <= n
  {
    if b < |c.starts| - 1 {
      BlocksInOrder(c, n, b, |c.starts| - 1);
    }
  }
}
