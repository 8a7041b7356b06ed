/** Nothing the samplers may return is out of reach: some fair word stream gives
    any chosen coin and any chosen subset. */
module Reachability {
  import opened Words
  import opened Lists
  import opened Counting
  import opened Bounded
  import opened Sampling
  import RandomKernel

  ghost predicate Begins(words: Words64, first: seq<u64>) {
    forall k :: 0 <= k < |first| ==> words.At(k) == first[k]
  }

  // The given words, then the largest for ever.
  ghost function Stream(first: seq<u64>): (words: Words64)
    ensures Begins(words, first)
  {
    Words64((p: nat) => if p < |first| then first[p] else TWO64 - 1)
  }

  lemma StreamIsFair(first: seq<u64>)
    ensures Fair(Stream(first))
  {
    forall range: nat, at: nat | 1 < range < TWO64 ensures AcceptsLater(Stream(first), range, at) {
      LargestWordAccepted(range, TWO64);
      assert at <= at + |first| && Accepted(Stream(first).At(at + |first|), range);
    }
  }

  lemma BeginsShorter(words: Words64, first: seq<u64>, more: seq<u64>)
    requires Begins(words, first + more)
    ensures Begins(words, first)
  {
    forall k | 0 <= k < |first| ensures words.At(k) == first[k] {
      assert words.At(k) == (first + more)[k];
    }
  }

  lemma WordFor(v: nat, range: nat) returns (w: u64)
    requires v < range && 1 < range < TWO64
    ensures Accepted(w, range) && High(w, range) == v
  {
    EveryResultEquallyLikely(v, range);
    SomeWord(TWO64, range);
    assert AcceptedWordsFor(v, range) != {};
    w :| w in AcceptedWordsFor(v, range);
  }

  lemma SomeWord(m: nat, r: nat)
    requires 0 < r <= m
    ensures m / r > 0
  {
  }

  lemma DrawHere(words: Words64, range: nat, at: nat)
    requires Fair(words) && 1 < range < TWO64 && Accepted(words.At(at), range)
    ensures Draw(words, range, at) == (High(words.At(at), range), at + 1)
  {
    assert IsFirstAccepted(words, range, at, at);
    var p := FirstAccepted(words, range, at);
    assert IsFirstAccepted(words, range, at, p);
  }

  // Every stream that begins so draws the given values.
  ghost predicate Forces(first: seq<u64>, ranges: seq<nat>, at: nat, d: seq<nat>)
    requires WordRanges(ranges)
  {
    forall words :: Fair(words) && Begins(words, first) ==> Draws(words, ranges, at) == (d, |first|)
  }

  /** Any vector of draws within its ranges is drawn. */
  lemma {:induction false} ForceDraws(first: seq<u64>, ranges: seq<nat>, d: seq<nat>) returns (all: seq<u64>)
    requires WordRanges(ranges) && Within(d, ranges)
    ensures first <= all && Forces(all, ranges, |first|, d)
  {
    hide Fair, Begins, Draw, Accepted, High;
    if ranges == [] {
      all := first;
    } else {
      var k := |ranges| - 1;
      var before := ForceDraws(first, ranges[..k], d[..k]);
      var more := WordFrom(d[k], ranges[k]);
      all := before + more;
      forall words | Fair(words) && Begins(words, all) ensures Draws(words, ranges, |first|) == (d, |all|) {
        BeginsShorter(words, before, more);
        assert Draws(words, ranges[..k], |first|) == (d[..k], |before|);
        NextDraw(words, before, more, d[k], ranges[k]);
        assert d == d[..k] + [d[k]];
      }
    }
  }

  // A range of one takes no word.
  lemma WordFrom(v: nat, range: nat) returns (more: seq<u64>)
    requires v < range < TWO64
    ensures if range == 1 then more == [] else |more| == 1 && Accepted(more[0], range) && High(more[0], range) == v
  {
    if range == 1 {
      more := [];
    } else {
      var w := WordFor(v, range);
      more := [w];
    }
  }

  lemma NextDraw(words: Words64, before: seq<u64>, more: seq<u64>, v: nat, range: nat)
    requires Fair(words) && Begins(words, before + more) && v < range < TWO64
    requires if range == 1 then more == [] else |more| == 1 && Accepted(more[0], range) && High(more[0], range) == v
    ensures Draw(words, range, |before|) == (v, |before + more|)
  {
    hide Fair, Accepted, High;
    if range > 1 {
      assert words.At(|before|) == (before + more)[|before|];
      DrawHere(words, range, |before|);
    }
  }

  ghost predicate ForcesSet(first: seq<u64>, n: nat, k: nat, at: nat, s: set<nat>)
    requires 0 < k <= n < TWO64
  {
    forall words :: Fair(words) && Begins(words, first) ==> Elements(RandomKernel.Chosen(words, n, k, at).0) == s
  }

  /** Any k of n indices are chosen by sampling without replacement, whatever words
      came before. */
  lemma ForceChoice(first: seq<u64>, n: nat, k: nat, s: set<nat>) returns (all: seq<u64>)
    requires 0 < k <= n < TWO64 && |s| == k && UpTo(s, n)
    ensures first <= all && ForcesSet(all, n, k, |first|, s)
  {
    hide Fair, Begins, Floyd, Shuffled, Factorial, FloydFiber, ShuffleFiber;
    if RandomKernel.UsesFloyd(n, k) {
      FloydFiberSize(n - k, k, s);
      assert FloydFiber(n - k, k, s) != {};
      var d :| d in FloydFiber(n - k, k, s);
      FloydFiberMember(n - k, k, s, d);
      all := ForceDraws(first, FloydRanges(n - k, k), d);
    } else {
      ShuffleFiberSize(n, k, s);
      assert ShuffleFiber(n, k, s) != {};
      var d :| d in ShuffleFiber(n, k, s);
      ShuffleFiberMember(n, k, s, d);
      all := ForceDraws(first, ShuffleRanges(n, k), d);
    }
  }

  // A coin that can fall on heads does.
  lemma ForceHeads(first: seq<u64>, p: real) returns (all: seq<u64>)
    requires p > 0.0
    ensures first <= all
    ensures forall words :: Begins(words, all) ==> RandomKernel.Toss(words, p, |first|) == (true, |all|)
  {
    if p >= 1.0 {
      all := first;
    } else {
      all := first + [0];
      forall words | Begins(words, all) ensures RandomKernel.Toss(words, p, |first|) == (true, |all|) {
        assert words.At(|first|) == all[|first|];
        assert RandomKernel.Fraction(0) == 0.0;
      }
    }
  }
}
