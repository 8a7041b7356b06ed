/** Sampling k of n indices without replacement: what the two branches compute
    from their draws, and that both give every k-subset the same weight. */
module Sampling {
  import opened Counting
  import opened Lists

  ghost predicate UpTo(s: set<nat>, n: nat) {
    forall x :: x in s ==> x < n
  }

  lemma DistinctSnoc(s: seq<nat>, x: nat)
    requires Distinct(s) && x !in s
    ensures Distinct(s + [x])
  {
  }

  // ---- Floyd's sampler ----

  // Draw i ranges over 0..lo+i, both ends included.
  function FloydRanges(lo: nat, k: nat): (r: seq<nat>)
    ensures |r| == k && forall i :: 0 <= i < k ==> r[i] == lo + i + 1
  {
    seq(k, i requires 0 <= i < k => lo + i + 1)
  }

  /** The indices Floyd's loop has collected after the given draws, starting
      at lo: a draw already collected is replaced by the loop counter. */
  function Floyd(lo: nat, draws: seq<nat>): seq<nat> {
    if draws == [] then
      []
    else
      var i := |draws| - 1;
      Collect(Floyd(lo, draws[..i]), lo + i, draws[i])
  }

  function Collect(out: seq<nat>, j: nat, t: nat): seq<nat> {
    out + [if t in out then j else t]
  }

  lemma FloydRangesSnoc(lo: nat, draws: seq<nat>)
    requires draws != []
    ensures Within(draws, FloydRanges(lo, |draws|)) <==>
            Within(draws[..|draws| - 1], FloydRanges(lo, |draws| - 1)) && draws[|draws| - 1] < lo + |draws|
  {
    assert FloydRanges(lo, |draws|)[..|draws| - 1] == FloydRanges(lo, |draws| - 1);
    WithinSnoc(draws, FloydRanges(lo, |draws|));
  }

  lemma {:induction false} FloydIsASample(lo: nat, draws: seq<nat>)
    requires Within(draws, FloydRanges(lo, |draws|))
    ensures |Floyd(lo, draws)| == |draws| && Distinct(Floyd(lo, draws))
    ensures (forall x :: x in Floyd(lo, draws) ==> x < lo + |draws|) && UpTo(Elements(Floyd(lo, draws)), lo + |draws|)
  {
    if draws != [] {
      var i := |draws| - 1;
      FloydRangesSnoc(lo, draws);
      FloydIsASample(lo, draws[..i]);
      var prev := Floyd(lo, draws[..i]);
      DistinctSnoc(prev, if draws[i] in prev then lo + i else draws[i]);
    }
  }

  // The draw vector d is in range and its sample is the set s.
  ghost predicate FloydHits(lo: nat, k: nat, s: set<nat>, d: seq<nat>) {
    Within(d, FloydRanges(lo, k)) && Elements(Floyd(lo, d)) == s
  }

  ghost function FloydFiber(lo: nat, k: nat, s: set<nat>): set<seq<nat>> {
    set d | d in Vectors(FloydRanges(lo, k)) && FloydHits(lo, k, s, d)
  }

  lemma FloydFiberMember(lo: nat, k: nat, s: set<nat>, d: seq<nat>)
    ensures d in FloydFiber(lo, k, s) <==> FloydHits(lo, k, s, d)
  {
    VectorsMember(d, FloydRanges(lo, k));
  }

  // What must have been collected before the last draw t completed the set s.
  ghost function FloydPrevious(lo: nat, k: nat, s: set<nat>): nat -> set<seq<nat>>
    requires k > 0
  {
    t => FloydFiber(lo, k - 1, FloydBefore(lo + k - 1, s, t))
  }

  ghost function FloydBefore(j: nat, s: set<nat>, t: nat): set<nat> {
    s - {if j in s then j else t}
  }

  lemma FloydLastDraw(lo: nat, k: nat, s: set<nat>, d: seq<nat>)
    requires k > 0 && |d| == k && UpTo(s, lo + k)
    ensures FloydHits(lo, k, s, d) <==>
            d[k - 1] in s && FloydHits(lo, k - 1, FloydBefore(lo + k - 1, s, d[k - 1]), d[..k - 1])
  {
    hide Within, UpTo, Distinct, FloydBefore;
    var t, init := d[k - 1], d[..k - 1];
    FloydRangesSnoc(lo, d);
    if Within(init, FloydRanges(lo, k - 1)) {
      FloydIsASample(lo, init);
      FloydLastElement(lo + k - 1, t, Elements(Floyd(lo, init)), s);
      ElemsSnoc(Floyd(lo, init), if t in Floyd(lo, init) then lo + k - 1 else t);
    }
  }

  lemma ElemsSnoc(s: seq<nat>, x: nat)
    ensures Elements(s + [x]) == Elements(s) + {x}
  {
  }

  // Adding the last element of a Floyd round, read backwards from the result.
  lemma FloydLastElement(j: nat, t: nat, prev: set<nat>, s: set<nat>)
    requires UpTo(prev, j) && UpTo(s, j + 1)
    ensures (prev + {if t in prev then j else t} == s && t <= j) <==> (t in s && prev == FloydBefore(j, s, t))
  {
    var e, r := if t in prev then j else t, if j in s then j else t;
    if t in s && prev == s - {r} {
      assert e == r || (e == t == r);
      assert prev + {r} == s;
    }
    if prev + {e} == s && t <= j {
      assert e == r;
      assert e !in prev;
    }
  }

  /** Exactly k! draw vectors give each k-subset of the indices below lo + k. */
  lemma {:induction false} FloydFiberSize(lo: nat, k: nat, s: set<nat>)
    requires |s| == k && UpTo(s, lo + k)
    ensures |FloydFiber(lo, k, s)| == Factorial(k)
  {
    hide FloydFiber, SnocAll, Pairs, Floyd, Vectors;
    if k == 0 {
      FloydFiberEmpty(lo);
    } else {
      var j, g := lo + k - 1, FloydPrevious(lo, k, s);
      forall t | t in s ensures |g(t)| == Factorial(k - 1) {
        var s' := FloydBefore(j, s, t);
        assert UpTo(s', lo + (k - 1));
        FloydFiberSize(lo, k - 1, s');
      }
      PairsSize(s, g, Factorial(k - 1));
      SnocAllSize(Pairs(s, g));
      FloydFiberIsSnoc(lo, k, s);
    }
  }

  lemma FloydFiberEmpty(lo: nat)
    ensures FloydFiber(lo, 0, {}) == {[]}
  {
    assert FloydRanges(lo, 0) == [] && Floyd(lo, []) == [];
    assert Vectors([]) == {[]};
  }

  lemma FloydFiberIsSnoc(lo: nat, k: nat, s: set<nat>)
    requires k > 0 && UpTo(s, lo + k)
    ensures FloydFiber(lo, k, s) == SnocAll(Pairs(s, FloydPrevious(lo, k, s)))
  {
    var g := FloydPrevious(lo, k, s);
    forall d: seq<nat> ensures d in FloydFiber(lo, k, s) <==> d in SnocAll(Pairs(s, g)) {
      FloydFiberMember(lo, k, s, d);
      if d != [] {
        SnocAllMember(d, Pairs(s, g));
        var init, t := d[..|d| - 1], d[|d| - 1];
        FloydFiberMember(lo, k - 1, FloydBefore(lo + k - 1, s, t), init);
        if |d| == k {
          FloydLastDraw(lo, k, s, d);
        }
      }
    }
  }

  // ---- Partial Fisher-Yates ----

  // Draw i picks among the n - i entries not yet fixed.
  function ShuffleRanges(n: nat, k: nat): (r: seq<nat>)
    requires k <= n
    ensures |r| == k && forall i :: 0 <= i < k ==> r[i] == n - i
  {
    seq(k, i requires 0 <= i < k => n - i)
  }

  function Swap(p: seq<nat>, i: nat, j: nat): (q: seq<nat>)
    requires i < |p| && j < |p|
    ensures |q| == |p|
  {
    p[i := p[j]][j := p[i]]
  }

  lemma ShuffleRangesSnoc(n: nat, draws: seq<nat>)
    requires 0 < |draws| <= n
    ensures Within(draws, ShuffleRanges(n, |draws|)) <==>
            Within(draws[..|draws| - 1], ShuffleRanges(n, |draws| - 1)) && |draws| - 1 + draws[|draws| - 1] < n
  {
    assert ShuffleRanges(n, |draws|)[..|draws| - 1] == ShuffleRanges(n, |draws| - 1);
    WithinSnoc(draws, ShuffleRanges(n, |draws|));
  }

  /** The pool after the given draws: round i exchanges slot i with the slot
      its draw selects among those from i on. */
  function Shuffled(n: nat, draws: seq<nat>): (p: seq<nat>)
    requires |draws| <= n && Within(draws, ShuffleRanges(n, |draws|))
    ensures |p| == n
  {
    if draws == [] then
      seq(n, i => i)
    else
      ShuffleRangesSnoc(n, draws);
      var i := |draws| - 1;
      Swap(Shuffled(n, draws[..i]), i, i + draws[i])
  }

  ghost predicate IsPermutation(p: seq<nat>, n: nat) {
    |p| == n && Distinct(p) && forall x: nat :: x in p <==> x < n
  }

  lemma SwapKeepsPermutation(p: seq<nat>, n: nat, i: nat, j: nat)
    requires IsPermutation(p, n) && i < n && j < n
    ensures IsPermutation(Swap(p, i, j), n)
  {
    var q := Swap(p, i, j);
    forall x: nat ensures x in q <==> x in p {
      if x in p {
        var m :| 0 <= m < n && p[m] == x;
        assert q[if m == i then j else if m == j then i else m] == x;
      }
    }
  }

  lemma {:induction false} ShuffledIsPermutation(n: nat, draws: seq<nat>)
    requires |draws| <= n && Within(draws, ShuffleRanges(n, |draws|))
    ensures IsPermutation(Shuffled(n, draws), n)
  {
    if draws == [] {
      forall x: nat | x < n ensures x in Shuffled(n, draws) {
        assert Shuffled(n, draws)[x] == x;
      }
    } else {
      var i := |draws| - 1;
      ShuffleRangesSnoc(n, draws);
      ShuffledIsPermutation(n, draws[..i]);
      SwapKeepsPermutation(Shuffled(n, draws[..i]), n, i, i + draws[i]);
    }
  }

  ghost predicate ShuffleHits(n: nat, k: nat, s: set<nat>, d: seq<nat>)
    requires k <= n
  {
    Within(d, ShuffleRanges(n, k)) && Elements(Shuffled(n, d)[..k]) == s
  }

  ghost function ShuffleFiber(n: nat, k: nat, s: set<nat>): set<seq<nat>>
    requires k <= n
  {
    set d | d in Vectors(ShuffleRanges(n, k)) && ShuffleHits(n, k, s, d)
  }

  lemma ShuffleFiberMember(n: nat, k: nat, s: set<nat>, d: seq<nat>)
    requires k <= n
    ensures d in ShuffleFiber(n, k, s) <==> ShuffleHits(n, k, s, d)
  {
    VectorsMember(d, ShuffleRanges(n, k));
  }

  ghost function ShufflePrevious(n: nat, k: nat, s: set<nat>): nat -> set<seq<nat>>
    requires 0 < k <= n
  {
    x => ShuffleFiber(n, k - 1, s - {x})
  }

  ghost function IndexOf(p: seq<nat>, x: nat): (i: nat)
    requires x in p
    ensures i < |p| && p[i] == x
  {
    var i :| 0 <= i < |p| && p[i] == x; i
  }

  // The draws that put x in slot k - 1 after the earlier draws d.
  ghost function ShuffleJoin(n: nat, k: nat, p: (nat, seq<nat>)): seq<nat>
    requires 0 < k <= n
  {
    if Within(p.1, ShuffleRanges(n, k - 1)) && p.0 in Shuffled(n, p.1) && k - 1 <= IndexOf(Shuffled(n, p.1), p.0) then
      p.1 + [IndexOf(Shuffled(n, p.1), p.0) - (k - 1)]
    else
      []
  }

  // One round, read backwards from the set it completes.
  lemma ShuffleLastDraw(n: nat, k: nat, s: set<nat>, d: seq<nat>)
    requires 0 < k <= n && |d| == k
    ensures ShuffleHits(n, k, s, d) <==>
            && Within(d[..k - 1], ShuffleRanges(n, k - 1))
            && k - 1 + d[k - 1] < n
            && Shuffled(n, d[..k - 1])[k - 1 + d[k - 1]] in s
            && ShuffleHits(n, k - 1, s - {Shuffled(n, d[..k - 1])[k - 1 + d[k - 1]]}, d[..k - 1])
  {
    ShuffleRangesSnoc(n, d);
    var init, at := d[..k - 1], k - 1 + d[k - 1];
    if Within(init, ShuffleRanges(n, k - 1)) && at < n {
      ShuffledIsPermutation(n, init);
      var prev := Shuffled(n, init);
      assert Shuffled(n, d)[..k] == prev[..k - 1] + [prev[at]];
      ElemsSnoc(prev[..k - 1], prev[at]);
      assert prev[at] !in Elements(prev[..k - 1]);
    }
  }

  lemma ShuffleJoinHits(n: nat, k: nat, s: set<nat>, x: nat, d: seq<nat>)
    requires 0 < k <= n && UpTo(s, n) && x in s && ShuffleHits(n, k - 1, s - {x}, d)
    ensures Within(d, ShuffleRanges(n, k - 1)) && x in Shuffled(n, d) && k - 1 <= IndexOf(Shuffled(n, d), x)
    ensures ShuffleHits(n, k, s, ShuffleJoin(n, k, (x, d)))
  {
    ShuffledIsPermutation(n, d);
    var p := Shuffled(n, d);
    assert forall i :: 0 <= i < k - 1 ==> p[i] in Elements(p[..k - 1]);
    var joined := ShuffleJoin(n, k, (x, d));
    assert joined[..k - 1] == d;
    ShuffleLastDraw(n, k, s, joined);
  }

  lemma ShuffleFiberIsJoin(n: nat, k: nat, s: set<nat>)
    requires 0 < k <= n && UpTo(s, n)
    ensures ShuffleFiber(n, k, s) == Image(Pairs(s, ShufflePrevious(n, k, s)), p => ShuffleJoin(n, k, p))
  {
    var g, f := ShufflePrevious(n, k, s), (p: (nat, seq<nat>)) => ShuffleJoin(n, k, p);
    forall d | d in ShuffleFiber(n, k, s) ensures d in Image(Pairs(s, g), f) {
      ShuffleFiberMember(n, k, s, d);
      var x := ShuffleUnjoin(n, k, s, d);
      ShuffleFiberMember(n, k - 1, s - {x}, d[..k - 1]);
      var p := (x, d[..k - 1]);
      assert p in Pairs(s, g) && f(p) == d;
    }
    forall p | p in Pairs(s, g) ensures f(p) in ShuffleFiber(n, k, s) {
      ShuffleFiberMember(n, k - 1, s - {p.0}, p.1);
      ShuffleJoinHits(n, k, s, p.0, p.1);
      ShuffleFiberMember(n, k, s, f(p));
    }
  }

  lemma ShuffleUnjoin(n: nat, k: nat, s: set<nat>, d: seq<nat>) returns (x: nat)
    requires 0 < k <= n && ShuffleHits(n, k, s, d)
    ensures x in s && ShuffleHits(n, k - 1, s - {x}, d[..k - 1]) && ShuffleJoin(n, k, (x, d[..k - 1])) == d
  {
    ShuffleLastDraw(n, k, s, d);
    var init, at := d[..k - 1], k - 1 + d[k - 1];
    ShuffledIsPermutation(n, init);
    x := Shuffled(n, init)[at];
    assert IndexOf(Shuffled(n, init), x) == at;
  }

  lemma ShuffleJoinInjective(n: nat, k: nat, s: set<nat>)
    requires 0 < k <= n && UpTo(s, n)
    ensures InjectiveOn(Pairs(s, ShufflePrevious(n, k, s)), p => ShuffleJoin(n, k, p))
  {
    forall p, q | p in Pairs(s, ShufflePrevious(n, k, s)) && q in Pairs(s, ShufflePrevious(n, k, s)) &&
                  ShuffleJoin(n, k, p) == ShuffleJoin(n, k, q)
      ensures p == q
    {
      ShuffleFiberMember(n, k - 1, s - {p.0}, p.1);
      ShuffleFiberMember(n, k - 1, s - {q.0}, q.1);
      ShuffleJoinHits(n, k, s, p.0, p.1);
      ShuffleJoinHits(n, k, s, q.0, q.1);
      var d := ShuffleJoin(n, k, p);
      assert p.1 == d[..k - 1] && q.1 == d[..k - 1];
      assert IndexOf(Shuffled(n, p.1), p.0) == k - 1 + d[k - 1] == IndexOf(Shuffled(n, q.1), q.0);
    }
  }

  /** Exactly k! draw vectors leave each k-subset in the first k slots. */
  lemma {:induction false} ShuffleFiberSize(n: nat, k: nat, s: set<nat>)
    requires k <= n && |s| == k && UpTo(s, n)
    ensures |ShuffleFiber(n, k, s)| == Factorial(k)
  {
    if k == 0 {
      assert Within([], ShuffleRanges(n, 0)) && Shuffled(n, [])[..0] == [] && Elements([]) == s;
      ShuffleFiberMember(n, 0, s, []);
      assert ShuffleFiber(n, 0, s) == {[]};
    } else {
      var g, f := ShufflePrevious(n, k, s), (p: (nat, seq<nat>)) => ShuffleJoin(n, k, p);
      forall x | x in s ensures |g(x)| == Factorial(k - 1) {
        ShuffleFiberSize(n, k - 1, s - {x});
      }
      PairsSize(s, g, Factorial(k - 1));
      ShuffleJoinInjective(n, k, s);
      ImageSize(Pairs(s, g), f);
      ShuffleFiberIsJoin(n, k, s);
    }
  }
}
