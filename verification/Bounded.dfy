/** The multiply-shift bounded draw: which engine words it accepts and how many
    of them reach each result. */
module Bounded {
  import opened Words
  import opened Arithmetic

  // The two halves of the 128-bit product word * range.
  function High(word: nat, range: nat): nat {
    word * range / TWO64
  }

  function Low(word: nat, range: nat): nat {
    word * range % TWO64
  }

  // A word is kept when the low half reaches 2^64 mod range.
  predicate Accepted(word: nat, range: nat)
    requires range > 0
  {
    TWO64 % range <= Low(word, range)
  }

  /** The engine keeps supplying words that each range accepts, which is what
      makes the rejection loop end. */
  ghost predicate Fair(words: Words64) {
    forall range: nat, at: nat | 1 < range < TWO64 :: AcceptsLater(words, range, at)
  }

  ghost predicate AcceptsLater(words: Words64, range: nat, at: nat)
    requires range > 0
  {
    exists p :: at <= p && Accepted(words.At(p), range)
  }

  ghost predicate IsFirstAccepted(words: Words64, range: nat, at: nat, p: nat)
    requires range > 0
  {
    at <= p && Accepted(words.At(p), range) && forall q :: at <= q < p ==> !Accepted(words.At(q), range)
  }

  lemma {:induction false} FirstAcceptedExists(words: Words64, range: nat, at: nat, p: nat)
    requires 0 < range && at <= p && Accepted(words.At(p), range)
    ensures exists q :: IsFirstAccepted(words, range, at, q)
    decreases p - at
  {
    if Accepted(words.At(at), range) {
      assert IsFirstAccepted(words, range, at, at);
    } else {
      FirstAcceptedExists(words, range, at + 1, p);
      var q :| IsFirstAccepted(words, range, at + 1, q);
      assert IsFirstAccepted(words, range, at, q);
    }
  }

  ghost function FirstAccepted(words: Words64, range: nat, at: nat): (p: nat)
    requires 1 < range < TWO64 && Fair(words)
    ensures IsFirstAccepted(words, range, at, p)
  {
    assert AcceptsLater(words, range, at);
    var w :| at <= w && Accepted(words.At(w), range);
    FirstAcceptedExists(words, range, at, w);
    var p :| IsFirstAccepted(words, range, at, p); p
  }

  /** One bounded draw from word position at: its result, and the position
      of the word after the one that decided it. */
  ghost function Draw(words: Words64, range: u64, at: nat): (r: (nat, nat))
    requires Fair(words)
    ensures range > 0 ==> r.0 < range
  {
    if range <= 1 then
      (0, at)
    else
      var p := FirstAccepted(words, range, at);
      HighBelow(words.At(p), range, TWO64);
      (High(words.At(p), range), p + 1)
  }

  ghost predicate WordRanges(ranges: seq<nat>) {
    forall i :: 0 <= i < |ranges| ==> ranges[i] < TWO64
  }

  // Draws below each of the ranges in turn.
  ghost function Draws(words: Words64, ranges: seq<nat>, at: nat): (r: (seq<nat>, nat))
    requires Fair(words) && WordRanges(ranges)
    ensures |r.0| == |ranges| && forall i :: 0 <= i < |ranges| && ranges[i] > 0 ==> r.0[i] < ranges[i]
  {
    if ranges == [] then
      ([], at)
    else
      var k := |ranges| - 1;
      var (values, next) := Draws(words, ranges[..k], at);
      var (value, end) := Draw(words, ranges[k], next);
      (values + [value], end)
  }

  lemma DrawsSnoc(words: Words64, ranges: seq<nat>, range: u64, at: nat)
    requires Fair(words) && WordRanges(ranges)
    ensures WordRanges(ranges + [range])
    ensures var (values, next) := Draws(words, ranges, at);
            var (value, end) := Draw(words, range, next);
            Draws(words, ranges + [range], at) == (values + [value], end)
  {
    assert (ranges + [range])[..|ranges|] == ranges;
  }

  // Fairness is satisfiable: the largest word suits every range.
  ghost function LargestWord(): Words64 {
    Words64(_ => TWO64 - 1)
  }

  lemma LargestWordIsFair()
    ensures Fair(LargestWord())
  {
    forall range: nat, at: nat | 1 < range < TWO64
      ensures AcceptsLater(LargestWord(), range, at)
    {
      LargestWordAccepted(range, TWO64);
      assert at <= at && Accepted(LargestWord().At(at), range);
    }
  }

  lemma LargestWordAccepted(r: nat, m: nat)
    requires 1 < r < m
    ensures m % r <= (m - 1) * r % m
  {
    var q := m / r;
    assert m == q * r + m % r;
    MulMonotone(1, q, r);
    assert (m - 1) * r == (r - 1) * m + (m - r);
    RemainderUnique((m - 1) * r, m, r - 1, m - r);
  }

  lemma HighBelow(word: nat, range: nat, m: nat)
    requires 0 < range && word < m
    ensures word * range / m < range
  {
    var q := word * range / m;
    assert q * m <= word * range;
    MulGap(word, m, range);
    if range <= q {
      MulMonotone(range, q, m);
    }
  }

  // The subtraction in the source happens modulo 2^64.
  function SourceThreshold(range: nat): nat
    requires 1 <= range < TWO64
  {
    (TWO64 - range) % range
  }

  lemma ThresholdIsRemainder(range: nat)
    requires 1 <= range < TWO64
    ensures SourceThreshold(range) == TWO64 % range < range
  {
    DropOne(TWO64, range);
  }

  lemma DropOne(m: nat, r: nat)
    requires 1 <= r <= m
    ensures (m - r) % r == m % r
  {
    var q, t := m / r, m % r;
    assert m - r == (q - 1) * r + t;
    RemainderUnique(m - r, r, q - 1, t);
  }

  // ---- Counting ----

  ghost function AcceptedWordsFor(v: nat, range: nat): set<int>
    requires range > 0
  {
    set w: int | 0 <= w < TWO64 && Accepted(w, range) && High(w, range) == v
  }

  ghost function Interval(first: int, n: nat): (s: set<int>)
    ensures |s| == n
    ensures forall w :: w in s <==> first <= w < first + n
  {
    if n == 0 then {} else Interval(first, n - 1) + {first + n - 1}
  }

  /** Every result below the range has the same number of accepted words. */
  lemma EveryResultEquallyLikely(v: nat, range: nat)
    requires 1 <= range < TWO64 && v < range
    ensures |AcceptedWordsFor(v, range)| == TWO64 / range
  {
    var first := FirstWord(v, range, TWO64);
    forall w: nat
      ensures w in AcceptedWordsFor(v, range) <==> w in Interval(first, TWO64 / range)
    {
      AcceptedIsAnInterval(w, v, range, TWO64);
      LastWord(v, range, TWO64);
    }
    assert AcceptedWordsFor(v, range) == Interval(first, TWO64 / range);
  }

  // The least word whose product with the range is v with an accepted low half.
  function FirstWord(v: nat, r: nat, m: nat): nat
    requires 0 < r
  {
    (v * m + m % r + r - 1) / r
  }

  lemma AcceptedIsAnInterval(w: nat, v: nat, r: nat, m: nat)
    requires 0 < r <= m
    ensures (m % r <= w * r % m && w * r / m == v) <==> FirstWord(v, r, m) <= w < FirstWord(v, r, m) + m / r
  {
    var q, t, p := m / r, m % r, w * r;
    CeilingDivision(v * m + t, r, w);
    CeilingDivision(v * m + t, r, w - q);
    SplitProduct(w, q, r);
    assert m == q * r + t;
    SplitDivision(p, m, v, t);
  }

  lemma SplitProduct(w: int, q: int, r: int)
    ensures (w - q) * r == w * r - q * r
  {
  }

  lemma SplitDivision(p: nat, m: nat, v: nat, t: nat)
    requires t < m
    ensures (t <= p % m && p / m == v) <==> v * m + t <= p < v * m + m
  {
    assert p == p / m * m + p % m;
    if v * m + t <= p < v * m + m {
      RemainderUnique(p, m, v, p - v * m);
    }
  }

  // w * r reaches x exactly from the rounded-up quotient onwards.
  lemma CeilingDivision(x: nat, r: nat, w: int)
    requires 0 < r
    ensures w * r >= x <==> w >= (x + r - 1) / r
  {
    var c := (x + r - 1) / r;
    assert x + r - 1 == c * r + (x + r - 1) % r;
    if w >= c {
      MulMonotone(c, w, r);
    } else {
      MulMonotone(w, c - 1, r);
      assert (c - 1) * r == c * r - r;
    }
  }

  lemma LastWord(v: nat, r: nat, m: nat)
    requires 0 < r <= m && v < r
    ensures FirstWord(v, r, m) + m / r <= m
  {
    var q, t := m / r, m % r;
    CeilingDivision(v * m + t, r, m - q);
    SplitProduct(m, q, r);
    assert m == q * r + t;
    MulMonotone(v + 1, r, m);
    assert (v + 1) * m == v * m + m;
  }
}
