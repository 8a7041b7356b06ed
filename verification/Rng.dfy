/** The random kernel: bounded draws by rejection and the index samplers. */
module RandomKernel {
  import opened Words
  import opened Arithmetic
  import opened Lists
  import opened Bounded
  import opened Counting
  import opened Sampling

  const FLOYD_MAX_K := 1024

  // The draws of the first i rounds of Floyd's loop, and where they end.
  ghost function FloydDraws(words: Words64, lo: nat, i: nat, at: nat): (r: (seq<nat>, nat))
    requires Fair(words) && lo + i < TWO64
    ensures |r.0| == i && Within(r.0, FloydRanges(lo, i))
  {
    Draws(words, FloydRanges(lo, i), at)
  }

  lemma FloydStart(words: Words64, lo: nat, at: nat)
    requires Fair(words) && lo < TWO64
    ensures FloydDraws(words, lo, 0, at).1 == at && Floyd(lo, FloydDraws(words, lo, 0, at).0) == []
  {
  }

  lemma FloydRound(words: Words64, lo: nat, i: nat, at: nat)
    requires Fair(words) && lo + i + 1 < TWO64
    ensures var (draws, next) := FloydDraws(words, lo, i, at);
            var (t, end) := Bounded.Draw(words, lo + i + 1, next);
            && FloydDraws(words, lo, i + 1, at) == (draws + [t], end)
            && Floyd(lo, draws + [t]) == Collect(Floyd(lo, draws), lo + i, t)
  {
    hide Bounded.Draw, Bounded.Draws, Fair, Within, WordRanges, Collect;
    assert FloydRanges(lo, i + 1) == FloydRanges(lo, i) + [lo + i + 1];
    DrawsSnoc(words, FloydRanges(lo, i), lo + i + 1, at);
    var (draws, next) := FloydDraws(words, lo, i, at);
    var t := Bounded.Draw(words, lo + i + 1, next).0;
    assert (draws + [t])[..i] == draws;
  }

  // The draws of the first i rounds of the partial shuffle.
  ghost function ShuffleDraws(words: Words64, n: nat, i: nat, at: nat): (r: (seq<nat>, nat))
    requires Fair(words) && i <= n < TWO64
    ensures |r.0| == i && Within(r.0, ShuffleRanges(n, i))
  {
    Draws(words, ShuffleRanges(n, i), at)
  }

  lemma ShuffleStart(words: Words64, n: nat, at: nat)
    requires Fair(words) && n < TWO64
    ensures ShuffleDraws(words, n, 0, at).1 == at
    ensures Shuffled(n, ShuffleDraws(words, n, 0, at).0) == seq(n, i => i)
  {
  }

  lemma SwapInPlace(before: seq<nat>, after: seq<nat>, i: nat, j: nat)
    requires i < |before| && j < |before| == |after|
    requires after[i] == before[j] && after[j] == before[i]
    requires forall m :: 0 <= m < |before| && m != i && m != j ==> after[m] == before[m]
    ensures after == Swap(before, i, j)
  {
  }

  lemma ShuffleRound(words: Words64, n: nat, i: nat, at: nat)
    requires Fair(words) && i < n < TWO64
    ensures var (draws, next) := ShuffleDraws(words, n, i, at);
            var (t, end) := Bounded.Draw(words, n - i, next);
            && ShuffleDraws(words, n, i + 1, at) == (draws + [t], end)
            && Shuffled(n, draws + [t]) == Swap(Shuffled(n, draws), i, i + t)
  {
    hide Bounded.Draw, Bounded.Draws, Fair, Within, WordRanges, Swap;
    assert ShuffleRanges(n, i + 1) == ShuffleRanges(n, i) + [n - i];
    DrawsSnoc(words, ShuffleRanges(n, i), n - i, at);
    var (draws, next) := ShuffleDraws(words, n, i, at);
    var t := Bounded.Draw(words, n - i, next).0;
    assert (draws + [t])[..i] == draws;
  }

  ghost function RepeatDraws(words: Words64, n: nat, i: nat, at: nat): (r: (seq<nat>, nat))
    requires Fair(words) && n < TWO64
    ensures |r.0| == i && (n > 0 ==> forall x :: x in r.0 ==> x < n)
  {
    Draws(words, seq(i, _ => n), at)
  }

  lemma RepeatStart(words: Words64, n: nat, at: nat)
    requires Fair(words) && n < TWO64
    ensures RepeatDraws(words, n, 0, at) == ([], at)
  {
  }

  lemma RepeatRound(words: Words64, n: nat, i: nat, at: nat)
    requires Fair(words) && n < TWO64
    ensures var (draws, next) := RepeatDraws(words, n, i, at);
            var (t, end) := Bounded.Draw(words, n, next);
            RepeatDraws(words, n, i + 1, at) == (draws + [t], end)
  {
    assert seq(i + 1, _ => n) == seq(i, _ => n) + [n];
    DrawsSnoc(words, seq(i, _ => n), n, at);
  }

  predicate UsesFloyd(n: nat, k: nat) {
    k <= FLOYD_MAX_K && k * 2 <= n
  }

  // The indices the chosen branch gives for its draws, and where they end.
  ghost function Chosen(words: Words64, n: nat, k: nat, at: nat): (r: (seq<nat>, nat))
    requires Fair(words) && 0 < k <= n < TWO64
  {
    if UsesFloyd(n, k) then
      var (draws, end) := FloydDraws(words, n - k, k, at);
      (Floyd(n - k, draws), end)
    else
      var (draws, end) := ShuffleDraws(words, n, k, at);
      (Shuffled(n, draws)[..k], end)
  }

  /** Both branches sample: k different indices below n. */
  lemma ChosenIsASample(words: Words64, n: nat, k: nat, at: nat)
    requires Fair(words) && 0 < k <= n < TWO64
    ensures var out := Chosen(words, n, k, at).0;
            |out| == k && Distinct(out) && forall x :: x in out ==> x < n
  {
    hide FloydDraws, ShuffleDraws, Floyd, Shuffled, Bounded.Draw, Fair;
    if UsesFloyd(n, k) {
      FloydIsASample(n - k, FloydDraws(words, n - k, k, at).0);
    } else {
      ShuffledIsPermutation(n, ShuffleDraws(words, n, k, at).0);
      PrefixIsASample(Shuffled(n, ShuffleDraws(words, n, k, at).0), n, k);
    }
  }

  lemma PrefixIsASample(p: seq<nat>, n: nat, k: nat)
    requires IsPermutation(p, n) && k <= n
    ensures Distinct(p[..k]) && forall x :: x in p[..k] ==> x < n
  {
    forall x | x in p[..k] ensures x < n {
      assert x in p;
    }
  }

  // ---- One distribution ----

  /** n!/(n-k)! draw vectors feed either branch, and each k-subset of the
      indices is the result of k! of them in both. */
  lemma OneSetDistribution(n: nat, k: nat, s: set<nat>)
    requires k <= n && |s| == k && UpTo(s, n)
    ensures |FloydFiber(n - k, k, s)| == |ShuffleFiber(n, k, s)| == Factorial(k)
    ensures |Vectors(FloydRanges(n - k, k))| == |Vectors(ShuffleRanges(n, k))| == Factorial(n) / Factorial(n - k)
  {
    hide FloydFiber, ShuffleFiber, Vectors, Factorial, Product;
    FloydFiberSize(n - k, k, s);
    ShuffleFiberSize(n, k, s);
    VectorsSize(FloydRanges(n - k, k));
    VectorsSize(ShuffleRanges(n, k));
    FloydProduct(n - k, k);
    ShuffleProduct(n, k);
    Quotient(Product(FloydRanges(n - k, k)), Factorial(n - k));
    Quotient(Product(ShuffleRanges(n, k)), Factorial(n - k));
  }

  lemma Quotient(p: nat, f: nat)
    requires f > 0
    ensures p * f / f == p
  {
    RemainderUnique(p * f, f, p, 0);
  }

  lemma {:induction false} FloydProduct(lo: nat, k: nat)
    ensures Product(FloydRanges(lo, k)) * Factorial(lo) == Factorial(lo + k)
  {
    if k > 0 {
      FloydProduct(lo, k - 1);
      assert FloydRanges(lo, k)[..k - 1] == FloydRanges(lo, k - 1);
      Rearrange(Product(FloydRanges(lo, k - 1)), lo + k, Factorial(lo));
    }
  }

  lemma Rearrange(a: int, b: int, c: int)
    ensures a * b * c == b * (a * c)
  {
  }

  lemma {:induction false} ShuffleProduct(n: nat, k: nat)
    requires k <= n
    ensures Product(ShuffleRanges(n, k)) * Factorial(n - k) == Factorial(n)
  {
    if k > 0 {
      ShuffleProduct(n, k - 1);
      assert ShuffleRanges(n, k)[..k - 1] == ShuffleRanges(n, k - 1);
      Associate(Product(ShuffleRanges(n, k - 1)), n - k + 1, Factorial(n - k));
    }
  }

  lemma Associate(a: int, b: int, c: int)
    ensures a * b * c == a * (b * c)
  {
  }

  // The top 53 bits of a word as a fraction of one.
  function Fraction(word: u64): (x: real)
    ensures 0.0 <= x < 1.0
  {
    (word / 2048) as real / 9007199254740992.0
  }

  // A coin at word position at, and where it ends; a sure coin reads no word.
  function Toss(words: Words64, p: real, at: nat): (r: (bool, nat)) {
    if p <= 0.0 then (false, at)
    else if p >= 1.0 then (true, at)
    else (Fraction(words.At(at)) < p, at + 1)
  }

  // ---- How many words give a fraction, and heads ----

  const FRACTIONS := 9007199254740992

  /** Every fraction is a whole number of parts of 2^53, fewer than all. */
  lemma FractionIsMultiple(word: u64)
    ensures word / 2048 < FRACTIONS && Fraction(word) * FRACTIONS as real == (word / 2048) as real
  {
  }

  lemma FractionBelow(word: u64, k: nat)
    ensures Fraction(word) < k as real / FRACTIONS as real <==> word < 2048 * k
  {
    var parts := FRACTIONS as real;
    var f := word / 2048;
    assert Fraction(word) * parts == f as real;
    assert k as real / parts * parts == k as real;
    assert Fraction(word) < k as real / parts <==> f < k;
  }

  ghost function WordsBelow(x: real): set<int> {
    set w: int | 0 <= w < TWO64 && Fraction(w) < x
  }

  /** For each k up to 2^53 exactly 2048 k of the 2^64 words have a fraction below
      k parts of 2^53, so all fractions are equally likely. */
  lemma FractionsAreUniform(k: nat)
    requires k <= FRACTIONS
    ensures |WordsBelow(k as real / FRACTIONS as real)| == 2048 * k
  {
    forall w: int ensures w in WordsBelow(k as real / FRACTIONS as real) <==> w in Interval(0, 2048 * k) {
      if 0 <= w < TWO64 {
        FractionBelow(w, k);
      }
    }
    assert WordsBelow(k as real / FRACTIONS as real) == Interval(0, 2048 * k);
  }

  // The least number of parts that reach a probability.
  predicate LeastParts(k: nat, p: real) {
    k as real >= p * FRACTIONS as real && (k == 0 || (k - 1) as real < p * FRACTIONS as real)
  }

  /** A coin of probability p falls on heads for exactly 2048 k words, where k is
      the least number with k parts of 2^53 at least p. */
  lemma CoinCounts(p: real, k: nat)
    requires 0.0 < p < 1.0 && LeastParts(k, p)
    ensures forall words: Words64, at: nat :: Toss(words, p, at) == (words.At(at) in WordsBelow(p), at + 1)
    ensures |WordsBelow(p)| == 2048 * k && k <= FRACTIONS
  {
    var parts := FRACTIONS as real;
    assert k <= FRACTIONS;
    forall w: int ensures w in WordsBelow(p) <==> w in WordsBelow(k as real / parts) {
      if 0 <= w < TWO64 {
        BelowEither(w, p, k);
      }
    }
    assert WordsBelow(p) == WordsBelow(k as real / parts);
    FractionsAreUniform(k);
  }

  // No fraction lies between a probability and the parts that just reach it.
  lemma BelowEither(word: u64, p: real, k: nat)
    requires p > 0.0 && LeastParts(k, p)
    ensures Fraction(word) < p <==> Fraction(word) < k as real / FRACTIONS as real
  {
    var parts, f := FRACTIONS as real, word / 2048;
    assert Fraction(word) * parts == f as real;
    assert Fraction(word) < p <==> f as real < p * parts;
    assert k as real / parts * parts == k as real;
    assert Fraction(word) < k as real / parts <==> f < k;
  }

  /** The engine is its infinite word stream and a position in it. */
  class Rng {
    const words: Words64
    var pos: nat

    constructor (words: Words64)
      ensures this.words == words && pos == 0
    {
      this.words := words;
      pos := 0;
    }

    method NextU64() returns (x: u64)
      modifies this
      ensures x == words.At(old(pos)) && pos == old(pos) + 1
    {
      x := words.At(pos);
      pos := pos + 1;
    }

    method NextDouble() returns (u: real)
      modifies this
      ensures 0.0 <= u < 1.0 && u == Fraction(words.At(old(pos))) && pos == old(pos) + 1
    {
      var word := NextU64();
      u := Fraction(word);
    }

    method Coin(p: real) returns (heads: bool)
      modifies this
      ensures p <= 0.0 ==> !heads && pos == old(pos)
      ensures p >= 1.0 ==> heads && pos == old(pos)
      ensures 0.0 < p < 1.0 ==> (heads <==> Fraction(words.At(old(pos))) < p) && pos == old(pos) + 1
      ensures (heads, pos) == Toss(words, p, old(pos))
    {
      if p <= 0.0 {
        return false;
      }
      if p >= 1.0 {
        return true;
      }
      var u := NextDouble();
      heads := u < p;
    }

    /** The quick test and the threshold accept exactly the words whose low half
        reaches 2^64 mod range, so the draw is the first such word's. */
    method Draw(range: u64) returns (v: u64)
      requires Fair(words)
      modifies this
      ensures (v, pos) == Bounded.Draw(words, range, old(pos))
    {
      if range <= 1 {
        return 0;
      }
      ghost var goal := FirstAccepted(words, range, pos);
      ThresholdIsRemainder(range);
      var x := NextU64();
      var low := Low(x, range);
      if low < range {
        var threshold := SourceThreshold(range);
        while low < threshold
          invariant old(pos) < pos <= goal + 1 && x == words.At(pos - 1) && low == Low(x, range)
          decreases goal - pos
        {
          x := NextU64();
          low := Low(x, range);
        }
      }
      HighBelow(x, range, TWO64);
      v := High(x, range);
    }

    method UniformInt(low: int, high: int) returns (r: Option<int>)
      requires Fair(words) && high - low < TWO64 / 2
      modifies this
      ensures low >= high ==> r == None && pos == old(pos)
      ensures low < high ==>
        && r.Some? && low <= r.value < high
        && (r.value - low, pos) == Bounded.Draw(words, high - low, old(pos))
    {
      if low >= high {
        return None;
      }
      var v := Draw(high - low);
      r := Some(low + v);
    }

    method ChoiceIndex(n: u64) returns (r: Option<nat>)
      requires Fair(words)
      modifies this
      ensures n == 0 ==> r == None && pos == old(pos)
      ensures n > 0 ==> r.Some? && r.value < n && (r.value, pos) == Bounded.Draw(words, n, old(pos))
    {
      if n == 0 {
        return None;
      }
      var v := Draw(n);
      r := Some(v);
    }

    method FloydSample(n: u64, k: u64) returns (out: seq<nat>)
      requires Fair(words) && k <= n
      modifies this
      ensures var (draws, end) := FloydDraws(words, n - k, k, old(pos));
              out == Floyd(n - k, draws) && pos == end
    {
      hide *;
      ghost var lo, start := n - k, pos;
      FloydStart(words, lo, start);
      out := [];
      var j := n - k;
      while j < n
        invariant lo <= j <= n
        invariant pos == FloydDraws(words, lo, j - lo, start).1
        invariant out == Floyd(lo, FloydDraws(words, lo, j - lo, start).0)
      {
        FloydRound(words, lo, j - lo, start);
        var t := Draw(j + 1);
        out := Collect(out, j, t);
        j := j + 1;
      }
    }

    method ChoiceIndices(n: u64, k: u64, replace: bool) returns (r: Option<seq<nat>>)
      requires Fair(words)
      modifies this
      ensures k == 0 ==> r == Some([]) && pos == old(pos)
      ensures k > 0 && (n == 0 || (!replace && k > n)) ==> r == None && pos == old(pos)
      ensures 0 < k && 0 < n && replace ==> r.Some? && (r.value, pos) == RepeatDraws(words, n, k, old(pos))
      ensures 0 < k <= n && !replace ==> r.Some? && (r.value, pos) == Chosen(words, n, k, old(pos))
    {
      if k == 0 {
        return Some([]);
      }
      if n == 0 || (!replace && k > n) {
        return None;
      }
      if replace {
        var out := DrawRepeatedly(n, k);
        return Some(out);
      }
      if k <= FLOYD_MAX_K && k * 2 <= n {
        var out := FloydSample(n, k);
        return Some(out);
      }
      var pool := PartialShuffle(n, k);
      r := Some(pool[..k]);
    }

    method DrawRepeatedly(n: u64, k: nat) returns (out: seq<nat>)
      requires Fair(words)
      modifies this
      ensures (out, pos) == RepeatDraws(words, n, k, old(pos))
    {
      out := [];
      hide *;
      RepeatStart(words, n, pos);
      for i := 0 to k
        invariant (out, pos) == RepeatDraws(words, n, i, old(pos))
      {
        RepeatRound(words, n, i, old(pos));
        var t := Draw(n);
        out := out + [t];
      }
    }

    method PartialShuffle(n: u64, k: u64) returns (pool: array<nat>)
      requires Fair(words) && k <= n
      modifies this
      ensures fresh(pool) && pool.Length == n
      ensures var (draws, end) := ShuffleDraws(words, n, k, old(pos));
              pool[..] == Shuffled(n, draws) && pos == end
    {
      hide *;
      pool := new nat[n](i => i);
      ShuffleStart(words, n, pos);
      for i := 0 to k
        invariant pos == ShuffleDraws(words, n, i, old(pos)).1
        invariant pool[..] == Shuffled(n, ShuffleDraws(words, n, i, old(pos)).0)
      {
        ShuffleRound(words, n, i, old(pos));
        var t := Draw(n - i);
        ghost var before := pool[..];
        pool[i], pool[i + t] := pool[i + t], pool[i];
        SwapInPlace(before, pool[..], i, i + t);
      }
    }
  }
}
