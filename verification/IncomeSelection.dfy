/** Fitting the scale at which a target share of candidates is paid. */
module IncomeSelection {
  import opened Words
  import opened Lists
  import RandomKernel

  const STEPS := 30

  function Clamp(x: real): (r: real)
    ensures 0.0 <= r <= 1.0
  {
    if x < 0.0 then 0.0 else if x > 1.0 then 1.0 else x
  }

  // The probability that a candidate is paid at a scale.
  function Paid(b: real, scale: real): real {
    Clamp(b * scale)
  }

  // The expected number paid at a scale.
  function Total(bases: seq<real>, scale: real): real {
    if bases == [] then 0.0 else Total(bases[..|bases| - 1], scale) + Paid(bases[|bases| - 1], scale)
  }

  predicate AllAbove(bases: seq<real>, floor: real) {
    forall i :: 0 <= i < |bases| ==> bases[i] >= floor
  }

  lemma TotalSnoc(bases: seq<real>, i: nat, scale: real)
    requires i < |bases|
    ensures Total(bases[..i + 1], scale) == Total(bases[..i], scale) + Paid(bases[i], scale)
  {
    hide Paid;
    assert bases[..i + 1][..i] == bases[..i];
  }

  lemma ProductRises(b: real, x: real, y: real)
    requires b >= 0.0 && x <= y
    ensures b * x <= b * y && b * y - b * x == b * (y - x)
  {
  }

  lemma NoProduct(b: real)
    ensures b * 0.0 == 0.0 && 0.0 * b == 0.0
  {
  }

  lemma AtLeastOne(b: real, least: real)
    requires b >= least > 0.0
    ensures b * (1.0 / least) >= 1.0
  {
    ProductRises(1.0 / least, least, b);
  }

  lemma {:induction false} TotalAtZero(bases: seq<real>)
    ensures Total(bases, 0.0) == 0.0
  {
    if bases != [] {
      TotalAtZero(bases[..|bases| - 1]);
      NoProduct(bases[|bases| - 1]);
    }
  }

  // At the reciprocal of the least base everyone is paid.
  lemma {:induction false} TotalAtMost(bases: seq<real>, least: real)
    requires least > 0.0 && AllAbove(bases, least)
    ensures Total(bases, 1.0 / least) == |bases| as real
  {
    if bases != [] {
      TotalAtMost(bases[..|bases| - 1], least);
      AtLeastOne(bases[|bases| - 1], least);
    }
  }

  lemma PaidRises(b: real, x: real, y: real)
    requires b >= 0.0 && 0.0 <= x <= y
    ensures Paid(b, x) <= Paid(b, y) <= Paid(b, x) + b * (y - x)
  {
    ProductRises(b, x, y);
    ProductRises(b, 0.0, x);
    ClampRises(b * x, b * y);
  }

  lemma ClampRises(p: real, q: real)
    requires 0.0 <= p <= q
    ensures Clamp(p) <= Clamp(q) <= Clamp(p) + (q - p)
  {
  }

  /** The total rises with the scale, no faster than the bases' sum. */
  lemma {:induction false} TotalRises(bases: seq<real>, x: real, y: real)
    requires AllAbove(bases, 0.0) && 0.0 <= x <= y
    ensures Total(bases, x) <= Total(bases, y) <= Total(bases, x) + Sum(bases) * (y - x)
  {
    hide Paid;
    if bases != [] {
      var b, rest := bases[|bases| - 1], bases[..|bases| - 1];
      TotalRises(rest, x, y);
      PaidRises(b, x, y);
      Distributes(Sum(rest), b, y - x);
    } else {
      NoProduct(y - x);
    }
  }

  lemma Distributes(a: real, b: real, c: real)
    ensures (a + b) * c == a * c + b * c
  {
  }

  // ---- The coin ----

  /** A candidate takes a coin from the engine exactly when the scaled probability
      lies strictly between 0 and 1. */
  lemma OneCoinExactlyWhen(words: Words64, b: real, scale: real, at: nat)
    ensures RandomKernel.Toss(words, Paid(b, scale), at).1 == at + 1 <==> 0.0 < b * scale < 1.0
  {
  }

  /** Doubling a probability of one half takes the candidate's coin away. */
  lemma NoCoinWhenCertain(words: Words64, at: nat)
    ensures RandomKernel.Toss(words, Paid(0.5, 1.0), at).1 == at + 1
    ensures RandomKernel.Toss(words, Paid(0.5, 2.0), at) == (true, at)
  {
  }

  // ---- The selector ----

  class Selector {
    const candidate: nat -> bool
    const base: nat -> real

    constructor (candidate: nat -> bool, base: nat -> real)
      ensures this.candidate == candidate && this.base == base
    {
      this.candidate, this.base := candidate, base;
    }

    // The base probabilities of the candidates among people 1 to n.
    function Bases(n: nat): seq<real>
      reads this
    {
      if n == 0 then [] else Bases(n - 1) + if candidate(n) then [base(n)] else []
    }

    // The mean probability of a candidate at a scale.
    function Share(n: nat, scale: real): real
      reads this
    {
      if scale <= 0.0 || Bases(n) == [] then 0.0 else Total(Bases(n), scale) / |Bases(n)| as real
    }

    method PaidShare(n: nat, scale: real) returns (share: real)
      ensures share == Share(n, scale)
    {
      hide Paid, Total;
      NobodyPaid(scale);
      if scale <= 0.0 {
        return 0.0;
      }
      var total, count := 0.0, 0;
      for person := 1 to n + 1
        invariant count == |Bases(person - 1)| && total == Total(Bases(person - 1), scale)
      {
        if candidate(person) {
          OneMore(Bases(person - 1), base(person), scale);
          total := total + Paid(base(person), scale);
          count := count + 1;
        } else {
          assert Bases(person) == Bases(person - 1);
        }
      }
      share := if count == 0 then 0.0 else total / count as real;
    }

    /** Thirty halvings: the total at the lower scale stays short of the target,
        and at the upper one reaches it. Bases must be positive. */
    method FitScale(n: nat, targetFraction: real) returns (scale: real)
      requires forall i :: 0 <= i < |Bases(n)| ==> Bases(n)[i] > 0.0
      ensures targetFraction <= 0.0 || Bases(n) == [] ==> scale == 0.0
      ensures targetFraction > 0.0 && Bases(n) != [] ==>
                && Fitted(Bases(n), Clamp(targetFraction), scale)
                && Clamp(targetFraction) <= Share(n, scale) < Clamp(targetFraction) + Excess(Bases(n))
    {
      hide Total, Clamp, Sum, Fitted, Bases, AllAbove, Excess;
      ClampFacts(targetFraction);
      var target := Clamp(targetFraction);
      if target <= 0.0 {
        return 0.0;
      }
      var bases, least := Materialise(n);
      if bases == [] {
        return 0.0;
      }
      scale := Bisect(bases, least, target);
      FittedShare(bases, target, scale);
      FittedPositive(bases, target, scale);
    }

    // The candidates' bases, and the least of them and one.
    method Materialise(n: nat) returns (bases: seq<real>, least: real)
      ensures bases == Bases(n) && IsLeast(bases, least)
    {
      bases, least := [], 1.0;
      for person := 1 to n + 1
        invariant bases == Bases(person - 1) && IsLeast(bases, least)
      {
        if candidate(person) {
          bases := bases + [base(person)];
          if base(person) < least {
            least := base(person);
          }
        }
      }
    }

    method Bisect(bases: seq<real>, least: real, target: real) returns (hi: real)
      requires bases != [] && IsLeast(bases, least) && 0.0 < target <= 1.0
      requires forall i :: 0 <= i < |bases| ==> bases[i] > 0.0
      ensures Fitted(bases, target, hi)
    {
      hide Total, Sum, Fitted, Halved;
      var count := |bases| as real;
      var targetTotal := target * count;
      var lo := 0.0;
      hi := 1.0 / least;
      StartBracket(bases, least, target);
      PositiveReciprocal(least);
      ghost var width := hi;
      HalvesAgain(width, 0);
      for i := 0 to STEPS
        invariant 0.0 <= lo < hi && hi - lo == Halved(width, i)
        invariant Total(bases, lo) < targetTotal <= Total(bases, hi)
      {
        HalvesAgain(width, i);
        var mid := (lo + hi) * 0.5;
        var total := TotalOf(bases, mid);
        if total < targetTotal {
          lo := mid;
        } else {
          hi := mid;
        }
      }
      Close(bases, least, target, lo, hi, width);
    }

    method TotalOf(bases: seq<real>, scale: real) returns (total: real)
      requires scale >= 0.0 && AllAbove(bases, 0.0)
      ensures total == Total(bases, scale)
    {
      total := 0.0;
      for i := 0 to |bases|
        invariant total == Total(bases[..i], scale)
      {
        TotalSnoc(bases, i, scale);
        ProductRises(bases[i], 0.0, scale);
        var p := bases[i] * scale;
        total := total + if p > 1.0 then 1.0 else p;
      }
      assert bases[..|bases|] == bases;
    }

    /** One coin for a candidate whose probability lies between 0 and 1; the others
        are decided without one. */
    method Selected(rng: RandomKernel.Rng, person: nat, scale: real) returns (paid: bool)
      modifies rng
      ensures !candidate(person) ==> !paid && rng.pos == old(rng.pos)
      ensures candidate(person) ==> (rng.pos == old(rng.pos) + 1 <==> 0.0 < base(person) * scale < 1.0)
      ensures candidate(person) && 0.0 < base(person) * scale < 1.0 ==>
                (paid <==> RandomKernel.Fraction(rng.words.At(old(rng.pos))) < base(person) * scale)
      ensures candidate(person) && !(0.0 < base(person) * scale < 1.0) ==>
                rng.pos == old(rng.pos) && (paid <==> base(person) * scale >= 1.0)
    {
      if !candidate(person) {
        return false;
      }
      paid := rng.Coin(Paid(base(person), scale));
    }
  }

  lemma NobodyPaid(scale: real)
    ensures Total([], scale) == 0.0
  {
  }

  lemma OneMore(bases: seq<real>, b: real, scale: real)
    ensures Total(bases + [b], scale) == Total(bases, scale) + Paid(b, scale)
  {
    hide Paid;
    assert (bases + [b])[..|bases|] == bases;
  }

  ghost predicate IsLeast(bases: seq<real>, m: real) {
    m <= 1.0 && AllAbove(bases, m) && (m == 1.0 || m in bases)
  }

  // The least of the bases and one.
  function Least(bases: seq<real>): (m: real)
    ensures m <= 1.0 && AllAbove(bases, m)
    ensures m == 1.0 || m in bases
  {
    if bases == [] then 1.0
    else
      var before, b := Least(bases[..|bases| - 1]), bases[|bases| - 1];
      if b < before then b else before
  }

  lemma LeastIs(bases: seq<real>, m: real)
    requires IsLeast(bases, m)
    ensures Least(bases) == m
  {
  }

  function TwoTo(k: nat): (p: real)
    ensures p > 0.0
  {
    if k == 0 then 1.0 else 2.0 * TwoTo(k - 1)
  }

  function Halved(width: real, k: nat): real {
    width / TwoTo(k)
  }

  lemma HalvesAgain(width: real, k: nat)
    ensures Halved(width, k + 1) == Halved(width, k) * 0.5 && Halved(width, 0) == width
  {
  }

  /** Thirty halvings divide by 2^30. */
  lemma ThirtyHalvings(width: real)
    ensures Halved(width, STEPS) == width / 1073741824.0
  {
    assert TwoTo(10) == 1024.0;
    TwoToAdds(10, 10);
    TwoToAdds(20, 10);
  }

  lemma {:induction false} TwoToAdds(j: nat, k: nat)
    ensures TwoTo(j + k) == TwoTo(j) * TwoTo(k)
  {
    if k > 0 {
      TwoToAdds(j, k - 1);
    }
  }

  /** The share paid at the scale reaches the target, and exceeds it by less than
      the mean base over the least base, divided by 2^30. */
  ghost predicate Fitted(bases: seq<real>, target: real, scale: real)
    requires bases != []
  {
    var count, least := |bases| as real, Least(bases);
    && scale > 0.0 && least > 0.0
    && target * count <= Total(bases, scale) < target * count + Sum(bases) * Halved(1.0 / least, STEPS)
  }

  lemma ClampFacts(x: real)
    ensures Clamp(x) > 0.0 <==> x > 0.0
  {
  }

  lemma PositiveReciprocal(least: real)
    requires least > 0.0
    ensures 1.0 / least > 0.0
  {
  }

  lemma StartBracket(bases: seq<real>, least: real, target: real)
    requires bases != [] && AllAbove(bases, least) && least > 0.0 && 0.0 < target <= 1.0
    ensures Total(bases, 0.0) < target * |bases| as real <= Total(bases, 1.0 / least)
  {
    hide Total;
    var count := |bases| as real;
    TotalAtZero(bases);
    TotalAtMost(bases, least);
    ProductRises(count, 0.0, target);
    ProductRises(count, target, 1.0);
    Positive(target, count);
  }

  lemma Positive(x: real, y: real)
    requires x > 0.0 && y > 0.0
    ensures x * y > 0.0
  {
  }

  lemma Close(bases: seq<real>, least: real, target: real, lo: real, hi: real, width: real)
    requires bases != [] && IsLeast(bases, least) && least > 0.0
    requires 0.0 <= lo < hi && hi - lo == Halved(width, STEPS) && width == 1.0 / least
    requires Total(bases, lo) < target * |bases| as real <= Total(bases, hi)
    ensures Fitted(bases, target, hi)
  {
    hide Total, Sum, Halved;
    LeastIs(bases, least);
    TotalRises(bases, lo, hi);
  }

  lemma Divides(x: real, y: real, z: real)
    requires z > 0.0
    ensures (x + y) / z == x / z + y / z && (x * z) / z == x
  {
  }

  // The mean of the bases.
  function Mean(bases: seq<real>): real
    requires bases != []
  {
    Sum(bases) / |bases| as real
  }

  // How far over the target the share may be.
  function Excess(bases: seq<real>): real
    requires bases != [] && Least(bases) > 0.0
  {
    Mean(bases) * Halved(1.0 / Least(bases), STEPS)
  }

  lemma FittedPositive(bases: seq<real>, target: real, scale: real)
    requires bases != [] && Fitted(bases, target, scale)
    ensures scale > 0.0
  {
  }

  /** At a fitted scale the paid share is at least the target, and over it by less
      than the mean base times the last step of the bisection. */
  lemma FittedShare(bases: seq<real>, target: real, scale: real)
    requires bases != [] && Fitted(bases, target, scale)
    ensures var share := Total(bases, scale) / |bases| as real;
            target <= share < target + Excess(bases)
  {
    hide Total, Sum, Halved, Least;
    ShareBounds(Total(bases, scale), |bases| as real, target, Sum(bases), Halved(1.0 / Least(bases), STEPS));
  }

  lemma ShareBounds(total: real, n: real, target: real, sum: real, step: real)
    requires n > 0.0 && target * n <= total < target * n + sum * step
    ensures target <= total / n < target + sum / n * step
  {
    Divides(target * n, sum * step, n);
    Divides(target, 0.0, n);
    var low := target * n;
    Ordered(low, total, n);
    Ordered(total, low + sum * step, n);
    Reassociate(sum, step, n);
  }

  lemma Ordered(x: real, y: real, z: real)
    requires z > 0.0
    ensures x <= y ==> x / z <= y / z
    ensures x < y ==> x / z < y / z
  {
  }

  lemma Reassociate(x: real, y: real, z: real)
    requires z > 0.0
    ensures x * y / z == x / z * y
  {
  }
}
