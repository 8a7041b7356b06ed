/** Weighted sampling by an alias table: a column is drawn evenly, then either it
    or its alias is taken. */
module AliasTables {
  import opened Words
  import opened Lists
  import Bounded
  import RandomKernel

  // What column j gives to result i.
  function Share(prob: seq<real>, alias: seq<nat>, j: nat, i: nat): real
    requires j < |prob| == |alias|
  {
    (if j == i then prob[j] else 0.0) + if alias[j] == i then 1.0 - prob[j] else 0.0
  }

  // What the first n columns give to result i together.
  function Mass(prob: seq<real>, alias: seq<nat>, i: nat, n: nat): real
    requires n <= |prob| == |alias|
  {
    if n == 0 then 0.0 else Mass(prob, alias, i, n - 1) + Share(prob, alias, n - 1, i)
  }

  lemma {:induction false} MassUpdate(prob: seq<real>, alias: seq<nat>, i: nat, n: nat, s: nat, p: real, l: nat)
    requires n <= |prob| == |alias| && s < |prob|
    ensures Mass(prob[s := p], alias[s := l], i, n) ==
              Mass(prob, alias, i, n) +
              if s < n then Share(prob[s := p], alias[s := l], s, i) - Share(prob, alias, s, i) else 0.0
  {
    if n > 0 {
      MassUpdate(prob, alias, i, n - 1, s, p, l);
    }
  }

  // A table of whole columns gives each result its own.
  lemma {:induction false} WholeColumns(prob: seq<real>, alias: seq<nat>, i: nat, n: nat)
    requires n <= |prob| == |alias| && forall j :: 0 <= j < n ==> prob[j] == 1.0 && alias[j] == j
    ensures Mass(prob, alias, i, n) == if i < n then 1.0 else 0.0
  {
    if n > 0 {
      WholeColumns(prob, alias, i, n - 1);
    }
  }

  function SumAt(indices: seq<nat>, value: seq<real>): real
    requires forall k :: 0 <= k < |indices| ==> indices[k] < |value|
  {
    if indices == [] then 0.0
    else SumAt(indices[..|indices| - 1], value) + value[indices[|indices| - 1]]
  }

  lemma {:induction false} SumAtUpdate(indices: seq<nat>, value: seq<real>, l: nat, x: real)
    requires (forall k :: 0 <= k < |indices| ==> indices[k] < |value|) && l < |value| && l !in indices
    ensures SumAt(indices, value[l := x]) == SumAt(indices, value)
  {
    if indices != [] {
      SumAtUpdate(indices[..|indices| - 1], value, l, x);
    }
  }

  lemma {:induction false} SumBelowCount(indices: seq<nat>, value: seq<real>)
    requires forall k :: 0 <= k < |indices| ==> indices[k] < |value| && value[indices[k]] < 1.0
    ensures SumAt(indices, value) <= |indices| as real
    ensures indices != [] ==> SumAt(indices, value) < |indices| as real
  {
    if indices != [] {
      SumBelowCount(indices[..|indices| - 1], value);
    }
  }

  lemma {:induction false} SumAboveCount(indices: seq<nat>, value: seq<real>)
    requires forall k :: 0 <= k < |indices| ==> indices[k] < |value| && value[indices[k]] >= 1.0
    ensures SumAt(indices, value) >= |indices| as real
    ensures SumAt(indices, value) == |indices| as real ==> forall k :: 0 <= k < |indices| ==> value[indices[k]] == 1.0
  {
    if indices != [] {
      SumAboveCount(indices[..|indices| - 1], value);
    }
  }

  lemma SumSnoc(weights: seq<real>, i: nat)
    requires i < |weights|
    ensures Sum(weights[..i + 1]) == Sum(weights[..i]) + weights[i]
  {
    assert weights[..i + 1][..i] == weights[..i];
  }

  lemma SumAtSnoc(indices: seq<nat>, value: seq<real>, j: nat)
    requires (forall k :: 0 <= k < |indices| ==> indices[k] < |value|) && j < |value|
    ensures SumAt(indices + [j], value) == SumAt(indices, value) + value[j]
  {
    assert (indices + [j])[..|indices|] == indices;
  }

  // ---- Building ----

  // The columns still to be settled: those below one, then the others.
  ghost predicate Pending(small: seq<nat>, large: seq<nat>, scaled: seq<real>) {
    && (forall k :: 0 <= k < |small| ==> small[k] < |scaled| && 0.0 <= scaled[small[k]] < 1.0)
    && (forall k :: 0 <= k < |large| ==> large[k] < |scaled| && scaled[large[k]] >= 1.0)
    && (forall j, k :: 0 <= j < k < |small| ==> small[j] != small[k])
    && (forall j, k :: 0 <= j < k < |large| ==> large[j] != large[k])
    && SumAt(small, scaled) + SumAt(large, scaled) == (|small| + |large|) as real
  }

  predicate IsPending(small: seq<nat>, large: seq<nat>, i: nat) {
    i in small || i in large
  }

  // What result i still lacks is what its unsettled column holds too much.
  predicate Balanced(prob: seq<real>, alias: seq<nat>, small: seq<nat>, large: seq<nat>, scaled: seq<real>, goal: seq<real>, i: nat)
    requires i < |scaled| == |goal| == |prob| == |alias|
  {
    Mass(prob, alias, i, |prob|) == goal[i] + if IsPending(small, large, i) then 1.0 - scaled[i] else 0.0
  }

  predicate ColumnSound(prob: seq<real>, alias: seq<nat>, small: seq<nat>, large: seq<nat>, j: nat)
    requires j < |prob| == |alias|
  {
    && 0.0 <= prob[j] <= 1.0 && alias[j] < |prob|
    && (IsPending(small, large, j) ==> prob[j] == 1.0 && alias[j] == j)
  }

  ghost predicate Settling(prob: seq<real>, alias: seq<nat>, small: seq<nat>, large: seq<nat>, scaled: seq<real>, goal: seq<real>) {
    && |scaled| == |goal| == |prob| == |alias| && Pending(small, large, scaled)
    && (forall j: nat :: j < |prob| ==> ColumnSound(prob, alias, small, large, j))
    && forall i: nat :: i < |prob| ==> Balanced(prob, alias, small, large, scaled, goal, i)
  }

  /** Each result has its share of the columns, and no result lies outside. */
  ghost predicate Represents(prob: seq<real>, alias: seq<nat>, goal: seq<real>) {
    && |prob| == |alias| == |goal|
    && (forall j :: 0 <= j < |prob| ==> 0.0 <= prob[j] <= 1.0 && alias[j] < |prob|)
    && forall i: nat :: i < |goal| ==> Mass(prob, alias, i, |prob|) == goal[i]
  }

  function Scaled(weights: seq<real>, total: real): (r: seq<real>)
    requires total > 0.0
    ensures |r| == |weights| && forall i :: 0 <= i < |r| ==> r[i] == ScaledWeight(weights[i], |weights| as real, total)
  {
    seq(|weights|, i requires 0 <= i < |weights| => ScaledWeight(weights[i], |weights| as real, total))
  }

  // A weight as a number of columns.
  function ScaledWeight(w: real, n: real, total: real): real
    requires total > 0.0
  {
    w * n / total
  }

  predicate Buildable(weights: seq<real>) {
    weights != [] && (forall i :: 0 <= i < |weights| ==> weights[i] >= 0.0) && Sum(weights) > 0.0
  }

  // The last small column is filled up from the last large one.
  lemma SettleColumn(prob: seq<real>, alias: seq<nat>, small: seq<nat>, large: seq<nat>, scaled: seq<real>, goal: seq<real>)
    requires Settling(prob, alias, small, large, scaled, goal) && small != [] && large != []
    ensures var s, l := small[|small| - 1], large[|large| - 1];
            var rest := scaled[l] + scaled[s] - 1.0;
            && rest >= 0.0
            && Settling(prob[s := scaled[s]], alias[s := l],
                        if rest < 1.0 then small[..|small| - 1] + [l] else small[..|small| - 1],
                        if rest < 1.0 then large[..|large| - 1] else large[..|large| - 1] + [l],
                        scaled[l := rest], goal)
  {
    hide SumAt, Mass, Share, Balanced, ColumnSound, IsPending, Pending;
    var s, l := small[|small| - 1], large[|large| - 1];
    var small', large' := small[..|small| - 1], large[..|large| - 1];
    assert small == small' + [s] && large == large' + [l];
    RestPending(small', large', s, l, scaled);
    var rest := scaled[l] + scaled[s] - 1.0;
    var smaller := if rest < 1.0 then small' + [l] else small';
    var larger := if rest < 1.0 then large' else large' + [l];
    forall i: nat ensures IsPending(smaller, larger, i) <==> IsPending(small, large, i) && i != s {
      StillPending(small', large', s, l, i);
    }
    var prob', alias', scaled' := prob[s := scaled[s]], alias[s := l], scaled[l := rest];
    SettledFacts(prob, alias, small, large, s);
    forall j: nat | j < |prob'| ensures ColumnSound(prob', alias', smaller, larger, j) {
      assert ColumnSound(prob, alias, small, large, j);
      ColumnNext(prob, alias, small, large, scaled, s, l, smaller, larger, j);
    }
    forall i: nat | i < |prob'| ensures Balanced(prob', alias', smaller, larger, scaled', goal, i) {
      assert Balanced(prob, alias, small, large, scaled, goal, i);
      BalancedNext(prob, alias, small, large, scaled, goal, s, l, smaller, larger, i);
    }
  }

  lemma StillPending(small: seq<nat>, large: seq<nat>, s: nat, l: nat, i: nat)
    requires s !in small && s !in large && s != l
    ensures IsPending(small + [l], large, i) <==> IsPending(small + [s], large + [l], i) && i != s
    ensures IsPending(small, large + [l], i) <==> IsPending(small + [s], large + [l], i) && i != s
  {
  }

  lemma SettledFacts(prob: seq<real>, alias: seq<nat>, small: seq<nat>, large: seq<nat>, s: nat)
    requires s < |prob| == |alias| && ColumnSound(prob, alias, small, large, s) && s in small
    ensures prob[s] == 1.0 && alias[s] == s
  {
  }

  lemma ColumnNext(prob: seq<real>, alias: seq<nat>, small: seq<nat>, large: seq<nat>, scaled: seq<real>,
                   s: nat, l: nat, smaller: seq<nat>, larger: seq<nat>, j: nat)
    requires |scaled| == |prob| == |alias| && j < |prob| && s < |prob| && l < |prob| && 0.0 <= scaled[s] < 1.0
    requires ColumnSound(prob, alias, small, large, j)
    requires IsPending(smaller, larger, j) <==> IsPending(small, large, j) && j != s
    ensures ColumnSound(prob[s := scaled[s]], alias[s := l], smaller, larger, j)
  {
    hide IsPending;
  }

  lemma BalancedNext(prob: seq<real>, alias: seq<nat>, small: seq<nat>, large: seq<nat>, scaled: seq<real>, goal: seq<real>,
                     s: nat, l: nat, smaller: seq<nat>, larger: seq<nat>, i: nat)
    requires |scaled| == |goal| == |prob| == |alias| && i < |prob|
    requires s in small && l in large && s != l && s < |prob| && l < |prob| && prob[s] == 1.0 && alias[s] == s
    requires Balanced(prob, alias, small, large, scaled, goal, i)
    requires forall j: nat :: IsPending(smaller, larger, j) <==> IsPending(small, large, j) && j != s
    ensures Balanced(prob[s := scaled[s]], alias[s := l], smaller, larger, scaled[l := scaled[l] + scaled[s] - 1.0], goal, i)
  {
    hide Mass, Share;
    MassUpdate(prob, alias, i, |prob|, s, scaled[s], l);
    ShareOfWhole(prob, alias, s, scaled[s], l, i);
    assert IsPending(small, large, s) && IsPending(small, large, l);
    assert IsPending(smaller, larger, i) <==> IsPending(small, large, i) && i != s;
  }

  lemma ShareOfWhole(prob: seq<real>, alias: seq<nat>, s: nat, p: real, l: nat, i: nat)
    requires s < |prob| == |alias| && prob[s] == 1.0 && alias[s] == s && l != s
    ensures Share(prob, alias, s, i) == if i == s then 1.0 else 0.0
    ensures Share(prob[s := p], alias[s := l], s, i) == if i == s then p else if i == l then 1.0 - p else 0.0
  {
  }

  lemma RestPending(small: seq<nat>, large: seq<nat>, s: nat, l: nat, scaled: seq<real>)
    requires Pending(small + [s], large + [l], scaled)
    ensures s < |scaled| && l < |scaled| && s != l
    ensures s !in small && s !in large && l !in small && l !in large && 0.0 <= scaled[s] < 1.0
    ensures var rest := scaled[l] + scaled[s] - 1.0;
            && rest >= 0.0
            && Pending(if rest < 1.0 then small + [l] else small, if rest < 1.0 then large else large + [l], scaled[l := rest])
  {
    hide SumAt;
    var longS, longL := small + [s], large + [l];
    assert longS[|small|] == s && longL[|large|] == l;
    assert forall k :: 0 <= k < |small| ==> longS[k] == small[k];
    assert forall k :: 0 <= k < |large| ==> longL[k] == large[k];
    SumAtSnoc(small, scaled, s);
    SumAtSnoc(large, scaled, l);
    var rest := scaled[l] + scaled[s] - 1.0;
    var after := scaled[l := rest];
    SumAtUpdate(small, scaled, l, rest);
    SumAtUpdate(large, scaled, l, rest);
    SumAtSnoc(small, after, l);
    SumAtSnoc(large, after, l);
  }

  predicate Whole(prob: seq<real>, alias: seq<nat>, columns: seq<nat>) {
    |prob| == |alias| &&
    forall k :: 0 <= k < |columns| ==> columns[k] < |prob| && prob[columns[k]] == 1.0 && alias[columns[k]] == columns[k]
  }

  // With exact arithmetic no small column is left, and the large ones are whole.
  lemma Leftovers(prob: seq<real>, alias: seq<nat>, small: seq<nat>, large: seq<nat>, scaled: seq<real>, goal: seq<real>)
    requires Settling(prob, alias, small, large, scaled, goal) && (small == [] || large == [])
    ensures small == [] && Represents(prob, alias, goal) && Whole(prob, alias, large)
  {
    hide Mass, Share;
    SumBelowCount(small, scaled);
    SumAboveCount(large, scaled);
    assert small == [];
    forall i: nat | i < |goal| ensures Mass(prob, alias, i, |prob|) == goal[i] {
      assert Balanced(prob, alias, small, large, scaled, goal, i);
      if i in large {
        var k :| 0 <= k < |large| && large[k] == i;
      }
    }
    forall j: nat | j < |prob| ensures 0.0 <= prob[j] <= 1.0 && alias[j] < |prob| {
      assert ColumnSound(prob, alias, small, large, j);
    }
    forall k | 0 <= k < |large| ensures prob[large[k]] == 1.0 && alias[large[k]] == large[k] {
      assert ColumnSound(prob, alias, small, large, large[k]);
    }
  }

  // Splitting the scaled weights: the first i columns have been told apart.
  ghost predicate Splitting(small: seq<nat>, large: seq<nat>, scaled: seq<real>, i: nat)
    requires i <= |scaled|
  {
    && (forall k :: 0 <= k < |small| ==> small[k] < i && 0.0 <= scaled[small[k]] < 1.0)
    && (forall k :: 0 <= k < |large| ==> large[k] < i && scaled[large[k]] >= 1.0)
    && (forall j, k :: 0 <= j < k < |small| ==> small[j] != small[k])
    && (forall j, k :: 0 <= j < k < |large| ==> large[j] != large[k])
    && |small| + |large| == i && (forall k: nat :: k < i ==> IsPending(small, large, k))
    && SumAt(small, scaled) + SumAt(large, scaled) == Sum(scaled[..i])
  }

  lemma SplitNext(small: seq<nat>, large: seq<nat>, scaled: seq<real>, i: nat)
    requires i < |scaled| && scaled[i] >= 0.0 && Splitting(small, large, scaled, i)
    ensures scaled[i] < 1.0 ==> Splitting(small + [i], large, scaled, i + 1)
    ensures scaled[i] >= 1.0 ==> Splitting(small, large + [i], scaled, i + 1)
  {
    hide SumAt, Sum;
    SumSnoc(scaled, i);
    SumAtSnoc(small, scaled, i);
    SumAtSnoc(large, scaled, i);
    forall k: nat | k < i + 1
      ensures IsPending(small + [i], large, k) && IsPending(small, large + [i], k)
    {
      assert k == i || IsPending(small, large, k);
    }
  }

  lemma {:induction false} ScaledSum(weights: seq<real>, factor: real, n: nat, scaled: seq<real>)
    requires n <= |weights| == |scaled| && forall i :: 0 <= i < n ==> scaled[i] == weights[i] * factor
    ensures Sum(scaled[..n]) == Sum(weights[..n]) * factor
  {
    if n > 0 {
      ScaledSum(weights, factor, n - 1, scaled);
      SumSnoc(weights, n - 1);
      SumSnoc(scaled, n - 1);
    }
  }

  lemma ScaledToCount(weights: seq<real>, scaled: seq<real>)
    requires Buildable(weights) && scaled == Scaled(weights, Sum(weights))
    ensures Sum(scaled) == |weights| as real
  {
    hide Sum, Buildable, ScaledWeight;
    var n, total := |weights| as real, Sum(weights);
    PositiveTotal(weights);
    var factor := ScaledWeight(1.0, n, total);
    forall i | 0 <= i < |weights| ensures scaled[i] == weights[i] * factor {
      Regroup(weights[i], n, total);
    }
    ScaledSum(weights, factor, |weights|, scaled);
    assert weights[..|weights|] == weights && scaled[..|weights|] == scaled;
    Cancel(n, total);
  }

  lemma PositiveTotal(weights: seq<real>)
    requires Buildable(weights)
    ensures Sum(weights) > 0.0
  {
  }

  lemma Regroup(w: real, n: real, total: real)
    requires total > 0.0
    ensures ScaledWeight(w, n, total) == w * ScaledWeight(1.0, n, total)
  {
  }

  lemma Cancel(n: real, total: real)
    requires total > 0.0
    ensures total * ScaledWeight(1.0, n, total) == n
  {
  }

  lemma ScaledPositive(w: real, n: real, total: real)
    requires w >= 0.0 && n >= 0.0 && total > 0.0
    ensures ScaledWeight(w, n, total) >= 0.0
  {
  }

  // Splitting every column leaves all of them pending.
  lemma AllPending(small: seq<nat>, large: seq<nat>, scaled: seq<real>, prob: seq<real>, alias: seq<nat>)
    requires Splitting(small, large, scaled, |scaled|) && Sum(scaled) == |scaled| as real
    requires |prob| == |alias| == |scaled| && forall j: nat :: j < |prob| ==> prob[j] == 1.0 && alias[j] == j
    ensures Settling(prob, alias, small, large, scaled, scaled)
  {
    hide SumAt, Sum, Mass;
    assert scaled[..|scaled|] == scaled;
    forall i: nat | i < |prob|
      ensures Balanced(prob, alias, small, large, scaled, scaled, i) && ColumnSound(prob, alias, small, large, i)
    {
      WholeColumns(prob, alias, i, |prob|);
      assert IsPending(small, large, i);
    }
  }

  // ---- The table ----

  class AliasTable {
    var prob: seq<real>
    var alias: seq<nat>

    constructor ()
      ensures prob == [] && alias == []
    {
      prob, alias := [], [];
    }

    ghost predicate For(weights: seq<real>)
      reads this
    {
      Buildable(weights) && Represents(prob, alias, Scaled(weights, Sum(weights)))
    }

    /** Builds the table; it fails for an empty, negative or zero weighting. Each
        result's share of the columns is its share of the weight. */
    method Build(weights: seq<real>) returns (ok: bool)
      modifies this
      ensures ok <==> Buildable(weights)
      ensures ok ==> For(weights)
      ensures !ok ==> prob == old(prob) && alias == old(alias)
    {
      hide SumAt, Sum, Mass, Settling, Represents, Splitting, Pending, ScaledWeight;
      var total := Total(weights);
      if total == None || total.value <= 0.0 {
        return false;
      }
      var scaled := Scaled(weights, total.value);
      ScaledToCount(weights, scaled);
      ScaledNonNegative(weights);
      var small, large := Split(scaled);
      prob := seq(|weights|, i => 1.0);
      alias := seq(|weights|, i requires 0 <= i < |weights| => i);
      AllPending(small, large, scaled, prob, alias);
      large := Settle(small, large, scaled);
      for k := 0 to |large|
        invariant Represents(prob, alias, scaled)
        invariant Whole(prob, alias, large)
      {
        assert prob[large[k] := 1.0] == prob && alias[large[k] := large[k]] == alias;
        prob, alias := prob[large[k] := 1.0], alias[large[k] := large[k]];
      }
      ok := true;
    }

    method Settle(small0: seq<nat>, large0: seq<nat>, goal: seq<real>) returns (large: seq<nat>)
      requires Settling(prob, alias, small0, large0, goal, goal)
      modifies this
      ensures Represents(prob, alias, goal) && Whole(prob, alias, large)
    {
      hide SumAt, Sum, Mass, Settling, Represents, Pending;
      var small, scaled := small0, goal;
      large := large0;
      while small != [] && large != []
        invariant Settling(prob, alias, small, large, scaled, goal)
        decreases |small| + |large|
      {
        SettleColumn(prob, alias, small, large, scaled, goal);
        Indices(prob, alias, small, large, scaled, goal);
        var s, l := small[|small| - 1], large[|large| - 1];
        small, large := small[..|small| - 1], large[..|large| - 1];
        prob, alias := prob[s := scaled[s]], alias[s := l];
        scaled := scaled[l := (scaled[l] + scaled[s]) - 1.0];
        if scaled[l] < 1.0 {
          small := small + [l];
        } else {
          large := large + [l];
        }
      }
      Leftovers(prob, alias, small, large, scaled, goal);
    }

    /** A column, or its alias. */
    method Sample(rng: RandomKernel.Rng) returns (r: Option<nat>)
      requires Bounded.Fair(rng.words) && |prob| == |alias| < TWO64
      modifies rng
      ensures r == None <==> prob == []
      ensures r.Some? ==>
        && var (column, next) := Bounded.Draw(rng.words, |prob|, old(rng.pos));
        && column < |prob| && rng.pos == next + 1
        && r.value == if RandomKernel.Fraction(rng.words.At(next)) < prob[column] then column else alias[column]
    {
      if prob == [] {
        return None;
      }
      var column := rng.ChoiceIndex(|prob|);
      var u := rng.NextDouble();
      r := Some(if u < prob[column.value] then column.value else alias[column.value]);
    }
  }

  // The total weight; None for an empty weighting or a negative weight.
  method Total(weights: seq<real>) returns (total: Option<real>)
    ensures total == None <==> weights == [] || exists i :: 0 <= i < |weights| && weights[i] < 0.0
    ensures total.Some? ==> total.value == Sum(weights)
  {
    if weights == [] {
      return None;
    }
    EmptySums();
    var sum := 0.0;
    for i := 0 to |weights|
      invariant sum == Sum(weights[..i]) && forall k :: 0 <= k < i ==> weights[k] >= 0.0
    {
      if weights[i] < 0.0 {
        return None;
      }
      SumSnoc(weights, i);
      sum := sum + weights[i];
    }
    assert weights[..|weights|] == weights;
    total := Some(sum);
  }

  method Split(scaled: seq<real>) returns (small: seq<nat>, large: seq<nat>)
    requires forall i :: 0 <= i < |scaled| ==> scaled[i] >= 0.0
    ensures Splitting(small, large, scaled, |scaled|)
  {
    hide Splitting;
    small, large := [], [];
    NothingSplit(scaled);
    for i := 0 to |scaled|
      invariant Splitting(small, large, scaled, i)
    {
      SplitNext(small, large, scaled, i);
      if scaled[i] < 1.0 {
        small := small + [i];
      } else {
        large := large + [i];
      }
    }
  }

  lemma ScaledNonNegative(weights: seq<real>)
    requires Buildable(weights)
    ensures forall i :: 0 <= i < |weights| ==> Scaled(weights, Sum(weights))[i] >= 0.0
  {
    hide Sum, ScaledWeight;
    forall i | 0 <= i < |weights| ensures Scaled(weights, Sum(weights))[i] >= 0.0 {
      ScaledPositive(weights[i], |weights| as real, Sum(weights));
    }
  }

  lemma EmptySums()
    ensures Sum([]) == 0.0
  {
  }

  lemma NothingSplit(scaled: seq<real>)
    ensures Splitting([], [], scaled, 0)
  {
  }

  lemma Indices(prob: seq<real>, alias: seq<nat>, small: seq<nat>, large: seq<nat>, scaled: seq<real>, goal: seq<real>)
    requires Settling(prob, alias, small, large, scaled, goal) && small != [] && large != []
    ensures small[|small| - 1] < |scaled| == |prob| == |alias| && large[|large| - 1] < |scaled|
  {
  }
}
