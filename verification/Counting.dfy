/** Sizes of finite sets given by an injective function, and of the set of
    vectors drawn below a list of ranges. */
module Counting {
  ghost predicate InjectiveOn<A(!new), B>(s: set<A>, f: A -> B) {
    forall x, y :: x in s && y in s && f(x) == f(y) ==> x == y
  }

  ghost function Image<A(!new), B>(s: set<A>, f: A -> B): set<B> {
    set x | x in s :: f(x)
  }

  lemma {:induction false} ImageSize<A(!new), B>(s: set<A>, f: A -> B)
    requires InjectiveOn(s, f)
    ensures |Image(s, f)| == |s|
  {
    if s == {} {
      assert Image(s, f) == {};
    } else {
      var a :| a in s;
      ImageSize(s - {a}, f);
      assert Image(s, f) == Image(s - {a}, f) + {f(a)};
    }
  }

  ghost function Pairs<A(!new), B(!new)>(s: set<A>, g: A -> set<B>): set<(A, B)> {
    set x, y | x in s && y in g(x) :: (x, y)
  }

  lemma {:induction false} PairsSize<A(!new), B(!new)>(s: set<A>, g: A -> set<B>, c: nat)
    requires forall x :: x in s ==> |g(x)| == c
    ensures |Pairs(s, g)| == |s| * c
  {
    if s == {} {
      assert Pairs(s, g) == {};
    } else {
      var a :| a in s;
      PairsSize(s - {a}, g, c);
      var f := y => (a, y);
      ImageSize(g(a), f);
      var others, mine := Pairs(s - {a}, g), Image(g(a), f);
      assert Pairs(s, g) == others + mine;
      assert others !! mine;
      OneMoreTime(|s|, c);
    }
  }

  lemma OneMoreTime(n: nat, c: nat)
    requires n > 0
    ensures (n - 1) * c + c == n * c
  {
  }

  // ---- Draw vectors ----

  function Factorial(n: nat): (f: nat)
    ensures f > 0
  {
    if n == 0 then 1 else n * Factorial(n - 1)
  }

  function Product(ranges: seq<nat>): nat {
    if ranges == [] then 1 else Product(ranges[..|ranges| - 1]) * ranges[|ranges| - 1]
  }

  ghost predicate Within(d: seq<nat>, ranges: seq<nat>) {
    |d| == |ranges| && forall i :: 0 <= i < |d| ==> d[i] < ranges[i]
  }

  ghost function Below(n: nat): (s: set<nat>)
    ensures |s| == n
    ensures forall x: nat :: x in s <==> x < n
  {
    if n == 0 then {} else Below(n - 1) + {n - 1}
  }

  /** All the vectors whose i-th entry lies below ranges[i]. */
  ghost function Vectors(ranges: seq<nat>): set<seq<nat>> {
    if ranges == [] then
      {[]}
    else
      var k := |ranges| - 1;
      SnocAll(Pairs(Below(ranges[k]), Always(Vectors(ranges[..k]))))
  }

  ghost function Always(ds: set<seq<nat>>): nat -> set<seq<nat>> {
    _ => ds
  }

  ghost function SnocAll(s: set<(nat, seq<nat>)>): set<seq<nat>> {
    set p | p in s :: Snoc(p)
  }

  function Snoc(p: (nat, seq<nat>)): seq<nat> {
    p.1 + [p.0]
  }

  lemma SnocAllMember(d: seq<nat>, s: set<(nat, seq<nat>)>)
    requires d != []
    ensures d in SnocAll(s) <==> (d[|d| - 1], d[..|d| - 1]) in s
  {
    var last := (d[|d| - 1], d[..|d| - 1]);
    assert Snoc(last) == d;
    forall p | p in s && Snoc(p) == d ensures p == last {
      assert p.1 == Snoc(p)[..|p.1|] && p.0 == Snoc(p)[|p.1|];
    }
  }

  lemma SnocAllSize(s: set<(nat, seq<nat>)>)
    ensures |SnocAll(s)| == |s|
  {
    forall x, y | x in s && y in s && Snoc(x) == Snoc(y) ensures x == y {
      assert x.1 == Snoc(x)[..|x.1|] && y.1 == Snoc(y)[..|y.1|];
      assert x.0 == Snoc(x)[|x.1|] && y.0 == Snoc(y)[|y.1|];
    }
    var f := (p: (nat, seq<nat>)) => Snoc(p);
    ImageSize(s, f);
    assert SnocAll(s) == Image(s, f);
  }

  lemma WithinSnoc(d: seq<nat>, ranges: seq<nat>)
    requires d != [] && ranges != []
    ensures Within(d, ranges) <==>
            Within(d[..|d| - 1], ranges[..|ranges| - 1]) && d[|d| - 1] < ranges[|ranges| - 1]
  {
    var k := |ranges| - 1;
    if Within(d[..|d| - 1], ranges[..k]) && d[|d| - 1] < ranges[k] {
      forall i | 0 <= i < |d| ensures d[i] < ranges[i] {
        if i < k {
          assert d[i] == d[..k][i] && ranges[i] == ranges[..k][i];
        }
      }
    }
  }

  lemma {:induction false} VectorsMember(d: seq<nat>, ranges: seq<nat>)
    ensures d in Vectors(ranges) <==> Within(d, ranges)
  {
    if ranges != [] && d != [] {
      VectorsLast(d, ranges);
      VectorsMember(d[..|d| - 1], ranges[..|ranges| - 1]);
      WithinSnoc(d, ranges);
    }
  }

  lemma VectorsLast(d: seq<nat>, ranges: seq<nat>)
    requires d != [] && ranges != []
    ensures d in Vectors(ranges) <==>
            d[..|d| - 1] in Vectors(ranges[..|ranges| - 1]) && d[|d| - 1] < ranges[|ranges| - 1]
  {
    var k := |ranges| - 1;
    SnocAllMember(d, Pairs(Below(ranges[k]), Always(Vectors(ranges[..k]))));
  }

  lemma {:induction false} VectorsSize(ranges: seq<nat>)
    ensures |Vectors(ranges)| == Product(ranges)
  {
    if ranges != [] {
      var k := |ranges| - 1;
      VectorsSize(ranges[..k]);
      PairsSize(Below(ranges[k]), Always(Vectors(ranges[..k])), |Vectors(ranges[..k])|);
      SnocAllSize(Pairs(Below(ranges[k]), Always(Vectors(ranges[..k]))));
    }
  }
}
