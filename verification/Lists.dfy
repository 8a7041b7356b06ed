/** Lists without repetition, and what they hold. */
module Lists {
  predicate Distinct(s: seq<nat>) {
    forall i, j :: 0 <= i < j < |s| ==> s[i] != s[j]
  }

  ghost function Elements(s: seq<nat>): set<nat> {
    set x | x in s
  }

  lemma {:induction false} DistinctSize(s: seq<nat>)
    requires Distinct(s)
    ensures |Elements(s)| == |s|
  {
    if s != [] {
      var m := |s| - 1;
      DistinctSize(s[..m]);
      assert s == s[..m] + [s[m]];
      assert s[m] !in s[..m];
      assert Elements(s) == Elements(s[..m]) + {s[m]};
    }
  }

  lemma {:induction false} DistinctByCount(s: seq<nat>)
    ensures Distinct(s) <==> forall x :: multiset(s)[x] <= 1
  {
    if s != [] {
      var m := |s| - 1;
      DistinctByCount(s[..m]);
      assert s == s[..m] + [s[m]];
      if Distinct(s) {
        assert s[m] !in s[..m];
      }
      assert multiset(s)[s[m]] == multiset(s[..m])[s[m]] + 1;
      if forall x :: multiset(s)[x] <= 1 {
        assert multiset(s[..m])[s[m]] == 0;
        forall x ensures multiset(s[..m])[x] <= 1 {
          assert multiset(s)[x] == multiset(s[..m])[x] + multiset([s[m]])[x];
        }
        assert s[m] !in s[..m];
      }
    }
  }

  // No list of numbers from 1 to n is longer than n without repeating one.
  lemma {:induction false} DistinctFits(s: seq<nat>, n: nat)
    requires Distinct(s) && forall k :: 0 <= k < |s| ==> 1 <= s[k] <= n
    ensures |s| <= n
  {
    assert |s| > 0 ==> 1 <= s[0] <= n;
    if n > 0 {
      if n in s {
        var k: nat :| k < |s| && s[k] == n;
        var rest := s[..k] + s[k + 1..];
        assert forall j :: 0 <= j < |rest| ==> rest[j] == if j < k then s[j] else s[j + 1];
        DistinctFits(rest, n - 1);
      } else {
        DistinctFits(s, n - 1);
      }
    }
  }

  function Sum(s: seq<real>): real {
    if s == [] then 0.0 else Sum(s[..|s| - 1]) + s[|s| - 1]
  }
}
