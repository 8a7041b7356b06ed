/** Stable sorting by a total preorder, standing for the library sorts: its
    result is fixed by order and stability, whatever algorithm computes it. */
module Sorting {
  ghost predicate TotalPreorder<T(!new)>(le: (T, T) -> bool) {
    && (forall x, y :: le(x, y) || le(y, x))
    && (forall x, y, z :: le(x, y) && le(y, z) ==> le(x, z))
  }

  ghost predicate Sorted<T>(s: seq<T>, le: (T, T) -> bool) {
    forall i, j :: 0 <= i < j < |s| ==> le(s[i], s[j])
  }

  // x goes before the entries it is tied with.
  function Insert<T>(x: T, s: seq<T>, le: (T, T) -> bool): seq<T> {
    if s == [] || le(x, s[0]) then [x] + s else [s[0]] + Insert(x, s[1..], le)
  }

  function Sort<T>(s: seq<T>, le: (T, T) -> bool): seq<T> {
    if s == [] then [] else Insert(s[0], Sort(s[1..], le), le)
  }

  function Filter<T>(s: seq<T>, p: T -> bool): seq<T> {
    if s == [] then [] else if p(s[0]) then [s[0]] + Filter(s[1..], p) else Filter(s[1..], p)
  }

  lemma {:induction false} InsertSorted<T(!new)>(x: T, s: seq<T>, le: (T, T) -> bool)
    requires TotalPreorder(le) && Sorted(s, le)
    ensures Sorted(Insert(x, s, le), le) && multiset(Insert(x, s, le)) == multiset(s) + multiset{x}
  {
    if s == [] {
    } else if le(x, s[0]) {
      assert multiset([x] + s) == multiset(s) + multiset{x};
    } else {
      InsertSorted(x, s[1..], le);
      var rest := Insert(x, s[1..], le);
      assert s == [s[0]] + s[1..];
      forall i | 0 <= i < |rest| ensures le(s[0], rest[i]) {
        assert rest[i] in multiset(s[1..]) + multiset{x};
      }
    }
  }

  lemma {:induction false} SortSorted<T(!new)>(s: seq<T>, le: (T, T) -> bool)
    requires TotalPreorder(le)
    ensures Sorted(Sort(s, le), le) && multiset(Sort(s, le)) == multiset(s)
  {
    if s != [] {
      SortSorted(s[1..], le);
      InsertSorted(s[0], Sort(s[1..], le), le);
      assert s == [s[0]] + s[1..];
    }
  }

  lemma {:induction false} FilterMember<T>(s: seq<T>, p: T -> bool, x: T)
    ensures x in Filter(s, p) <==> x in s && p(x)
  {
    if s != [] {
      FilterMember(s[1..], p, x);
      assert s == [s[0]] + s[1..];
    }
  }

  lemma FilterCons<T>(x: T, s: seq<T>, p: T -> bool)
    ensures Filter([x] + s, p) == if p(x) then [x] + Filter(s, p) else Filter(s, p)
  {
    assert ([x] + s)[1..] == s;
  }

  lemma {:induction false} FilterConcat<T>(s: seq<T>, t: seq<T>, p: T -> bool)
    ensures Filter(s + t, p) == Filter(s, p) + Filter(t, p)
  {
    if s == [] {
      assert s + t == t;
    } else {
      FilterConcat(s[1..], t, p);
      assert s + t == [s[0]] + (s[1..] + t);
      FilterCons(s[0], s[1..] + t, p);
    }
  }

  lemma {:induction false} InsertFilter<T(!new)>(x: T, s: seq<T>, le: (T, T) -> bool, p: T -> bool)
    requires TotalPreorder(le) && Sorted(s, le)
    ensures Filter(Insert(x, s, le), p) == if p(x) then Insert(x, Filter(s, p), le) else Filter(s, p)
  {
    if s == [] {
    } else if le(x, s[0]) {
      FilterCons(x, s, p);
      if p(x) && Filter(s, p) != [] {
        FilterMember(s, p, Filter(s, p)[0]);
      }
    } else {
      InsertFilter(x, s[1..], le, p);
      FilterCons(s[0], Insert(x, s[1..], le), p);
      assert p(s[0]) ==> ([s[0]] + Filter(s[1..], p))[1..] == Filter(s[1..], p);
    }
  }

  /** Selecting commutes with sorting, ties included. */
  lemma {:induction false} SortFilter<T(!new)>(s: seq<T>, le: (T, T) -> bool, p: T -> bool)
    requires TotalPreorder(le)
    ensures Filter(Sort(s, le), p) == Sort(Filter(s, p), le)
  {
    if s != [] {
      SortFilter(s[1..], le, p);
      SortSorted(s[1..], le);
      InsertFilter(s[0], Sort(s[1..], le), le, p);
      assert p(s[0]) ==> ([s[0]] + Filter(s[1..], p))[1..] == Filter(s[1..], p);
    }
  }

  lemma {:induction false} SortOfSorted<T(!new)>(s: seq<T>, le: (T, T) -> bool)
    requires TotalPreorder(le) && Sorted(s, le)
    ensures Sort(s, le) == s
  {
    if s != [] {
      SortOfSorted(s[1..], le);
      assert s == [s[0]] + s[1..];
    }
  }

  /** A sorted list that keeps each group of ties in its original order is the
      stable sort: no other result is possible. */
  lemma {:induction false} StableSortUnique<T(!new)>(s: seq<T>, t: seq<T>, le: (T, T) -> bool)
    requires TotalPreorder(le) && Sorted(t, le)
    requires forall x :: Filter(t, Ties(x, le)) == Filter(s, Ties(x, le))
    ensures t == Sort(s, le)
    decreases |t|
  {
    SortSorted(s, le);
    var r := Sort(s, le);
    forall x ensures Filter(r, Ties(x, le)) == Filter(t, Ties(x, le)) {
      SortFilter(s, le, Ties(x, le));
      var group := Filter(s, Ties(x, le));
      forall i, j | 0 <= i < j < |group| ensures le(group[i], group[j]) {
        FilterMember(s, Ties(x, le), group[i]);
        FilterMember(s, Ties(x, le), group[j]);
      }
      SortOfSorted(group, le);
    }
    SameGroupsSameList(r, t, le);
  }

  function Ties<T>(x: T, le: (T, T) -> bool): T -> bool {
    y => le(x, y) && le(y, x)
  }

  lemma {:induction false} SameGroupsSameList<T(!new)>(r: seq<T>, t: seq<T>, le: (T, T) -> bool)
    requires TotalPreorder(le) && Sorted(r, le) && Sorted(t, le)
    requires forall x :: Filter(r, Ties(x, le)) == Filter(t, Ties(x, le))
    ensures r == t
  {
    if r == [] {
      if t != [] {
        HeadsAgree(t, r, le);
      }
    } else {
      HeadsAgree(r, t, le);
      forall x ensures Filter(r[1..], Ties(x, le)) == Filter(t[1..], Ties(x, le)) {
        var p := Ties(x, le);
        assert Filter(r, p) == Filter(t, p);
        assert p(r[0]) ==> ([r[0]] + Filter(r[1..], p))[1..] == Filter(r[1..], p);
        assert p(r[0]) ==> ([t[0]] + Filter(t[1..], p))[1..] == Filter(t[1..], p);
      }
      SameGroupsSameList(r[1..], t[1..], le);
      assert r == [r[0]] + r[1..] && t == [t[0]] + t[1..];
    }
  }

  lemma HeadsAgree<T(!new)>(r: seq<T>, t: seq<T>, le: (T, T) -> bool)
    requires TotalPreorder(le) && Sorted(r, le) && Sorted(t, le) && r != []
    requires forall x :: Filter(r, Ties(x, le)) == Filter(t, Ties(x, le))
    ensures t != [] && r[0] == t[0]
  {
    assert le(r[0], r[0]);
    assert Filter(r, Ties(r[0], le))[0] == r[0];
    FilterMember(t, Ties(r[0], le), r[0]);
    assert le(t[0], t[0]);
    assert Filter(t, Ties(t[0], le))[0] == t[0];
    FilterMember(r, Ties(t[0], le), t[0]);
    assert le(r[0], t[0]) && le(t[0], r[0]);
    assert Filter(t, Ties(r[0], le))[0] == t[0];
  }
}
