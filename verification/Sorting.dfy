// Sorting, as slices.SortFunc does it: by a strict weak order. Wherever it is used here, no
// two elements of the list compare equal, so there is only one sorted list.
module Sorting {
  import opened Paths

  type Order<!T> = (T, T) -> bool

  ghost predicate WeakOrder<T(!new)>(before: Order<T>) {
    && (forall x :: !before(x, x))
    && (forall x, y, z :: before(x, y) && before(y, z) ==> before(x, z))
    && (forall x, y, z :: before(x, z) ==> before(x, y) || before(y, z))
  }

  // No two elements of the list compare equal.
  ghost predicate Separated<T(!new)>(s: seq<T>, before: Order<T>) {
    forall i, j :: 0 <= i < j < |s| ==> before(s[i], s[j]) || before(s[j], s[i])
  }

  ghost predicate Sorted<T(!new)>(s: seq<T>, before: Order<T>) {
    forall i, j :: 0 <= i < j < |s| ==> before(s[i], s[j])
  }

  function Insert<T>(s: seq<T>, x: T, before: Order<T>): seq<T> {
    if s == [] then [x]
    else if before(x, s[|s| - 1]) then Insert(s[..|s| - 1], x, before) + [s[|s| - 1]]
    else s + [x]
  }

  function Sort<T>(s: seq<T>, before: Order<T>): seq<T> {
    if s == [] then [] else Insert(Sort(s[..|s| - 1], before), s[|s| - 1], before)
  }

  lemma {:induction false} InsertElements<T>(s: seq<T>, x: T, before: Order<T>)
    ensures multiset(Insert(s, x, before)) == multiset(s) + multiset{x}
  {
    if s != [] && before(x, s[|s| - 1]) {
      InsertElements(s[..|s| - 1], x, before);
      assert s == s[..|s| - 1] + [s[|s| - 1]];
    }
  }

  lemma {:induction false} SortElements<T>(s: seq<T>, before: Order<T>)
    ensures multiset(Sort(s, before)) == multiset(s)
    ensures |Sort(s, before)| == |s|
    ensures forall x :: x in Sort(s, before) <==> x in s
  {
    hide Insert;
    if s != [] {
      var n := |s| - 1;
      SortElements(s[..n], before);
      InsertElements(Sort(s[..n], before), s[n], before);
      assert s == s[..n] + [s[n]];
    }
    SameElements(s, Sort(s, before));
  }

  lemma SameElements<T>(s: seq<T>, t: seq<T>)
    requires multiset(s) == multiset(t)
    ensures |s| == |t| && forall x :: x in t <==> x in s
  {
    assert |multiset(s)| == |s| && |multiset(t)| == |t|;
    forall x
      ensures x in t <==> x in s
    {
      assert x in t <==> x in multiset(t);
      assert x in s <==> x in multiset(s);
    }
  }

  lemma Transitive<T(!new)>(before: Order<T>, x: T, y: T, z: T)
    requires WeakOrder(before) && before(x, y) && before(y, z)
    ensures before(x, z)
  {
  }

  lemma AppendSorted<T(!new)>(s: seq<T>, x: T, before: Order<T>)
    requires WeakOrder(before) && Sorted(s, before) && forall y :: y in s ==> before(y, x)
    ensures Sorted(s + [x], before)
  {
  }

  lemma {:induction false} InsertSorted<T(!new)>(s: seq<T>, x: T, before: Order<T>)
    requires WeakOrder(before) && Sorted(s, before)
    requires forall y :: y in s ==> before(x, y) || before(y, x)
    ensures Sorted(Insert(s, x, before), before)
  {
    hide WeakOrder;
    if s != [] && before(x, s[|s| - 1]) {
      var n := |s| - 1;
      InsertSorted(s[..n], x, before);
      InsertElements(s[..n], x, before);
      var r := Insert(s[..n], x, before);
      forall y | y in r
        ensures before(y, s[n])
      {
        assert y in multiset(r);
        assert y == x || y in s[..n];
      }
      AppendSorted(r, s[n], before);
    } else {
      forall y | y in s
        ensures before(y, x)
      {
        var i :| 0 <= i < |s| && s[i] == y;
        if i < |s| - 1 {
          assert s[|s| - 1] in s;
          Transitive(before, y, s[|s| - 1], x);
        }
      }
      AppendSorted(s, x, before);
    }
  }

  lemma {:induction false} SortSorts<T(!new)>(s: seq<T>, before: Order<T>)
    requires WeakOrder(before) && Separated(s, before)
    ensures Sorted(Sort(s, before), before)
  {
    hide WeakOrder, Separated, Sorted, Insert;
    if s == [] {
      NothingSorted(before);
    } else {
      var n := |s| - 1;
      assert s == s[..n] + [s[n]];
      SeparatedFront(s[..n], s[n], before);
      SortSorts(s[..n], before);
      SortElements(s[..n], before);
      InsertSorted(Sort(s[..n], before), s[n], before);
    }
  }

  lemma NothingSorted<T(!new)>(before: Order<T>)
    ensures Sorted([], before)
  {
  }

  lemma SeparatedFront<T(!new)>(s: seq<T>, x: T, before: Order<T>)
    requires Separated(s + [x], before)
    ensures Separated(s, before)
    ensures forall y :: y in s ==> before(x, y) || before(y, x)
  {
    var t := s + [x];
    assert forall i :: 0 <= i < |s| ==> t[i] == s[i];
    forall y | y in s
      ensures before(x, y) || before(y, x)
    {
      var i :| 0 <= i < |s| && s[i] == y;
      assert before(t[i], t[|s|]) || before(t[|s|], t[i]);
    }
  }

  // There is only one sorted list of the same elements.
  lemma {:induction false} SortedUnique<T(!new)>(s: seq<T>, t: seq<T>, before: Order<T>)
    requires WeakOrder(before) && Sorted(s, before) && Sorted(t, before)
    requires forall x :: x in s <==> x in t
    ensures s == t
  {
    if s == [] {
      assert forall i :: 0 <= i < |t| ==> t[i] in t;
    } else {
      assert s[0] in t;
      var n, m := |s| - 1, |t| - 1;
      assert s[n] in t && t[m] in s;
      assert s[n] == t[m];
      forall x
        ensures x in s[..n] <==> x in t[..m]
      {
        if x in s[..n] {
          var i :| 0 <= i < n && s[i] == x;
          assert x in s && before(x, s[n]);
          var j :| 0 <= j < |t| && t[j] == x;
        }
        if x in t[..m] {
          var i :| 0 <= i < m && t[i] == x;
          assert x in t && before(x, t[m]);
          var j :| 0 <= j < |s| && s[j] == x;
        }
      }
      SortedUnique(s[..n], t[..m], before);
      assert s == s[..n] + [s[n]] && t == t[..m] + [t[m]];
    }
  }

  // How many elements come before x.
  ghost function Earlier<T(!new)>(s: seq<T>, x: T, before: Order<T>): set<T> {
    set y | y in s && before(y, x)
  }

  // The k first elements of the sorted list are those that fewer than k others precede.
  lemma RankPrefix<T(!new)>(s: seq<T>, before: Order<T>, k: nat, x: T)
    requires WeakOrder(before) && Separated(s, before) && k <= |s| && x in s
    ensures k <= |Sort(s, before)|
    ensures x in Sort(s, before)[..k] <==> |Earlier(s, x, before)| < k
  {
    var r := Sort(s, before);
    SortSorts(s, before);
    SortElements(s, before);
    var i :| 0 <= i < |r| && r[i] == x;
    PrefixIsEarlier(r, before, i);
    assert Earlier(s, x, before) == Earlier(r, x, before);
    if x in r[..k] {
      var j :| 0 <= j < k && r[j] == x;
      assert i == j;
    }
  }

  lemma PrefixIsEarlier<T(!new)>(r: seq<T>, before: Order<T>, i: nat)
    requires WeakOrder(before) && Sorted(r, before) && i < |r|
    ensures |Earlier(r, r[i], before)| == i
  {
    var e := Earlier(r, r[i], before);
    forall x
      ensures x in e <==> x in r[..i]
    {
      if x in e {
        var j :| 0 <= j < |r| && r[j] == x;
        assert j < i;
        assert r[..i][j] == x;
      }
    }
    DistinctCount(r[..i], e);
  }

  lemma {:induction false} DistinctCount<T>(s: seq<T>, e: set<T>)
    requires Distinct(s) && forall x :: x in e <==> x in s
    ensures |e| == |s|
  {
    if s == [] {
      assert e == {};
    } else {
      var n := |s| - 1;
      forall x
        ensures x in e - {s[n]} <==> x in s[..n]
      {
        assert x in s <==> x in s[..n] || x == s[n];
      }
      DistinctCount(s[..n], e - {s[n]});
    }
  }
}
