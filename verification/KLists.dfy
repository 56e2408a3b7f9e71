// What being a list of K shortest paths fixes: its length, its weights, and, exactly when no
// listed path is tied, the list itself; and how long such a list stays valid when weights rise.
module KLists {
  import opened Paths
  import opened KShortest

  ghost function Elements<T>(s: seq<T>): set<T> {
    set x | x in s
  }

  lemma {:induction false} DistinctSize<T>(s: seq<T>)
    requires Distinct(s)
    ensures |Elements(s)| == |s|
  {
    if s != [] {
      var n := |s| - 1;
      DistinctSize(s[..n]);
      assert s == s[..n] + [s[n]];
      assert Elements(s) == Elements(s[..n]) + {s[n]};
    }
  }

  // ---------- there are finitely many simple paths ----------

  ghost function SeqsOver(vs: set<Vertex>, n: nat): set<Path> {
    if n == 0 then {[]}
    else
      var shorter := SeqsOver(vs, n - 1);
      shorter + set p, v | p in shorter && v in vs :: p + [v]
  }

  lemma {:induction false} SeqsOverHas(vs: set<Vertex>, n: nat, p: Path)
    requires |p| <= n && forall v :: v in p ==> v in vs
    ensures p in SeqsOver(vs, n)
  {
    if n > 0 && |p| < n {
      SeqsOverHas(vs, n - 1, p);
    } else if n > 0 {
      var q, v := p[..n - 1], p[n - 1];
      SeqsOverHas(vs, n - 1, q);
      assert p == q + [v] && v in p;
    }
  }

  ghost function SimplePaths(a: Arcs, src: Vertex, dst: Vertex): set<Path> {
    var vs := Vertices(a) + {src};
    set p | p in SeqsOver(vs, |vs|) && SimplePath(a, src, dst, p)
  }

  // The set holds every simple path.
  lemma SimplePathsAll(a: Arcs, src: Vertex, dst: Vertex, p: Path)
    ensures p in SimplePaths(a, src, dst) <==> SimplePath(a, src, dst, p)
  {
    var vs := Vertices(a) + {src};
    if SimplePath(a, src, dst, p) {
      forall v | v in p
        ensures v in vs
      {
        var i :| 0 <= i < |p| && p[i] == v;
        if i > 0 {
          assert Link(p[i - 1], p[i - 1 + 1]) in a;
        }
      }
      DistinctFits(p, vs);
      SeqsOverHas(vs, |vs|, p);
    }
  }

  // The list holds exactly min(K, number of simple paths) paths.
  lemma ListLength(a: Arcs, src: Vertex, dst: Vertex, k: int, r: seq<Path>)
    requires IsKShortest(a, src, dst, k, r)
    ensures var all := SimplePaths(a, src, dst);
      |r| == if Bound(k) <= |all| then Bound(k) else |all|
  {
    hide SimplePaths, SimplePath, PathWeight;
    var all := SimplePaths(a, src, dst);
    DistinctSize(r);
    forall p | p in Elements(r)
      ensures p in all
    {
      var i :| 0 <= i < |r| && r[i] == p;
      assert SimplePath(a, src, dst, r[i]);
      SimplePathsAll(a, src, dst, p);
    }
    SubsetSize(Elements(r), all);
    if Elements(r) != all {
      var q :| q in all && q !in Elements(r);
      SimplePathsAll(a, src, dst, q);
      assert SimplePath(a, src, dst, q) && Beaten(a, k, r, q);
    }
  }

  // Of the first i + 1 paths of one list, one is not among the first i of the other.
  lemma OneIsNew(r: seq<Path>, s: seq<Path>, i: nat) returns (j: nat)
    requires i < |r| && i < |s| && Distinct(s)
    ensures j <= i && s[j] !in r[..i]
  {
    if forall j :: 0 <= j <= i ==> s[j] in r[..i] {
      DistinctFits(s[..i + 1], Elements(r[..i]));
      SeqSize(r[..i]);
      assert false;
    }
    j :| 0 <= j <= i && s[j] !in r[..i];
  }

  lemma {:induction false} SeqSize<T>(s: seq<T>)
    ensures |Elements(s)| <= |s|
  {
    if s != [] {
      var n := |s| - 1;
      SeqSize(s[..n]);
      assert s == s[..n] + [s[n]];
      assert Elements(s) == Elements(s[..n]) + {s[n]};
    }
  }

  lemma NoHeavier(a: Arcs, src: Vertex, dst: Vertex, k: int, r: seq<Path>, s: seq<Path>, i: nat)
    requires IsKShortest(a, src, dst, k, r) && IsKShortest(a, src, dst, k, s)
    requires i < |r| && i < |s|
    ensures PathWeight(a, r[i]) <= PathWeight(a, s[i])
  {
    var j := OneIsNew(r, s, i);
    assert SimplePath(a, src, dst, s[j]);
    if s[j] in r {
      var t :| 0 <= t < |r| && r[t] == s[j];
      assert t >= i;
    } else {
      assert Beaten(a, k, r, s[j]);
    }
  }

  lemma NoLonger(a: Arcs, src: Vertex, dst: Vertex, k: int, r: seq<Path>, s: seq<Path>)
    requires IsKShortest(a, src, dst, k, r) && IsKShortest(a, src, dst, k, s)
    ensures |s| <= |r|
  {
    if |r| < Bound(k) {
      forall p | p in s
        ensures p in Elements(r)
      {
        var i :| 0 <= i < |s| && s[i] == p;
        assert SimplePath(a, src, dst, s[i]);
        assert p !in r ==> Beaten(a, k, r, p);
      }
      DistinctFits(s, Elements(r));
      SeqSize(r);
    }
  }

  // Any two lists have the same length and weights.
  lemma ListsAgree(a: Arcs, src: Vertex, dst: Vertex, k: int, r: seq<Path>, s: seq<Path>)
    requires IsKShortest(a, src, dst, k, r) && IsKShortest(a, src, dst, k, s)
    ensures |r| == |s|
    ensures forall i :: 0 <= i < |r| ==> PathWeight(a, r[i]) == PathWeight(a, s[i])
  {
    NoLonger(a, src, dst, k, r, s);
    NoLonger(a, src, dst, k, s, r);
    forall i | 0 <= i < |r|
      ensures PathWeight(a, r[i]) == PathWeight(a, s[i])
    {
      NoHeavier(a, src, dst, k, r, s, i);
      NoHeavier(a, src, dst, k, s, r, i);
    }
  }

  // No listed path weighs as much as another simple path of the pair.
  ghost predicate Untied(a: Arcs, src: Vertex, dst: Vertex, r: seq<Path>) {
    forall i, q {:trigger r[i], SimplePath(a, src, dst, q)} ::
      0 <= i < |r| && SimplePath(a, src, dst, q) && PathWeight(a, q) == PathWeight(a, r[i]) ==> q == r[i]
  }

  // A path listed elsewhere, or not listed, put in the place of one that weighs the same.
  function Swapped(r: seq<Path>, i: nat, q: Path): (s: seq<Path>)
    requires i < |r|
    ensures |s| == |r| && s[i] == q
    ensures forall j :: 0 <= j < |r| && j != i ==> s[j] == if r[j] == q then r[i] else r[j]
  {
    seq(|r|, j requires 0 <= j < |r| => if j == i then q else if r[j] == q then r[i] else r[j])
  }

  lemma SwappedElements(r: seq<Path>, i: nat, q: Path)
    requires i < |r| && Distinct(r)
    ensures Distinct(Swapped(r, i, q))
    ensures forall p :: p in Swapped(r, i, q) ==> p == q || p in r
    ensures forall p :: p in r && p != r[i] ==> p in Swapped(r, i, q)
    ensures q in r ==> r[i] in Swapped(r, i, q)
  {
    var s := Swapped(r, i, q);
    forall p | p in r && p != r[i]
      ensures p in s
    {
      var j :| 0 <= j < |r| && r[j] == p;
      assert s[if p == q then i else j] == p;
    }
    if q in r {
      var j :| 0 <= j < |r| && r[j] == q;
      assert s[j] == r[i];
    }
  }

  lemma SwappedListed(a: Arcs, src: Vertex, dst: Vertex, k: int, r: seq<Path>, i: nat, q: Path)
    requires IsKShortest(a, src, dst, k, r) && i < |r|
    requires SimplePath(a, src, dst, q) && PathWeight(a, q) == PathWeight(a, r[i])
    ensures IsKShortest(a, src, dst, k, Swapped(r, i, q))
  {
    hide SimplePath, PathWeight, Swapped;
    var s := Swapped(r, i, q);
    SwappedElements(r, i, q);
    forall j | 0 <= j < |s|
      ensures SimplePath(a, src, dst, s[j]) && PathWeight(a, s[j]) == PathWeight(a, r[j])
    {
      assert SimplePath(a, src, dst, r[i]) && SimplePath(a, src, dst, r[j]);
    }
    forall p | SimplePath(a, src, dst, p) && p !in s
      ensures Beaten(a, k, s, p)
    {
      if p in r {
        assert p == r[i] && q !in r;
        assert Beaten(a, k, r, q);
      } else {
        assert Beaten(a, k, r, p);
      }
    }
  }

  // A list is the only one of its pair exactly when it is untied.
  lemma OnlyList(a: Arcs, src: Vertex, dst: Vertex, k: int, r: seq<Path>)
    requires IsKShortest(a, src, dst, k, r)
    ensures Untied(a, src, dst, r) <==> forall s :: IsKShortest(a, src, dst, k, s) ==> s == r
  {
    hide SimplePath, PathWeight, Swapped;
    if Untied(a, src, dst, r) {
      forall s | IsKShortest(a, src, dst, k, s)
        ensures s == r
      {
        UntiedAgrees(a, src, dst, k, r, s);
      }
    } else {
      var i, q :| 0 <= i < |r| && SimplePath(a, src, dst, q) && PathWeight(a, q) == PathWeight(a, r[i]) && q != r[i];
      SwappedListed(a, src, dst, k, r, i, q);
      assert Swapped(r, i, q)[i] != r[i];
    }
  }

  lemma UntiedAgrees(a: Arcs, src: Vertex, dst: Vertex, k: int, r: seq<Path>, s: seq<Path>)
    requires IsKShortest(a, src, dst, k, r) && IsKShortest(a, src, dst, k, s) && Untied(a, src, dst, r)
    ensures s == r
  {
    hide PathWeight;
    ListsAgree(a, src, dst, k, r, s);
    forall i | 0 <= i < |r|
      ensures s[i] == r[i]
    {
      assert SimplePath(a, src, dst, s[i]);
    }
  }

  // ---------- rising weights ----------

  // b has the arcs of a, none of them cheaper.
  ghost predicate Raised(a: Arcs, b: Arcs) {
    a.Keys == b.Keys && forall l :: l in a ==> a[l] <= b[l]
  }

  // The arcs of a path keep their weight.
  ghost predicate Untouched(a: Arcs, b: Arcs, p: Path) {
    forall i :: 0 <= i < |p| - 1 ==> Cost(a, p[i], p[i + 1]) == Cost(b, p[i], p[i + 1])
  }

  lemma SameSimplePaths(a: Arcs, b: Arcs, src: Vertex, dst: Vertex, p: Path)
    requires a.Keys == b.Keys
    ensures SimplePath(a, src, dst, p) <==> SimplePath(b, src, dst, p)
  {
    assert forall l :: l in a <==> l in b;
  }

  // A list no path of which meets a raised arc is still a list of K shortest paths.
  lemma RaisedKeepsList(a: Arcs, b: Arcs, src: Vertex, dst: Vertex, k: int, r: seq<Path>)
    requires IsKShortest(a, src, dst, k, r) && Raised(a, b)
    requires forall i :: 0 <= i < |r| ==> Untouched(a, b, r[i])
    ensures IsKShortest(b, src, dst, k, r)
    ensures forall i :: 0 <= i < |r| ==> PathWeight(a, r[i]) == PathWeight(b, r[i])
  {
    forall i | 0 <= i < |r|
      ensures PathWeight(a, r[i]) == PathWeight(b, r[i]) && SimplePath(b, src, dst, r[i])
    {
      assert Untouched(a, b, r[i]);
      WeightAgrees(a, b, r[i]);
      assert SimplePath(a, src, dst, r[i]);
      SameSimplePaths(a, b, src, dst, r[i]);
    }
    forall q | SimplePath(b, src, dst, q) && q !in r
      ensures Beaten(b, k, r, q)
    {
      SameSimplePaths(a, b, src, dst, q);
      assert Beaten(a, k, r, q);
      WeightMonotone(a, b, q);
    }
  }
}
