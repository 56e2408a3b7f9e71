// Bounded-degree pruning of the transit overlay (internal/controller/topology/prune.go).
module Prune {
  import opened Paths
  import opened Sorting
  import opened SplitGraph
  import opened Nearest

  datatype QKey = QKey(src: nat, dst: nat, ingress: nat)

  type Quality = map<QKey, nat>

  // The weight of an edge nobody has measured.
  const DEFAULT_W: nat := 1_000_000

  // The arguments of Prune: transits, quality, reachable ingresses per node, the two caps.
  datatype Net = Net(transits: seq<nat>, qm: Quality, ing: map<nat, seq<nat>>, d: int, k: int)

  // Node identifiers are unique, and so are the ingress identifiers of each node.
  ghost predicate Valid(n: Net) {
    Distinct(n.transits) && forall v :: v in n.ing ==> Distinct(n.ing[v])
  }

  function IngOf(n: Net, v: nat): seq<nat> {
    if v in n.ing then n.ing[v] else []
  }

  function WeightOf(qm: Quality, src: nat, dst: nat, e: nat): nat {
    if QKey(src, dst, e) in qm then qm[QKey(src, dst, e)] else DEFAULT_W
  }

  // ---------- ingresses ----------

  function Toward(n: Net, src: nat, dst: nat): seq<PrunedEdge> {
    seq(|IngOf(n, dst)|, i requires 0 <= i < |IngOf(n, dst)| =>
      PrunedEdge(src, dst, IngOf(n, dst)[i], WeightOf(n.qm, src, dst, IngOf(n, dst)[i])))
  }

  predicate Lighter(x: PrunedEdge, y: PrunedEdge) {
    if x.w != y.w then x.w < y.w else x.ingress < y.ingress
  }

  function TopIngresses(n: Net, src: nat, dst: nat): seq<PrunedEdge> {
    Take(Sort(Toward(n, src, dst), Lighter), n.k)
  }

  // ---------- neighbours ----------

  // The least measured weight over the first i ingresses.
  function LeastMeasured(n: Net, src: nat, dst: nat, i: nat): Best
    requires i <= |IngOf(n, dst)|
  {
    if i == 0 then Unreachable
    else
      var b := LeastMeasured(n, src, dst, i - 1);
      var key := QKey(src, dst, IngOf(n, dst)[i - 1]);
      if key in n.qm && (b.Unreachable? || n.qm[key] < b.w) then Best(n.qm[key]) else b
  }

  // The ingress at place i of dst was measured from src.
  predicate Measured(n: Net, src: nat, dst: nat, i: nat)
    requires i < |IngOf(n, dst)|
  {
    QKey(src, dst, IngOf(n, dst)[i]) in n.qm
  }

  function MeasuredAt(n: Net, src: nat, dst: nat, i: nat): nat
    requires i < |IngOf(n, dst)| && Measured(n, src, dst, i)
  {
    n.qm[QKey(src, dst, IngOf(n, dst)[i])]
  }

  // b is the least of the weights measured over the first m ingresses, and none if none was.
  ghost predicate IsLeast(n: Net, src: nat, dst: nat, m: nat, b: Best)
    requires m <= |IngOf(n, dst)|
  {
    && (b.Best? <==> exists i: nat :: i < m && Measured(n, src, dst, i))
    && (b.Best? ==>
          && (exists i: nat :: i < m && Measured(n, src, dst, i) && MeasuredAt(n, src, dst, i) == b.w)
          && forall i: nat :: i < m && Measured(n, src, dst, i) ==> b.w <= MeasuredAt(n, src, dst, i))
  }

  lemma {:induction false} LeastMeasuredIs(n: Net, src: nat, dst: nat, m: nat)
    requires m <= |IngOf(n, dst)|
    ensures IsLeast(n, src, dst, m, LeastMeasured(n, src, dst, m))
  {
    if m > 0 {
      LeastMeasuredIs(n, src, dst, m - 1);
      assert Measured(n, src, dst, m - 1) <==> QKey(src, dst, IngOf(n, dst)[m - 1]) in n.qm;
    }
  }

  lemma LeastUnique(n: Net, src: nat, dst: nat, m: nat, b: Best, c: Best)
    requires m <= |IngOf(n, dst)| && IsLeast(n, src, dst, m, b) && IsLeast(n, src, dst, m, c)
    ensures b == c
  {
  }

  // src measured dst, at least weight w over all ingresses of dst.
  ghost predicate MeasuresAt(n: Net, src: nat, dst: nat, w: nat) {
    IsLeast(n, src, dst, |IngOf(n, dst)|, Best(w))
  }

  // Another node from which src's least measurement is smaller, or as small and its number less.
  ghost predicate Nearer(n: Net, src: nat, c: nat, w: nat, d: nat) {
    exists v: nat :: MeasuresAt(n, src, c, v) && (v < w || (v == w && c < d))
  }

  lemma MeasuredDist(n: Net, src: nat, dst: nat, w: nat)
    ensures LeastMeasured(n, src, dst, |IngOf(n, dst)|) == Best(w) <==> MeasuresAt(n, src, dst, w)
  {
    LeastMeasuredIs(n, src, dst, |IngOf(n, dst)|);
    if MeasuresAt(n, src, dst, w) {
      LeastUnique(n, src, dst, |IngOf(n, dst)|, LeastMeasured(n, src, dst, |IngOf(n, dst)|), Best(w));
    }
  }

  // The distance of a neighbour is the least measured weight, the default if it has ingresses
  // but none was measured, and none if it has no ingress.
  lemma BestWIs(n: Net, src: nat, dst: nat)
    ensures var b, m := BestW(n, src, dst), |IngOf(n, dst)|;
      && (b.Best? <==> m > 0)
      && (b.Best? ==> IsLeast(n, src, dst, m, b)
                      || (b.w == DEFAULT_W && forall i: nat :: i < m ==> !Measured(n, src, dst, i)))
      && ((exists i: nat :: i < m && Measured(n, src, dst, i)) ==> IsLeast(n, src, dst, m, b))
  {
    LeastMeasuredIs(n, src, dst, |IngOf(n, dst)|);
  }

  function BestW(n: Net, src: nat, dst: nat): Best {
    var b := LeastMeasured(n, src, dst, |IngOf(n, dst)|);
    if b.Unreachable? && |IngOf(n, dst)| > 0 then Best(DEFAULT_W) else b
  }

  // How far b is from a, for choosing the neighbours of a.
  function Dist(n: Net, a: nat): nat -> Best {
    (b: nat) => if b == a then Unreachable else BestW(n, a, b)
  }

  // b is among the d nearest neighbours of a.
  predicate PicksOf(n: Net, a: nat, b: nat) {
    Picks(n.transits, Dist(n, a), n.d, b)
  }

  predicate Linked(n: Net, a: nat, b: nat) {
    a in n.transits && b in n.transits && (PicksOf(n, a, b) || PicksOf(n, b, a))
  }

  // ---------- the declarative specification ----------

  // Fewer than d transits are nearer to a than b is.
  ghost predicate RanksOf(n: Net, a: nat, b: nat) {
    Ranks(n.transits, Dist(n, a), n.d, b)
  }

  // One end ranks the other, and fewer than k ingresses of the target are better.
  ghost predicate Kept(n: Net, e: PrunedEdge) {
    && e.src in n.transits && e.dst in n.transits
    && (RanksOf(n, e.src, e.dst) || RanksOf(n, e.dst, e.src))
    && e in Toward(n, e.src, e.dst)
    && |Earlier(Toward(n, e.src, e.dst), e, Lighter)| < n.k
  }

  predicate ByKey(x: PrunedEdge, y: PrunedEdge) {
    x.src < y.src || (x.src == y.src && (x.dst < y.dst || (x.dst == y.dst && x.ingress < y.ingress)))
  }

  // The result: exactly the kept edges, strictly sorted.
  ghost predicate IsPruned(n: Net, out: seq<PrunedEdge>) {
    Sorted(out, ByKey) && forall e :: e in out <==> Kept(n, e)
  }

  // ---------- the orders ----------

  lemma OrdersOk()
    ensures WeakOrder(Lighter) && WeakOrder(ByKey)
  {
  }

  lemma TowardSeparated(n: Net, src: nat, dst: nat)
    requires Valid(n)
    ensures Separated(Toward(n, src, dst), Lighter)
  {
    var t := Toward(n, src, dst);
    forall i, j | 0 <= i < j < |t|
      ensures Lighter(t[i], t[j]) || Lighter(t[j], t[i])
    {
      assert IngOf(n, dst)[i] != IngOf(n, dst)[j];
    }
  }

  // TopIngresses keeps exactly the k least edges by (weight, ingress).
  lemma TopIngressesRank(n: Net, src: nat, dst: nat, e: PrunedEdge)
    requires Valid(n)
    ensures e in TopIngresses(n, src, dst) <==>
      e in Toward(n, src, dst) && |Earlier(Toward(n, src, dst), e, Lighter)| < n.k
  {
    OrdersOk();
    TowardSeparated(n, src, dst);
    TakeRank(Toward(n, src, dst), Lighter, n.k, e);
  }

  // The neighbours picked are those that fewer than d transits precede.
  lemma PicksRankOf(n: Net, a: nat, b: nat)
    requires Valid(n)
    ensures PicksOf(n, a, b) <==> RanksOf(n, a, b)
  {
    PicksRank(n.transits, Dist(n, a), n.d, b);
  }

  // ---------- what is kept, by measurements alone ----------

  // The edge from src by ingress x of dst weighs w: as measured, or a million if it was not.
  predicate Weighs(n: Net, src: nat, dst: nat, x: nat, w: nat) {
    if QKey(src, dst, x) in n.qm then w == n.qm[QKey(src, dst, x)] else w == 1_000_000
  }

  // b is w away from a: the least measured weight, or a million if none was measured.
  ghost predicate Away(n: Net, a: nat, b: nat, w: nat) {
    && a != b && |IngOf(n, b)| > 0
    && (MeasuresAt(n, a, b, w) || (w == 1_000_000 && forall i: nat :: i < |IngOf(n, b)| ==> !Measured(n, a, b, i)))
  }

  ghost predicate AwayBefore(n: Net, a: nat, c: nat, w: nat, b: nat) {
    exists v: nat :: Away(n, a, c, v) && (v < w || (v == w && c < b))
  }

  // Fewer than d transits are nearer to a.
  ghost predicate NearestTo(n: Net, a: nat, b: nat) {
    && b in n.transits
    && exists w: nat {:trigger Away(n, a, b, w)} ::
         Away(n, a, b, w) && |set c | c in n.transits && AwayBefore(n, a, c, w, b)| < n.d
  }

  ghost predicate LighterThan(n: Net, src: nat, dst: nat, x: nat, e: PrunedEdge) {
    exists v: nat :: Weighs(n, src, dst, x, v) && (v < e.w || (v == e.w && x < e.ingress))
  }

  lemma DistAway(n: Net, a: nat, b: nat, w: nat)
    ensures Dist(n, a)(b) == Best(w) <==> Away(n, a, b, w)
  {
    hide LeastMeasured;
    LeastMeasuredIs(n, a, b, |IngOf(n, b)|);
    if MeasuresAt(n, a, b, w) {
      MeasuredDist(n, a, b, w);
    }
  }

  lemma RanksNearest(n: Net, a: nat, b: nat)
    ensures RanksOf(n, a, b) <==> NearestTo(n, a, b)
  {
    hide Away, Dist;
    var dist := Dist(n, a);
    if dist(b).Best? {
      DistAway(n, a, b, dist(b).w);
      SameRanks(n, a, b, dist(b).w);
    }
    if NearestTo(n, a, b) {
      var w: nat :| Away(n, a, b, w) && |set c | c in n.transits && AwayBefore(n, a, c, w, b)| < n.d;
      DistAway(n, a, b, w);
      SameRanks(n, a, b, w);
    }
  }

  lemma SameRanks(n: Net, a: nat, b: nat, w: nat)
    ensures (set c | c in n.transits && Dist(n, a)(c).Best? && Closer(Cand(c, Dist(n, a)(c).w), Cand(b, w)))
         == (set c | c in n.transits && AwayBefore(n, a, c, w, b))
  {
    hide Away, Dist;
    forall c: nat
      ensures Dist(n, a)(c).Best? && Closer(Cand(c, Dist(n, a)(c).w), Cand(b, w)) <==> AwayBefore(n, a, c, w, b)
    {
      if Dist(n, a)(c).Best? {
        DistAway(n, a, c, Dist(n, a)(c).w);
      }
      if AwayBefore(n, a, c, w, b) {
        var v: nat :| Away(n, a, c, v) && (v < w || (v == w && c < b));
        DistAway(n, a, c, v);
      }
    }
  }

  lemma TowardMeans(n: Net, src: nat, dst: nat, e: PrunedEdge)
    ensures e in Toward(n, src, dst) <==>
      e.src == src && e.dst == dst && e.ingress in IngOf(n, dst) && Weighs(n, src, dst, e.ingress, e.w)
  {
    var t := Toward(n, src, dst);
    if e.src == src && e.dst == dst && e.ingress in IngOf(n, dst) && Weighs(n, src, dst, e.ingress, e.w) {
      var i :| 0 <= i < |IngOf(n, dst)| && IngOf(n, dst)[i] == e.ingress;
      assert t[i] == e;
    }
  }

  lemma EarlierMeans(n: Net, src: nat, dst: nat, e: PrunedEdge)
    ensures |Earlier(Toward(n, src, dst), e, Lighter)| == |set x | x in IngOf(n, dst) && LighterThan(n, src, dst, x, e)|
  {
    hide Toward;
    var xs := set x | x in IngOf(n, dst) && LighterThan(n, src, dst, x, e);
    var es := Earlier(Toward(n, src, dst), e, Lighter);
    forall f: PrunedEdge
      ensures f in es <==> f.ingress in xs && f == PrunedEdge(src, dst, f.ingress, WeightOf(n.qm, src, dst, f.ingress))
    {
      TowardMeans(n, src, dst, f);
    }
    EdgeCount(n, src, dst, xs, es);
  }

  lemma {:induction false} EdgeCount(n: Net, src: nat, dst: nat, xs: set<nat>, es: set<PrunedEdge>)
    requires forall f :: f in es <==> f.ingress in xs && f == PrunedEdge(src, dst, f.ingress, WeightOf(n.qm, src, dst, f.ingress))
    ensures |es| == |xs|
  {
    hide WeightOf;
    if xs == {} {
      assert es == {};
    } else {
      var x :| x in xs;
      var f := PrunedEdge(src, dst, x, WeightOf(n.qm, src, dst, x));
      assert f in es;
      EdgeCount(n, src, dst, xs - {x}, es - {f});
    }
  }

  // An edge is kept exactly when it joins two transits one of which is among the d nearest of
  // the other, weighs what was measured or a million, and fewer than k ingresses of its target
  // are better by (weight, number).
  lemma PrunedMeans(n: Net, e: PrunedEdge)
    ensures e in Pruned(n) <==>
      && e.src in n.transits && e.dst in n.transits && (NearestTo(n, e.src, e.dst) || NearestTo(n, e.dst, e.src))
      && e.ingress in IngOf(n, e.dst) && Weighs(n, e.src, e.dst, e.ingress, e.w)
      && |set x | x in IngOf(n, e.dst) && LighterThan(n, e.src, e.dst, x, e)| < n.k
  {
    hide RanksOf, NearestTo, Toward, Earlier, Weighs, LighterThan, WeightOf;
    RanksNearest(n, e.src, e.dst);
    RanksNearest(n, e.dst, e.src);
    TowardMeans(n, e.src, e.dst, e);
    EarlierMeans(n, e.src, e.dst, e);
    assert e in Pruned(n) <==> Kept(n, e);
  }

  // ---------- the result as a function ----------

  ghost function KeptSet(n: Net): set<PrunedEdge> {
    set a, b, e | a in n.transits && b in n.transits && e in Toward(n, a, b) && Kept(n, e) :: e
  }

  lemma {:induction false} SeqOfSet<T>(s: set<T>) returns (q: seq<T>)
    ensures Distinct(q) && forall x :: x in q <==> x in s
  {
    if s == {} {
      q := [];
    } else {
      var x :| x in s;
      var rest := SeqOfSet(s - {x});
      q := rest + [x];
    }
  }

  lemma KeptByKey(n: Net, x: PrunedEdge, y: PrunedEdge)
    requires Kept(n, x) && Kept(n, y) && x != y
    ensures ByKey(x, y) || ByKey(y, x)
  {
  }

  lemma PrunedExists(n: Net)
    ensures exists out :: IsPruned(n, out)
  {
    OrdersOk();
    var q := SeqOfSet(KeptSet(n));
    forall i, j | 0 <= i < j < |q|
      ensures ByKey(q[i], q[j]) || ByKey(q[j], q[i])
    {
      assert q[i] in KeptSet(n) && q[j] in KeptSet(n);
      KeptByKey(n, q[i], q[j]);
    }
    SortSorts(q, ByKey);
    SortElements(q, ByKey);
    forall e | Kept(n, e)
      ensures e in KeptSet(n)
    {
    }
    assert IsPruned(n, Sort(q, ByKey));
  }

  ghost function Pruned(n: Net): (out: seq<PrunedEdge>)
    ensures IsPruned(n, out)
  {
    PrunedExists(n);
    var out :| IsPruned(n, out);
    out
  }

  // The specification leaves no choice.
  lemma PrunedUnique(n: Net, out: seq<PrunedEdge>)
    requires IsPruned(n, out)
    ensures out == Pruned(n)
  {
    OrdersOk();
    SortedUnique(out, Pruned(n), ByKey);
  }

  lemma PrunedKeyed(n: Net)
    ensures Keyed(Pruned(n))
  {
    var out := Pruned(n);
    forall i, j | 0 <= i < j < |out|
      ensures Cross(out[i]) != Cross(out[j])
    {
      assert ByKey(out[i], out[j]);
    }
  }

  // ---------- the algorithm as the program runs it ----------

  // Go visits the elements of a map in any order; so does this method those of pairs.
  method PruneEdges(n: Net) returns (out: seq<PrunedEdge>)
    requires Valid(n)
    ensures out == Pruned(n)
  {
    if n.d <= 0 || n.k <= 0 {
      out := [];
      NothingKept(n);
      PrunedUnique(n, out);
      return;
    }
    var topD := NearestOf(n);
    var pairs := Pairs(n, topD);
    out := [];
    var todo := pairs;
    while todo != {}
      invariant todo <= pairs && Keyed(out)
      invariant forall e :: e in out <==> InPairs(n, pairs - todo, e)
      decreases todo
    {
      var p :| p in todo;
      var forth, back := TopIngresses(n, p.0, p.1), TopIngresses(n, p.1, p.0);
      AppendPair(n, pairs, todo, p, out);
      out := out + forth + back;
      todo := todo - {p};
    }
    assert pairs - {} == pairs;
    ghost var collected := out;
    out := Sort(out, ByKey);
    CollectedIsPruned(n, pairs, collected);
  }

  lemma NothingKept(n: Net)
    requires n.d <= 0 || n.k <= 0
    ensures IsPruned(n, [])
  {
  }

  // Per transit, the set of its picks.
  method NearestOf(n: Net) returns (topD: map<nat, set<nat>>)
    ensures topD.Keys == set a | a in n.transits
    ensures forall a :: a in topD ==> forall b :: b in topD[a] <==> PicksOf(n, a, b)
  {
    topD := map[];
    for i := 0 to |n.transits|
      invariant topD.Keys == set a | a in n.transits[..i]
      invariant forall a :: a in topD ==> forall b :: b in topD[a] <==> PicksOf(n, a, b)
    {
      var a := n.transits[i];
      assert n.transits[..i + 1] == n.transits[..i] + [a];
      topD := topD[a := set c | c in TopCands(n.transits, Dist(n, a), n.d) :: c.dst];
    }
    assert n.transits[..|n.transits|] == n.transits;
  }

  // The unordered pairs, smaller end first.
  method Pairs(n: Net, topD: map<nat, set<nat>>) returns (pairs: set<(nat, nat)>)
    requires topD.Keys == set a | a in n.transits
    requires forall a :: a in topD ==> forall b :: b in topD[a] <==> PicksOf(n, a, b)
    ensures forall x: nat, y: nat :: (x, y) in pairs <==> x < y && Linked(n, x, y)
  {
    hide PicksOf;
    pairs := {};
    for i := 0 to |n.transits|
      invariant PairsTo(n, i, pairs)
    {
      var a := n.transits[i];
      PairsStep(n, i, pairs, topD[a]);
      pairs := pairs + set b | b in topD[a] :: if a > b then (b, a) else (a, b);
    }
    assert n.transits[..|n.transits|] == n.transits;
    forall x: nat, y: nat
      ensures (x, y) in pairs <==> x < y && Linked(n, x, y)
    {
      PicksOther(n, x);
      PicksOther(n, y);
    }
  }

  // The pairs that one of the first i transits picks.
  ghost predicate PairsTo(n: Net, i: nat, pairs: set<(nat, nat)>)
    requires i <= |n.transits|
  {
    forall x: nat, y: nat :: (x, y) in pairs <==>
      x < y && ((x in n.transits[..i] && PicksOf(n, x, y)) || (y in n.transits[..i] && PicksOf(n, y, x)))
  }

  lemma PairsStep(n: Net, i: nat, pairs: set<(nat, nat)>, picked: set<nat>)
    requires i < |n.transits| && PairsTo(n, i, pairs) && forall b :: b in picked <==> PicksOf(n, n.transits[i], b)
    ensures var a := n.transits[i];
      PairsTo(n, i + 1, pairs + set b | b in picked :: if a > b then (b, a) else (a, b))
  {
    hide PicksOf;
    var a := n.transits[i];
    PicksOther(n, a);
    assert n.transits[..i + 1] == n.transits[..i] + [a];
    var more := set b | b in picked :: if a > b then (b, a) else (a, b);
    forall x: nat, y: nat
      ensures (x, y) in more <==> x < y && ((x == a && y in picked) || (y == a && x in picked))
    {
    }
  }

  // A transit picks other transits only.
  lemma PicksOther(n: Net, a: nat)
    ensures forall b :: PicksOf(n, a, b) ==> b != a && b in n.transits
  {
    forall b | PicksOf(n, a, b)
      ensures b != a && b in n.transits
    {
      var c :| c in TopCands(n.transits, Dist(n, a), n.d) && c.dst == b;
      SortElements(Cands(n.transits, Dist(n, a), |n.transits|), Closer);
      CandsAre(n.transits, Dist(n, a), |n.transits|, c);
      assert n.transits[..|n.transits|] == n.transits;
    }
  }

  // The edges of a set of pairs, both directions.
  ghost predicate InPairs(n: Net, pairs: set<(nat, nat)>, e: PrunedEdge) {
    && e in TopIngresses(n, e.src, e.dst)
    && ((e.src, e.dst) in pairs || (e.dst, e.src) in pairs)
  }

  lemma TopIngressesEnds(n: Net, src: nat, dst: nat)
    requires Valid(n)
    ensures forall e :: e in TopIngresses(n, src, dst) ==> e.src == src && e.dst == dst
    ensures Keyed(TopIngresses(n, src, dst))
  {
    var t := TopIngresses(n, src, dst);
    forall e | e in t
      ensures e.src == src && e.dst == dst
    {
      TopIngressesRank(n, src, dst, e);
    }
    OrdersOk();
    TowardSeparated(n, src, dst);
    SortSorts(Toward(n, src, dst), Lighter);
    forall i, j | 0 <= i < j < |t|
      ensures Cross(t[i]) != Cross(t[j])
    {
      assert Lighter(t[i], t[j]);
      TopIngressesRank(n, src, dst, t[i]);
      TopIngressesRank(n, src, dst, t[j]);
    }
  }

  lemma AppendPair(n: Net, pairs: set<(nat, nat)>, todo: set<(nat, nat)>, p: (nat, nat), out: seq<PrunedEdge>)
    requires Valid(n) && todo <= pairs && p in todo && Keyed(out)
    requires forall q :: q in pairs ==> q.0 < q.1
    requires forall e :: e in out <==> InPairs(n, pairs - todo, e)
    ensures var more := out + TopIngresses(n, p.0, p.1) + TopIngresses(n, p.1, p.0);
      Keyed(more) && forall e :: e in more <==> InPairs(n, pairs - (todo - {p}), e)
  {
    var forth, back := TopIngresses(n, p.0, p.1), TopIngresses(n, p.1, p.0);
    var more := out + forth + back;
    TopIngressesEnds(n, p.0, p.1);
    TopIngressesEnds(n, p.1, p.0);
    forall e
      ensures e in more <==> InPairs(n, pairs - (todo - {p}), e)
    {
      assert e in more <==> e in out || e in forth || e in back;
    }
    forall e | e in out
      ensures !(e.src == p.0 && e.dst == p.1) && !(e.src == p.1 && e.dst == p.0)
    {
    }
    KeyedConcat(out, forth);
    KeyedConcat(out + forth, back);
  }

  lemma KeyedConcat(s: seq<PrunedEdge>, t: seq<PrunedEdge>)
    requires Keyed(s) && Keyed(t)
    requires forall x, y :: x in s && y in t ==> Cross(x) != Cross(y)
    ensures Keyed(s + t)
  {
  }

  lemma CollectedIsPruned(n: Net, pairs: set<(nat, nat)>, out: seq<PrunedEdge>)
    requires Valid(n) && Keyed(out)
    requires forall x: nat, y: nat :: (x, y) in pairs <==> x < y && Linked(n, x, y)
    requires forall e :: e in out <==> InPairs(n, pairs, e)
    ensures Sort(out, ByKey) == Pruned(n)
  {
    OrdersOk();
    forall i, j | 0 <= i < j < |out|
      ensures ByKey(out[i], out[j]) || ByKey(out[j], out[i])
    {
      assert Cross(out[i]) != Cross(out[j]);
    }
    SortSorts(out, ByKey);
    SortElements(out, ByKey);
    forall e
      ensures e in out <==> Kept(n, e)
    {
      InPairsKept(n, pairs, e);
    }
    PrunedUnique(n, Sort(out, ByKey));
  }

  lemma InPairsKept(n: Net, pairs: set<(nat, nat)>, e: PrunedEdge)
    requires Valid(n)
    requires forall x: nat, y: nat :: (x, y) in pairs <==> x < y && Linked(n, x, y)
    ensures InPairs(n, pairs, e) <==> Kept(n, e)
  {
    TopIngressesRank(n, e.src, e.dst, e);
    PicksRankOf(n, e.src, e.dst);
    PicksRankOf(n, e.dst, e.src);
    assert InPairs(n, pairs, e) <==>
      e in TopIngresses(n, e.src, e.dst) && e.src != e.dst && Linked(n, e.src, e.dst);
  }

  // ---------- what pruning guarantees ----------

  // Every transit has a reachable ingress, as eligibility demands.
  ghost predicate AllReachable(n: Net) {
    forall a :: a in n.transits ==> |IngOf(n, a)| > 0
  }

  ghost predicate Joined(n: Net, a: nat, b: nat) {
    exists e :: e in Pruned(n) && e.src == a && e.dst == b
  }

  // A linked pair has an edge in each direction.
  lemma LinkedIsJoined(n: Net, a: nat, b: nat)
    requires Valid(n) && AllReachable(n) && n.k > 0
    ensures Joined(n, a, b) <==> Linked(n, a, b)
  {
    hide Pruned, PicksOf, RanksOf, Toward, Earlier, Lighter, Valid, AllReachable;
    PicksRankOf(n, a, b);
    PicksRankOf(n, b, a);
    if Linked(n, a, b) {
      var e := FirstIngress(n, a, b);
      assert Kept(n, e);
      assert e in Pruned(n);
    }
    if e :| e in Pruned(n) && e.src == a && e.dst == b {
      assert Kept(n, e);
    }
  }

  lemma FirstIngress(n: Net, a: nat, b: nat) returns (e: PrunedEdge)
    requires Valid(n) && AllReachable(n) && n.k > 0 && b in n.transits
    ensures e.src == a && e.dst == b && e in Toward(n, a, b) && |Earlier(Toward(n, a, b), e, Lighter)| < n.k
  {
    hide Sort, Earlier, Lighter, Valid;
    SortElements(Toward(n, a, b), Lighter);
    e := TopIngresses(n, a, b)[0];
    TopIngressesRank(n, a, b, e);
  }

  // The pruned overlay is symmetric: a reaches b directly if and only if b reaches a.
  lemma PrunedSymmetric(n: Net, a: nat, b: nat)
    requires Valid(n) && AllReachable(n)
    ensures Joined(n, a, b) <==> Joined(n, b, a)
  {
    if n.k > 0 {
      LinkedIsJoined(n, a, b);
      LinkedIsJoined(n, b, a);
    }
  }

  // Every transit keeps an edge to each of its d nearest neighbours, and one back.
  lemma NearestKept(n: Net, a: nat, b: nat)
    requires Valid(n) && AllReachable(n) && n.k > 0 && a in n.transits && RanksOf(n, a, b)
    ensures Joined(n, a, b) && Joined(n, b, a)
  {
    PicksRankOf(n, a, b);
    LinkedIsJoined(n, a, b);
    LinkedIsJoined(n, b, a);
  }

  ghost function PairsPicked(n: Net, i: nat): set<(nat, nat)>
    requires i <= |n.transits|
  {
    if i == 0 then {}
    else
      var a := n.transits[i - 1];
      PairsPicked(n, i - 1) + set c | c in TopCands(n.transits, Dist(n, a), n.d) :: if a > c.dst then (c.dst, a) else (a, c.dst)
  }

  lemma {:induction false} ImageBounded(a: nat, s: seq<Cand>)
    ensures |set c | c in s :: if a > c.dst then (c.dst, a) else (a, c.dst)| <= |s|
  {
    var image := set c | c in s :: if a > c.dst then (c.dst, a) else (a, c.dst);
    if s == [] {
      assert image == {};
    } else {
      var m := |s| - 1;
      ImageBounded(a, s[..m]);
      var less := set c | c in s[..m] :: if a > c.dst then (c.dst, a) else (a, c.dst);
      var x := if a > s[m].dst then (s[m].dst, a) else (a, s[m].dst);
      assert s == s[..m] + [s[m]];
      assert image == less + {x};
    }
  }

  lemma OneMoreTimes(i: nat, d: int)
    requires i > 0
    ensures i * d == (i - 1) * d + d
  {
  }

  lemma PairsPickedMore(n: Net, i: nat)
    requires 0 < i <= |n.transits| && n.d >= 0
    ensures |PairsPicked(n, i)| <= |PairsPicked(n, i - 1)| + n.d
  {
    hide Dist, Sort, Cands;
    var a := n.transits[i - 1];
    ImageBounded(a, TopCands(n.transits, Dist(n, a), n.d));
  }

  lemma NonePicked(n: Net)
    ensures PairsPicked(n, 0) == {}
  {
  }

  lemma {:induction false} PairsPickedBounded(n: Net, i: nat)
    requires i <= |n.transits| && n.d >= 0
    ensures |PairsPicked(n, i)| <= i * n.d
  {
    hide PairsPicked;
    if i == 0 {
      NonePicked(n);
    } else {
      PairsPickedBounded(n, i - 1);
      PairsPickedMore(n, i);
      OneMoreTimes(i, n.d);
    }
  }

  lemma {:induction false} PairsPickedAre(n: Net, i: nat, a: nat, b: nat)
    requires i <= |n.transits| && a in n.transits[..i] && PicksOf(n, a, b)
    ensures (if a > b then (b, a) else (a, b)) in PairsPicked(n, i)
  {
    if i > 0 {
      assert n.transits[..i] == n.transits[..i - 1] + [n.transits[i - 1]];
      if a == n.transits[i - 1] {
        var c :| c in TopCands(n.transits, Dist(n, a), n.d) && c.dst == b;
      } else {
        PairsPickedAre(n, i - 1, a, b);
      }
    }
  }

  // At most n * d physical pairs survive.
  lemma FewPairs(n: Net, pairs: set<(nat, nat)>)
    requires Valid(n) && n.d >= 0
    requires forall p :: p in pairs ==> p.0 < p.1 && Joined(n, p.0, p.1)
    ensures |pairs| <= |n.transits| * n.d
  {
    var m := |n.transits|;
    assert n.transits[..m] == n.transits;
    forall p | p in pairs
      ensures p in PairsPicked(n, m)
    {
      var e :| e in Pruned(n) && e.src == p.0 && e.dst == p.1;
      assert Kept(n, e);
      PicksRankOf(n, p.0, p.1);
      PicksRankOf(n, p.1, p.0);
      if PicksOf(n, p.0, p.1) {
        PairsPickedAre(n, m, p.0, p.1);
      } else {
        PairsPickedAre(n, m, p.1, p.0);
      }
    }
    PairsPickedBounded(n, m);
    SubsetSize(pairs, PairsPicked(n, m));
  }

}
