// A small mesh to show where cached routes part from recomputed ones: three transits, node 0
// with one ingress, nodes 1 and 2 with two each, and caps wide enough to prune nothing.
module Mesh {
  import opened Paths
  import opened Dijkstra
  import opened KShortest
  import opened KLists
  import opened Sorting
  import opened SplitGraph
  import opened Nearest
  import opened Prune
  import opened Assign
  import opened Optimizer
  import opened Incremental

  // ---------- caps wide enough to prune nothing ----------

  ghost predicate Wide(n: Net) {
    |n.transits| < n.d && forall v :: |IngOf(n, v)| < n.k
  }

  lemma WideKeepsAll(n: Net, e: PrunedEdge)
    requires Valid(n) && Wide(n)
    ensures e in Pruned(n) <==>
      e.src in n.transits && e.dst in n.transits && e.src != e.dst && e in Toward(n, e.src, e.dst)
  {
    EarlierBounded(Toward(n, e.src, e.dst), e, Lighter);
    if e.src in n.transits && e.dst in n.transits && e.src != e.dst && e in Toward(n, e.src, e.dst) {
      WideRanks(n, e.src, e.dst);
      assert Kept(n, e);
    }
    assert e in Pruned(n) <==> Kept(n, e);
  }

  lemma WideRanks(n: Net, a: nat, b: nat)
    requires Wide(n) && b in n.transits && a != b && |IngOf(n, b)| > 0
    ensures RanksOf(n, a, b)
  {
    var dist := Dist(n, a);
    var nearer := set c | c in n.transits && dist(c).Best? && Closer(Cand(c, dist(c).w), Cand(b, dist(b).w));
    SubsetOfSeq(n.transits, nearer);
  }

  // Pruned sets with the same links have the same edges, one by one.
  function Unweighted(es: seq<PrunedEdge>): (r: seq<PrunedEdge>)
    ensures |r| == |es| && forall i :: 0 <= i < |es| ==> r[i] == es[i].(w := 0)
  {
    seq(|es|, i requires 0 <= i < |es| => es[i].(w := 0))
  }

  lemma UnweightedWithin(es: seq<PrunedEdge>, fs: seq<PrunedEdge>, x: PrunedEdge)
    requires forall e :: e in es ==> exists f :: f in fs && Cross(e) == Cross(f)
    requires x in Unweighted(es)
    ensures x in Unweighted(fs)
  {
    var i :| 0 <= i < |es| && Unweighted(es)[i] == x;
    assert es[i] in es;
    var f :| f in fs && Cross(es[i]) == Cross(f);
    var j :| 0 <= j < |fs| && fs[j] == f;
    assert Unweighted(fs)[j] == x;
  }

  lemma UnweightedSorted(es: seq<PrunedEdge>)
    requires Sorted(es, ByKey)
    ensures Sorted(Unweighted(es), ByKey)
  {
    forall i, j | 0 <= i < j < |es|
      ensures ByKey(Unweighted(es)[i], Unweighted(es)[j])
    {
      assert ByKey(es[i], es[j]);
    }
  }

  lemma SameLinksSameEdges(n: Net, m: Net)
    requires forall e :: e in Pruned(n) ==> exists f :: f in Pruned(m) && Cross(e) == Cross(f)
    requires forall f :: f in Pruned(m) ==> exists e :: e in Pruned(n) && Cross(f) == Cross(e)
    ensures SameEdges(Pruned(n), Pruned(m))
  {
    hide Pruned, WeakOrder, Sorted;
    var es, fs := Pruned(n), Pruned(m);
    UnweightedSorted(es);
    UnweightedSorted(fs);
    OrdersOk();
    var us, vs := Unweighted(es), Unweighted(fs);
    forall x
      ensures x in us <==> x in vs
    {
      if x in us {
        UnweightedWithin(es, fs, x);
      }
      if x in vs {
        UnweightedWithin(fs, es, x);
      }
    }
    SortedUnique(us, vs, ByKey);
    forall i | 0 <= i < |es|
      ensures Cross(es[i]) == Cross(fs[i])
    {
      assert us[i] == vs[i];
    }
  }

  // ---------- the mesh ----------

  function IngCount(v: nat): nat {
    if v == 0 then 1 else 2
  }

  function Ings(n: nat): seq<IngressMeta> {
    if n == 1 then [IngressMeta(0, 100, true)] else [IngressMeta(0, 100, true), IngressMeta(1, 100, true)]
  }

  function Ids(n: nat): seq<nat> {
    if n == 1 then [0] else [0, 1]
  }

  function Corner(id: nat): NodeInput {
    NodeInput(id, Ings(IngCount(id)))
  }

  function MeshOf(q: Quality, k: int): Input {
    Input(0, [Corner(0), Corner(1), Corner(2)], q, 4, 3, k, 0, true, 0)
  }

  const INDEX: map<nat, seq<nat>> := map[0 := [0], 1 := [0, 1], 2 := [0, 1]]

  lemma IngsOk(n: nat)
    requires n == 1 || n == 2
    ensures Eligible(Ings(n)) && SortedKeys(ReachableIds(Ings(n))) == Ids(n)
  {
    assert Ings(n)[0] in Ings(n);
    assert n == 2 ==> Ings(n)[1] in Ings(n);
    assert ReachableIds(Ings(n)) == if n == 1 then {0} else {0, 1};
    assert Lists(Ids(n), ReachableIds(Ings(n)));
    ListUnique(Ids(n), ReachableIds(Ings(n)));
  }

  lemma MeshTransits(q: Quality, k: int)
    ensures TransitsIn(MeshOf(q, k)) == {0, 1, 2} && SortedKeys(TransitsIn(MeshOf(q, k))) == [0, 1, 2]
  {
    hide Ings, Eligible;
    var ns := MeshOf(q, k).nodes;
    IngsOk(1);
    IngsOk(2);
    assert ns[0] in ns && ns[1] in ns && ns[2] in ns;
    assert Lists([0, 1, 2], {0, 1, 2});
    ListUnique([0, 1, 2], {0, 1, 2});
  }

  lemma MeshIndex(q: Quality, k: int)
    ensures Index(MeshOf(q, k).nodes) == INDEX
  {
    hide Ings, ReachableIds;
    var ns := MeshOf(q, k).nodes;
    IngsOk(1);
    IngsOk(2);
    assert ns[..2] == [Corner(0), Corner(1)];
    assert ns[..2][..1] == [Corner(0)];
    assert [Corner(0)][..0] == [];
    assert Index([Corner(0)]) == map[0 := [0]];
    assert Index(ns[..2]) == map[0 := [0], 1 := [0, 1]];
  }

  lemma MeshNet(q: Quality, k: int)
    ensures NodesOk(MeshOf(q, k).nodes)
    ensures NetIn(MeshOf(q, k)) == Net([0, 1, 2], q, INDEX, 4, 3)
    ensures Valid(NetIn(MeshOf(q, k))) && Wide(NetIn(MeshOf(q, k)))
  {
    hide Index, TransitSet, SortedKeys, Ings;
    MeshTransits(q, k);
    MeshIndex(q, k);
    NodesAreOk(q, k);
  }

  lemma NodesAreOk(q: Quality, k: int)
    ensures NodesOk(MeshOf(q, k).nodes)
  {
  }

  ghost predicate HasEdge(x: nat, y: nat, e: nat) {
    x < 3 && y < 3 && x != y && e < IngCount(y)
  }

  lemma TowardIs(q: Quality, k: int, x: nat, y: nat, e: PrunedEdge)
    requires x < 3 && y < 3
    ensures e in Toward(NetIn(MeshOf(q, k)), x, y) <==>
      e.src == x && e.dst == y && e.ingress < IngCount(y) && e.w == WeightOf(q, x, y, e.ingress)
  {
    hide NetIn, Valid, Wide;
    MeshNet(q, k);
    var t := Toward(NetIn(MeshOf(q, k)), x, y);
    assert |t| == IngCount(y) && forall i :: 0 <= i < |t| ==> t[i] == PrunedEdge(x, y, i, WeightOf(q, x, y, i));
    assert e.src == x && e.dst == y && e.ingress < IngCount(y) && e.w == WeightOf(q, x, y, e.ingress) ==> t[e.ingress] == e;
  }

  lemma MeshEdges(q: Quality, k: int, e: PrunedEdge)
    ensures e in EdgesIn(MeshOf(q, k)) <==>
      HasEdge(e.src, e.dst, e.ingress) && e.w == WeightOf(q, e.src, e.dst, e.ingress)
  {
    hide Pruned, Valid, Wide, Toward;
    MeshNet(q, k);
    WideKeepsAll(NetIn(MeshOf(q, k)), e);
    if e.src < 3 && e.dst < 3 {
      TowardIs(q, k, e.src, e.dst, e);
    }
  }

  lemma MeshArc(q: Quality, k: int, x: nat, y: nat, e: nat)
    requires HasEdge(x, y, e)
    ensures var a := ArcsIn(MeshOf(q, k));
      && Link(Core(x), Ing(y, e)) in a && a[Link(Core(x), Ing(y, e))] == WeightOf(q, x, y, e)
      && Link(Ing(y, e), Core(y)) in a && a[Link(Ing(y, e), Core(y))] == 0
  {
    hide EdgesIn, ArcsIn;
    var pe := PrunedEdge(x, y, e, WeightOf(q, x, y, e));
    MeshEdges(q, k, pe);
    ArcsInSplit(MeshOf(q, k));
    assert Cross(pe) in ArcsIn(MeshOf(q, k)) && Inner(pe) in ArcsIn(MeshOf(q, k));
  }

  function MeshVertices(): (s: set<Vertex>)
    ensures |s| == 8
  {
    {Core(0), Core(1), Core(2), Ing(0, 0), Ing(1, 0), Ing(1, 1), Ing(2, 0), Ing(2, 1)}
  }

  lemma InMesh(v: Vertex)
    requires v.node < 3 && (v.Ing? ==> v.ingress < IngCount(v.node))
    ensures v in MeshVertices()
  {
    assert v == Core(v.node) || v == Ing(v.node, v.ingress);
  }

  lemma MeshInputOk(q: Quality, k: int)
    requires Within(q, MAX_SAMPLE)
    ensures InputOk(MeshOf(q, k))
  {
    hide Index, TransitSet, InputOk, Within;
    MeshTransits(q, k);
    MeshIndex(q, k);
    MeshNet(q, k);
    MeshOverlay(MeshOf(q, k).nodes);
    SampledInputOk(MeshOf(q, k));
  }

  lemma MeshOverlay(nodes: seq<NodeInput>)
    requires TransitSet(nodes) == {0, 1, 2} && Index(nodes) == INDEX
    ensures |OverlayVertices(nodes)| <= 8
  {
    hide Index, TransitSet, MeshVertices;
    forall v | v in OverlayVertices(nodes)
      ensures v in MeshVertices()
    {
      InMesh(v);
    }
    SubsetSize(OverlayVertices(nodes), MeshVertices());
  }

  // The quality plays no part in which edges there are.
  lemma MeshSameEdges(q: Quality, q1: Quality, k: int)
    ensures SameEdges(EdgesIn(MeshOf(q, k)), EdgesIn(MeshOf(q1, k)))
  {
    hide Pruned;
    var n, m := NetIn(MeshOf(q, k)), NetIn(MeshOf(q1, k));
    forall e | e in Pruned(n)
      ensures exists f :: f in Pruned(m) && Cross(e) == Cross(f)
    {
      MeshEdges(q, k, e);
      var f := e.(w := WeightOf(q1, e.src, e.dst, e.ingress));
      MeshEdges(q1, k, f);
      assert f in Pruned(m) && Cross(e) == Cross(f);
    }
    forall f | f in Pruned(m)
      ensures exists e :: e in Pruned(n) && Cross(f) == Cross(e)
    {
      MeshEdges(q1, k, f);
      var e := f.(w := WeightOf(q, f.src, f.dst, f.ingress));
      MeshEdges(q, k, e);
      assert e in Pruned(n) && Cross(f) == Cross(e);
    }
    SameLinksSameEdges(n, m);
  }

  // ---------- its routes ----------

  function Direct(x: nat, y: nat, e: nat): Path {
    [Core(x), Ing(y, e), Core(y)]
  }

  function Detour(x: nat, z: nat, f: nat, y: nat, e: nat): Path {
    [Core(x), Ing(z, f), Core(z), Ing(y, e), Core(y)]
  }

  lemma DirectHops(x: nat, y: nat, e: nat)
    ensures Expand(x, [Hop(y, e)]) == Direct(x, y, e) && Compress(Direct(x, y, e)) == [Hop(y, e)]
    ensures HopLinks(x, [Hop(y, e)]) == [Link(Core(x), Ing(y, e))]
  {
    assert [Hop(y, e)][1..] == [];
    CompressExpand(x, [Hop(y, e)]);
  }

  lemma DetourHops(x: nat, z: nat, f: nat, y: nat, e: nat)
    ensures Expand(x, [Hop(z, f), Hop(y, e)]) == Detour(x, z, f, y, e)
    ensures Compress(Detour(x, z, f, y, e)) == [Hop(z, f), Hop(y, e)]
    ensures HopLinks(x, [Hop(z, f), Hop(y, e)]) == [Link(Core(x), Ing(z, f)), Link(Core(z), Ing(y, e))]
  {
    assert [Hop(z, f), Hop(y, e)][1..] == [Hop(y, e)];
    DirectHops(z, y, e);
    CompressExpand(x, [Hop(z, f), Hop(y, e)]);
  }

  ghost predicate Corners(x: nat, y: nat, z: nat) {
    x < 3 && y < 3 && z < 3 && x != y && x != z && y != z
  }

  ghost predicate IsRoute(x: nat, y: nat, z: nat, p: Path) {
    || (exists e: nat :: e < IngCount(y) && p == Direct(x, y, e))
    || (exists f: nat, e: nat :: f < IngCount(z) && e < IngCount(y) && p == Detour(x, z, f, y, e))
  }

  // A simple path goes straight or around the third node.
  lemma RouteForms(q: Quality, k: int, x: nat, y: nat, z: nat, p: Path)
    requires Corners(x, y, z) && SimplePath(ArcsIn(MeshOf(q, k)), Core(x), Core(y), p)
    ensures IsRoute(x, y, z, p)
  {
    hide EdgesIn, ArcsIn, SimplePath, IsSplit, IsRoute, Realisable;
    var in0 := MeshOf(q, k);
    ArcsInSplit(in0);
    PathsAreRealisable(EdgesIn(in0), ArcsIn(in0), x, y, p);
    SimpleIsWalk(ArcsIn(in0), Core(x), Core(y), p);
    CompressLossless(EdgesIn(in0), ArcsIn(in0), x, y, p);
    HopForms(q, k, x, y, z, Compress(p));
  }

  lemma SimpleIsWalk(a: Arcs, src: Vertex, dst: Vertex, p: Path)
    requires SimplePath(a, src, dst, p)
    ensures WalkFromTo(a, src, dst, p) && Distinct(p)
  {
  }

  lemma HopForms(q: Quality, k: int, x: nat, y: nat, z: nat, hops: seq<Hop>)
    requires Corners(x, y, z) && Realisable(EdgesIn(MeshOf(q, k)), x, y, hops)
    ensures IsRoute(x, y, z, Expand(x, hops))
  {
    hide EdgesIn, Follows, Expand, Direct, Detour;
    forall i | 0 <= i < |hops|
      ensures hops[i].node < 3 && hops[i].ingress < IngCount(hops[i].node)
    {
      HopInMesh(q, k, x, hops, i);
    }
    AtMostTwo(x, hops);
    if |hops| == 1 {
      assert hops == [Hop(y, hops[0].ingress)];
      DirectHops(x, y, hops[0].ingress);
    } else {
      assert hops == [Hop(z, hops[0].ingress), Hop(y, hops[1].ingress)];
      DetourHops(x, z, hops[0].ingress, y, hops[1].ingress);
    }
  }

  lemma HopInMesh(q: Quality, k: int, x: nat, hops: seq<Hop>, i: nat)
    requires Follows(EdgesIn(MeshOf(q, k)), x, hops) && i < |hops|
    ensures hops[i].node < 3 && hops[i].ingress < IngCount(hops[i].node)
  {
    hide EdgesIn, Follows;
    var es := EdgesIn(MeshOf(q, k));
    FollowsStep(es, x, hops, i);
    var e :| e in es && e.src == NodeAt(x, hops, i) && e.dst == hops[i].node && e.ingress == hops[i].ingress;
    MeshEdges(q, k, e);
  }

  lemma AtMostTwo(x: nat, hops: seq<Hop>)
    requires x < 3 && forall i :: 0 <= i < |hops| ==> hops[i].node < 3 && hops[i].node != x
    requires forall i, j :: 0 <= i < j < |hops| ==> hops[i].node != hops[j].node
    ensures |hops| <= 2
  {
    var nodes := [x] + seq(|hops|, i requires 0 <= i < |hops| => hops[i].node);
    DistinctFits(nodes, {0, 1, 2});
  }

  // Both forms are simple paths of any arcs that hold their links.
  lemma DirectSimple(a: Arcs, x: nat, y: nat, e: nat)
    requires x != y && Link(Core(x), Ing(y, e)) in a && Link(Ing(y, e), Core(y)) in a
    ensures SimplePath(a, Core(x), Core(y), Direct(x, y, e))
  {
  }

  lemma DetourSimple(a: Arcs, x: nat, z: nat, f: nat, y: nat, e: nat)
    requires Corners(x, y, z) && Link(Core(x), Ing(z, f)) in a && Link(Ing(z, f), Core(z)) in a
    requires Link(Core(z), Ing(y, e)) in a && Link(Ing(y, e), Core(y)) in a
    ensures SimplePath(a, Core(x), Core(y), Detour(x, z, f, y, e))
  {
  }

  lemma DirectWeight(a: Arcs, x: nat, y: nat, e: nat)
    ensures PathWeight(a, Direct(x, y, e)) == Cost(a, Core(x), Ing(y, e)) + Cost(a, Ing(y, e), Core(y))
  {
    var s, t: Path := Direct(x, y, e), [Ing(y, e), Core(y)];
    assert s[1..] == t && t[1..] == [Core(y)];
    assert PathWeight(a, t) == Cost(a, t[0], t[1]) + PathWeight(a, t[1..]);
    assert PathWeight(a, s) == Cost(a, s[0], s[1]) + PathWeight(a, s[1..]);
  }

  lemma DirectIs(q: Quality, k: int, x: nat, y: nat, e: nat)
    requires HasEdge(x, y, e)
    ensures var a := ArcsIn(MeshOf(q, k));
      SimplePath(a, Core(x), Core(y), Direct(x, y, e)) && PathWeight(a, Direct(x, y, e)) == WeightOf(q, x, y, e)
  {
    hide ArcsIn, SimplePath, WeightOf;
    var a := ArcsIn(MeshOf(q, k));
    MeshArc(q, k, x, y, e);
    DirectSimple(a, x, y, e);
    DirectWeight(a, x, y, e);
  }

  lemma DetourIs(q: Quality, k: int, x: nat, z: nat, f: nat, y: nat, e: nat)
    requires Corners(x, y, z) && f < IngCount(z) && e < IngCount(y)
    ensures var a := ArcsIn(MeshOf(q, k));
      && SimplePath(a, Core(x), Core(y), Detour(x, z, f, y, e))
      && PathWeight(a, Detour(x, z, f, y, e)) == WeightOf(q, x, z, f) + WeightOf(q, z, y, e)
  {
    hide ArcsIn, SimplePath, WeightOf, Corners;
    var a := ArcsIn(MeshOf(q, k));
    EdgesAround(x, y, z, f, e);
    MeshArc(q, k, x, z, f);
    MeshArc(q, k, z, y, e);
    DetourSimple(a, x, z, f, y, e);
    DetourWeight(a, x, z, f, y, e);
  }

  lemma EdgesAround(x: nat, y: nat, z: nat, f: nat, e: nat)
    requires Corners(x, y, z) && f < IngCount(z) && e < IngCount(y)
    ensures HasEdge(x, z, f) && HasEdge(z, y, e)
  {
  }

  lemma DetourWeight(a: Arcs, x: nat, z: nat, f: nat, y: nat, e: nat)
    ensures PathWeight(a, Detour(x, z, f, y, e)) ==
      Cost(a, Core(x), Ing(z, f)) + Cost(a, Ing(z, f), Core(z)) + Cost(a, Core(z), Ing(y, e)) + Cost(a, Ing(y, e), Core(y))
  {
    var r := Detour(x, z, f, y, e);
    WeightSplit(a, r, 2);
    assert r[..2 + 1] == Direct(x, z, f) && r[2..] == Direct(z, y, e);
    DirectWeight(a, x, z, f);
    DirectWeight(a, z, y, e);
  }

  // ---------- the adjacency lists ----------

  // The list of v holds exactly the edges that leave it, sorted.
  lemma OutIs(q: Quality, k: int, v: Vertex, s: seq<Edge>)
    requires Sorted(s, ByTarget) && s != []
    requires forall x :: x in s <==> exists e :: e in EdgesIn(MeshOf(q, k)) && LeavesBy(e, v, x)
    ensures Out(GraphIn(MeshOf(q, k)), v) == s
  {
    hide Pruned, NetIn, LeavesBy, ByTarget, Sorted, Sort, WeakOrder, Keyed;
    var es := EdgesIn(MeshOf(q, k));
    PrunedKeyed(NetIn(MeshOf(q, k)));
    AdjacencySorted(es, v);
    forall x
      ensures x in Adjacent(es, v) <==> x in s
    {
      AdjacentElements(es, v, x);
    }
    assert s[0] in Adjacent(es, v);
    AdjacentElements(es, v, s[0]);
    ByTargetIsOrder();
    SortedUnique(Sort(Adjacent(es, v), ByTarget), s, ByTarget);
  }

  function Toll(q: Quality, x: nat, y: nat, e: nat): Edge {
    Edge(Ing(y, e), WeightOf(q, x, y, e))
  }

  lemma LeavesCore(q: Quality, k: int, v: nat, x: Edge)
    ensures (exists e :: e in EdgesIn(MeshOf(q, k)) && LeavesBy(e, Core(v), x)) <==>
      x.to.Ing? && HasEdge(v, x.to.node, x.to.ingress) && x == Toll(q, v, x.to.node, x.to.ingress)
  {
    hide EdgesIn;
    if e :| e in EdgesIn(MeshOf(q, k)) && LeavesBy(e, Core(v), x) {
      MeshEdges(q, k, e);
    }
    if x.to.Ing? && HasEdge(v, x.to.node, x.to.ingress) && x == Toll(q, v, x.to.node, x.to.ingress) {
      var e := PrunedEdge(v, x.to.node, x.to.ingress, x.w);
      MeshEdges(q, k, e);
      assert e in EdgesIn(MeshOf(q, k)) && LeavesBy(e, Core(v), x);
    }
  }

  lemma OutOf0(q: Quality, k: int)
    ensures Out(GraphIn(MeshOf(q, k)), Core(0)) == [Toll(q, 0, 1, 0), Toll(q, 0, 1, 1), Toll(q, 0, 2, 0), Toll(q, 0, 2, 1)]
  {
    hide EdgesIn, LeavesBy, WeightOf;
    var s := [Toll(q, 0, 1, 0), Toll(q, 0, 1, 1), Toll(q, 0, 2, 0), Toll(q, 0, 2, 1)];
    forall x
      ensures x in s <==> exists e :: e in EdgesIn(MeshOf(q, k)) && LeavesBy(e, Core(0), x)
    {
      LeavesCore(q, k, 0, x);
    }
    OutIs(q, k, Core(0), s);
  }

  lemma OutOf2(q: Quality, k: int)
    ensures Out(GraphIn(MeshOf(q, k)), Core(2)) == [Toll(q, 2, 0, 0), Toll(q, 2, 1, 0), Toll(q, 2, 1, 1)]
  {
    hide EdgesIn, LeavesBy, WeightOf;
    var s := [Toll(q, 2, 0, 0), Toll(q, 2, 1, 0), Toll(q, 2, 1, 1)];
    forall x
      ensures x in s <==> exists e :: e in EdgesIn(MeshOf(q, k)) && LeavesBy(e, Core(2), x)
    {
      LeavesCore(q, k, 2, x);
    }
    OutIs(q, k, Core(2), s);
  }

  lemma OutOfIng(q: Quality, k: int, x: nat, y: nat, e: nat)
    requires HasEdge(x, y, e)
    ensures Out(GraphIn(MeshOf(q, k)), Ing(y, e)) == [Edge(Core(y), 0)]
  {
    hide EdgesIn;
    var s := [Edge(Core(y), 0)];
    var pe := PrunedEdge(x, y, e, WeightOf(q, x, y, e));
    MeshEdges(q, k, pe);
    assert LeavesBy(pe, Ing(y, e), s[0]);
    OutIs(q, k, Ing(y, e), s);
  }

  // ---------- searches ----------

  lemma MaskedWalk(a: Arcs, removedV: set<Vertex>, removedE: set<Link>, p: Path)
    requires IsWalk(Mask(a, removedV, removedE), p)
    ensures IsWalk(a, p) && PathWeight(Mask(a, removedV, removedE), p) == PathWeight(a, p)
  {
    var m := Mask(a, removedV, removedE);
    forall i | 0 <= i < |p| - 1
      ensures Link(p[i], p[i + 1]) in a && Cost(m, p[i], p[i + 1]) == Cost(a, p[i], p[i + 1])
    {
      assert Link(p[i], p[i + 1]) in m;
    }
    WeightAgrees(m, a, p);
  }

  // The search finds p when every other simple path is longer.
  lemma FindsLeast(g: Graph, src: Vertex, dst: Vertex, removedV: set<Vertex>, removedE: set<Link>, p: Path)
    requires WellFormed(g) && src !in removedV && dst !in removedV
    requires SimplePath(Mask(ArcsOf(g), removedV, removedE), src, dst, p)
    requires forall r {:trigger SimplePath(Mask(ArcsOf(g), removedV, removedE), src, dst, r)} ::
      SimplePath(Mask(ArcsOf(g), removedV, removedE), src, dst, r) && r != p ==>
        PathWeight(ArcsOf(g), p) < PathWeight(ArcsOf(g), r)
    ensures Shortest(g, src, dst, removedV, removedE) == Found(p, PathWeight(ArcsOf(g), p))
  {
    hide ArcsOf, Mask, IsWalk, Shortest, PathWeight, WellFormed;
    ShortestIsShortest(g, src, dst, removedV, removedE);
    MaskedWalk(ArcsOf(g), removedV, removedE, p);
    var f := Shortest(g, src, dst, removedV, removedE);
    if f.Found? {
      MaskedWalk(ArcsOf(g), removedV, removedE, f.path);
    }
  }

  lemma LeastItem(q: multiset<Item>, m: Item)
    requires m in q && forall x :: x in q ==> ItemLeq(m, x)
    ensures |q| > 0 && MinItem(q) == m
  {
    ItemLeqTotal(m, MinItem(q));
  }

  lemma RelaxSnoc(s: Search, u: Vertex, d: nat, es: seq<Edge>, e: Edge, removedV: set<Vertex>, removedE: set<Link>)
    requires u in s.path
    ensures Relax(s, u, d, es + [e], removedV, removedE) ==
      RelaxEdge(Relax(s, u, d, es, removedV, removedE), u, d, e, removedV, removedE)
  {
    assert (es + [e])[..|es|] == es;
  }

  // An edge that meets a new vertex, or a nearer way to one.
  ghost function Met(s: Search, u: Vertex, d: nat, e: Edge): Search
    requires u in s.path
  {
    Search(s.dist[e.to := d + e.w], s.prev[e.to := u], s.path[e.to := s.path[u] + [e.to]], s.done,
           s.queue + multiset{Item(d + e.w, e.to)})
  }

  lemma RelaxThree(s: Search, u: Vertex, d: nat, e: seq<Edge>, removedV: set<Vertex>, removedE: set<Link>)
    requires u in s.path && |e| == 3
    ensures var r0 := RelaxEdge(s, u, d, e[0], removedV, removedE);
      u in r0.path && var r1 := RelaxEdge(r0, u, d, e[1], removedV, removedE);
      u in r1.path && Relax(s, u, d, e, removedV, removedE) == RelaxEdge(r1, u, d, e[2], removedV, removedE)
  {
    assert e[..2][..1] == e[..1] && e[..1][..0] == [];
    assert Relax(s, u, d, [], removedV, removedE) == s;
    assert Relax(s, u, d, e[..1], removedV, removedE) == RelaxEdge(s, u, d, e[0], removedV, removedE);
    assert Relax(s, u, d, e[..2], removedV, removedE) ==
      RelaxEdge(Relax(s, u, d, e[..1], removedV, removedE), u, d, e[1], removedV, removedE);
  }

  lemma RelaxFour(s: Search, u: Vertex, d: nat, e: seq<Edge>, removedV: set<Vertex>, removedE: set<Link>)
    requires u in s.path && |e| == 4
    ensures var r0 := RelaxEdge(s, u, d, e[0], removedV, removedE);
      u in r0.path && var r1 := RelaxEdge(r0, u, d, e[1], removedV, removedE);
      u in r1.path && var r2 := RelaxEdge(r1, u, d, e[2], removedV, removedE);
      u in r2.path && Relax(s, u, d, e, removedV, removedE) == RelaxEdge(r2, u, d, e[3], removedV, removedE)
  {
    hide RelaxEdge;
    assert e == e[..3] + [e[3]];
    RelaxSnoc(s, u, d, e[..3], e[3], removedV, removedE);
    RelaxThree(s, u, d, e[..3], removedV, removedE);
  }

  // A node that has only one edge to give.
  lemma RelaxOne(s: Search, u: Vertex, d: nat, e: Edge, removedV: set<Vertex>, removedE: set<Link>)
    requires u in s.path
    ensures Relax(s, u, d, [e], removedV, removedE) == RelaxEdge(s, u, d, e, removedV, removedE)
  {
    assert [e][..0] == [];
    assert Relax(s, u, d, [], removedV, removedE) == s;
  }

  lemma UniverseCloses(g: Graph, src: Vertex)
    ensures Dijkstra.Closed(g, Universe(g, src)) && Dijkstra.Queued(Universe(g, src), Start(src))
  {
  }

  // One turn that settles u.
  lemma Turn(g: Graph, dst: Vertex, removedV: set<Vertex>, removedE: set<Link>, s: Search, m: Item, rest: multiset<Item>)
    requires s.queue == rest + multiset{m} && m.v !in s.done && forall x :: x in s.queue ==> ItemLeq(m, x) && x.v in s.path
    ensures |s.queue| > 0
    ensures var t := s.(queue := rest, done := s.done + {m.v});
      Next(g, dst, removedV, removedE, s) == if m.v == dst then t else Relax(t, m.v, m.dist, Out(g, m.v), removedV, removedE)
  {
    hide Relax, Out;
    LeastItem(s.queue, m);
    assert s.queue - multiset{m} == rest;
  }

  lemma RunTurn(g: Graph, all: set<Vertex>, dst: Vertex, removedV: set<Vertex>, removedE: set<Link>, s: Search, r: Search)
    requires Dijkstra.Closed(g, all) && Dijkstra.Queued(all, s) && |s.queue| > 0 && dst !in s.done
    requires r == Next(g, dst, removedV, removedE, s)
    ensures Dijkstra.Queued(all, r) && Run(g, all, dst, removedV, removedE, s) == Run(g, all, dst, removedV, removedE, r)
  {
    hide Next, Dijkstra.Closed, Dijkstra.Queued;
    NextDecreases(g, all, dst, removedV, removedE, s);
  }

  // The search from its last state.
  lemma SearchEnds(g: Graph, src: Vertex, dst: Vertex, removedV: set<Vertex>, removedE: set<Link>, s: Search)
    requires src !in removedV && dst !in removedV && dst in s.done && dst in s.dist && dst in s.path
    requires Dijkstra.Queued(Universe(g, src), s)
    requires Run(g, Universe(g, src), dst, removedV, removedE, Start(src)) ==
      Run(g, Universe(g, src), dst, removedV, removedE, s)
    ensures Shortest(g, src, dst, removedV, removedE) == Found(s.path[dst], s.dist[dst])
  {
    hide Universe, Start;
    UniverseCloses(g, src);
    assert Run(g, Universe(g, src), dst, removedV, removedE, s) == s;
  }

  // ---------- which pairs an event makes dirty ----------

  // The second link from node 0 to x.
  function Second(x: nat): Link {
    Link(Core(0), Ing(x, 1))
  }

  // A route over that link starts at 0, or goes around 0 to x.
  lemma UsesSecond(q: Quality, k: int, x: nat, a: nat, b: nat, p: Path)
    requires x == 1 || x == 2
    requires a < 3 && b < 3 && a != b && SimplePath(ArcsIn(MeshOf(q, k)), Core(a), Core(b), p)
    requires Second(x) in HopLinks(a, Compress(p))
    ensures a == 0 || (a == 3 - x && b == x && p == Detour(a, 0, 0, x, 1))
  {
    hide ArcsIn, SimplePath, Compress, HopLinks, Direct, Detour;
    var c: nat := 3 - a - b;
    RouteForms(q, k, a, b, c, p);
    if e: nat :| e < IngCount(b) && p == Direct(a, b, e) {
      DirectHops(a, b, e);
    } else {
      var f: nat, e: nat :| f < IngCount(c) && e < IngCount(b) && p == Detour(a, c, f, b, e);
      DetourHops(a, c, f, b, e);
    }
  }

  // A path cannot be listed beside, or instead of, as many lighter ones as are listed.
  lemma HeavyNotListed(a: Arcs, src: Vertex, dst: Vertex, k: int, r: seq<Path>, p: Path, lighter: seq<Path>)
    requires IsKShortest(a, src, dst, k, r) && |lighter| == Bound(k) && Distinct(lighter)
    requires forall i {:trigger lighter[i]} :: 0 <= i < |lighter| ==>
      SimplePath(a, src, dst, lighter[i]) && PathWeight(a, lighter[i]) < PathWeight(a, p)
    ensures p !in r
  {
    hide SimplePath, PathWeight;
    if p in r {
      forall i | 0 <= i < |lighter|
        ensures lighter[i] in r
      {
        assert lighter[i] !in r ==> Beaten(a, k, r, lighter[i]);
      }
      var more := lighter + [p];
      assert p !in lighter;
      DistinctFits(more, Elements(r));
      SeqSize(r);
      assert false;
    }
  }

  ghost predicate Avoids(src: nat, ps: seq<Path>, l: Link) {
    forall i :: 0 <= i < |ps| ==> l !in HopLinks(src, Compress(ps[i]))
  }

  // Neither pair that could use the link, beside (0, 2), lists a route over it.
  ghost predicate Spared(in0: Input, x: nat)
    requires x == 1 || x == 2
  {
    Avoids(0, PathsFor(in0, 0, 1), Second(x)) && Detour(3 - x, 0, 0, x, 1) !in PathsFor(in0, 3 - x, x)
  }

  lemma OnlyDirty(q: Quality, k: int, x: nat, p: RoutePair)
    requires x == 1 || x == 2
    requires InputOk(MeshOf(q, k)) && Spared(MeshOf(q, k), x)
    requires p in BaselineIn(MeshOf(q, k)) && Touches(p.src, BaselineIn(MeshOf(q, k))[p], {Second(x)})
    ensures p == RoutePair(0, 2)
  {
    hide PathsFor, ArcsIn, InputOk, Compress, HopLinks, Direct, Detour, SimplePath;
    var in0 := MeshOf(q, k);
    var ps := PathsFor(in0, p.src, p.dst);
    MeshTransits(q, k);
    PathsForValid(in0, p.src, p.dst);
    var i, l :| 0 <= i < |ps| && l in HopLinks(p.src, CompressAll(ps)[i]) && l in {Second(x)};
    assert SimplePath(ArcsIn(in0), Core(p.src), Core(p.dst), ps[i]);
    UsesSecond(q, k, x, p.src, p.dst, ps[i]);
  }

  // An event that changes the second link to x alone is patched, and the pair (0, 1) stays.
  lemma StaysPatched(q: Quality, q1: Quality, k: int, x: nat, e: EdgeDelta)
    requires x == 1 || x == 2
    requires InputOk(MeshOf(q, k)) && Spared(MeshOf(q, k), x)
    requires ApplyEvents(q, [e]) == q1 && Changes([e], q) == ChangeSet({Second(x)}, false)
    ensures !GoesFull(MeshOf(q, k), BaselineIn(MeshOf(q, k)), THRESHOLD, [e])
    ensures RoutePair(0, 1) !in DirtyPairs(MeshOf(q, k), BaselineIn(MeshOf(q, k)), Changes([e], q))
  {
    hide BaselineIn, InputOk, Spared, Touches, EdgesIn, SameEdges;
    var in0 := MeshOf(q, k);
    var dirty := DirtyPairs(in0, BaselineIn(in0), Changes([e], q));
    forall p | p in dirty
      ensures p == RoutePair(0, 2)
    {
      OnlyDirty(q, k, x, p);
    }
    SubsetSize(dirty, {RoutePair(0, 2)});
    MeshTransits(q, k);
    assert NewInput(in0, [e], 0) == MeshOf(q1, k);
    MeshSameEdges(q1, q, k);
    SmallRatio(|dirty|);
  }

  lemma SmallRatio(n: nat)
    requires n <= 1
    ensures Ratio(n, 3) < THRESHOLD
  {
  }

  lemma OneEvent(q: Quality, e: EdgeDelta)
    ensures ApplyEvents(q, [e]) == ApplyEvent(q, e)
    ensures Changes([e], q) == AddChange(ChangeSet({}, false), e, q)
  {
    assert [e][..|[e]| - 1] == [];
    assert ApplyEvents(q, []) == q;
  }

  // A patched step keeps what it does not find dirty.
  lemma PatchKeeps(in0: Input, last: Result, e: EdgeDelta, p: RoutePair)
    requires !GoesFull(in0, last.baseline, THRESHOLD, [e]) && p in last.baseline
    requires p in AllPairs(NewInput(in0, [e], 0)) && p !in DirtyPairs(in0, last.baseline, Changes([e], in0.quality))
    ensures var r := Step(in0, last, THRESHOLD, [e], 0); p in r.baseline && r.baseline[p] == last.baseline[p]
  {
    hide GoesFull, DirtyPairs, Connected, PathsFor, AllPairs;
  }
}
