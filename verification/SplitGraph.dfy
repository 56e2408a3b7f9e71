// The split graph of a pruned edge set, and the hop lists its paths compress to
// (internal/controller/topology/kpaths.go).
module SplitGraph {
  import opened Paths
  import opened Sorting

  // Src reaches the physical neighbour Dst through Dst's ingress, at weight W.
  datatype PrunedEdge = PrunedEdge(src: nat, dst: nat, ingress: nat, w: nat)

  datatype Hop = Hop(node: nat, ingress: nat)

  function Cross(e: PrunedEdge): Link {
    Link(Core(e.src), Ing(e.dst, e.ingress))
  }

  function Inner(e: PrunedEdge): Link {
    Link(Ing(e.dst, e.ingress), Core(e.dst))
  }

  // No two edges join the same source, destination and ingress.
  ghost predicate Keyed(es: seq<PrunedEdge>) {
    forall i, j :: 0 <= i < j < |es| ==> Cross(es[i]) != Cross(es[j])
  }

  // The arcs of the split graph: one weighted arc per edge, and a free arc from every used
  // ingress to the core of its node.
  ghost predicate IsSplit(es: seq<PrunedEdge>, a: Arcs) {
    && (forall e :: e in es ==> Cross(e) in a && a[Cross(e)] == e.w && Inner(e) in a && a[Inner(e)] == 0)
    && forall l :: l in a ==> exists e :: e in es && (l == Cross(e) || l == Inner(e))
  }

  // ---------- building it ----------

  function VerticesOf(es: seq<PrunedEdge>): set<Vertex> {
    if es == [] then {}
    else
      var e := es[|es| - 1];
      VerticesOf(es[..|es| - 1]) + {Core(e.src), Ing(e.dst, e.ingress), Core(e.dst)}
  }

  // The adjacency list of v before sorting.
  function Adjacent(es: seq<PrunedEdge>, v: Vertex): seq<Edge> {
    if es == [] then []
    else
      var e := es[|es| - 1];
      var rest := Adjacent(es[..|es| - 1], v);
      if v == Core(e.src) then rest + [Edge(Ing(e.dst, e.ingress), e.w)]
      else if v == Ing(e.dst, e.ingress) && rest == [] then [Edge(Core(e.dst), 0)]
      else rest
  }

  predicate ByTarget(x: Edge, y: Edge) {
    Before(x.to, y.to)
  }

  lemma BeforeIsOrder()
    ensures WeakOrder(Before) && forall u, v :: u == v || Before(u, v) || Before(v, u)
  {
  }

  lemma ByTargetIsOrder()
    ensures WeakOrder(ByTarget)
  {
    BeforeIsOrder();
  }

  function SplitGraphOf(es: seq<PrunedEdge>): Graph {
    map v | v in VerticesOf(es) :: Sort(Adjacent(es, v), ByTarget)
  }

  ghost predicate LeavesBy(e: PrunedEdge, v: Vertex, x: Edge) {
    (v == Core(e.src) && x == Edge(Ing(e.dst, e.ingress), e.w))
    || (v == Ing(e.dst, e.ingress) && x == Edge(Core(e.dst), 0))
  }

  lemma {:induction false} AdjacentElements(es: seq<PrunedEdge>, v: Vertex, x: Edge)
    ensures x in Adjacent(es, v) <==> exists e :: e in es && LeavesBy(e, v, x)
    ensures Adjacent(es, v) != [] ==> v in VerticesOf(es)
    ensures v.Ing? ==> |Adjacent(es, v)| <= 1
  {
    if es != [] {
      var n := |es| - 1;
      AdjacentElements(es[..n], v, x);
      assert es == es[..n] + [es[n]];
      assert LeavesBy(es[n], v, x) ==> es[n] in es;
      if v == Ing(es[n].dst, es[n].ingress) && Adjacent(es[..n], v) != [] {
        AdjacentInner(es[..n], v);
      }
    }
  }

  lemma {:induction false} AdjacentInner(es: seq<PrunedEdge>, v: Vertex)
    requires v.Ing? && Adjacent(es, v) != []
    ensures Adjacent(es, v) == [Edge(Core(v.node), 0)]
  {
    var n := |es| - 1;
    if Adjacent(es[..n], v) != [] {
      AdjacentInner(es[..n], v);
    }
  }

  lemma {:induction false} AdjacentDistinct(es: seq<PrunedEdge>, v: Vertex)
    requires Keyed(es)
    ensures forall i, j :: 0 <= i < j < |Adjacent(es, v)| ==> Adjacent(es, v)[i].to != Adjacent(es, v)[j].to
  {
    if es != [] {
      var n := |es| - 1;
      AdjacentDistinct(es[..n], v);
      if v == Core(es[n].src) {
        var rest := Adjacent(es[..n], v);
        forall i | 0 <= i < |rest|
          ensures rest[i].to != Cross(es[n]).to
        {
          AdjacentElements(es[..n], v, rest[i]);
          var e :| e in es[..n] && LeavesBy(e, v, rest[i]);
          assert Cross(e) != Cross(es[n]);
        }
      }
    }
  }

  lemma AdjacencySorted(es: seq<PrunedEdge>, v: Vertex)
    requires Keyed(es)
    ensures var s := Sort(Adjacent(es, v), ByTarget);
      Sorted(s, ByTarget) && forall x :: x in s <==> x in Adjacent(es, v)
  {
    BeforeIsOrder();
    ByTargetIsOrder();
    AdjacentDistinct(es, v);
    assert Separated(Adjacent(es, v), ByTarget);
    SortSorts(Adjacent(es, v), ByTarget);
    SortElements(Adjacent(es, v), ByTarget);
  }

  lemma SplitGraphWellFormed(es: seq<PrunedEdge>)
    requires Keyed(es)
    ensures WellFormed(SplitGraphOf(es))
  {
    var g: Graph := SplitGraphOf(es);
    forall u: Vertex, i: int, j: int | u in g && 0 <= i < j < |g[u]|
      ensures g[u][i].to != g[u][j].to
    {
      AdjacencySorted(es, u);
    }
  }

  // The graph built has no parallel edges, and its arcs are those of the split graph.
  lemma SplitGraphIsSplit(es: seq<PrunedEdge>)
    requires Keyed(es)
    ensures WellFormed(SplitGraphOf(es)) && IsSplit(es, ArcsOf(SplitGraphOf(es)))
  {
    SplitGraphWellFormed(es);
    hide ArcsOf;
    var a := ArcsOf(SplitGraphOf(es));
    forall e | e in es
      ensures Cross(e) in a && a[Cross(e)] == e.w && Inner(e) in a && a[Inner(e)] == 0
    {
      EdgeInGraph(es, e, Core(e.src), Edge(Ing(e.dst, e.ingress), e.w));
      EdgeInGraph(es, e, Ing(e.dst, e.ingress), Edge(Core(e.dst), 0));
    }
    forall l | l in a
      ensures exists e :: e in es && (l == Cross(e) || l == Inner(e))
    {
      var e := ArcOfEdge(es, l);
    }
  }

  lemma ArcOfEdge(es: seq<PrunedEdge>, l: Link) returns (e: PrunedEdge)
    requires Keyed(es) && WellFormed(SplitGraphOf(es)) && l in ArcsOf(SplitGraphOf(es))
    ensures e in es && (l == Cross(e) || l == Inner(e))
  {
    var g: Graph := SplitGraphOf(es);
    var i := ArcIsEdge(g, l.from, l.to);
    AdjacencySorted(es, l.from);
    AdjacentElements(es, l.from, g[l.from][i]);
    e :| e in es && LeavesBy(e, l.from, g[l.from][i]);
  }

  lemma EdgeInGraph(es: seq<PrunedEdge>, e: PrunedEdge, v: Vertex, x: Edge)
    requires Keyed(es) && e in es && LeavesBy(e, v, x) && WellFormed(SplitGraphOf(es))
    ensures Link(v, x.to) in ArcsOf(SplitGraphOf(es)) && ArcsOf(SplitGraphOf(es))[Link(v, x.to)] == x.w
  {
    var g: Graph := SplitGraphOf(es);
    AdjacencySorted(es, v);
    AdjacentElements(es, v, x);
    var i :| 0 <= i < |g[v]| && g[v][i] == x;
    EdgeIsArc(g, v, i);
  }

  ghost predicate Built(es: seq<PrunedEdge>, adj: Graph) {
    adj.Keys == VerticesOf(es) && forall v :: v in adj ==> adj[v] == Adjacent(es, v)
  }

  ghost predicate Adds(adj: Graph, e: PrunedEdge, adj1: Graph) {
    && adj1.Keys == adj.Keys + {Core(e.src), Ing(e.dst, e.ingress), Core(e.dst)}
    && forall v :: v in adj1 ==>
         var old0 := if v in adj then adj[v] else [];
         adj1[v] == if v == Core(e.src) then old0 + [Edge(Ing(e.dst, e.ingress), e.w)]
                    else if v == Ing(e.dst, e.ingress) && old0 == [] then [Edge(Core(e.dst), 0)]
                    else old0
  }

  // Adding one edge to the lists.
  lemma BuiltStep(es: seq<PrunedEdge>, e: PrunedEdge, adj: Graph, adj1: Graph)
    requires Built(es, adj) && Adds(adj, e, adj1)
    ensures Built(es + [e], adj1)
  {
    assert (es + [e])[..|es|] == es;
    forall v | v in adj1
      ensures adj1[v] == Adjacent(es + [e], v)
    {
      AdjacentElements(es, v, Edge(v, 0));
    }
  }

  method BuildSplitGraph(es: seq<PrunedEdge>) returns (g: Graph)
    ensures g == SplitGraphOf(es)
  {
    var adj := BuildLists(es);
    g := SortLists(adj);
  }

  method BuildLists(es: seq<PrunedEdge>) returns (adj: Graph)
    ensures Built(es, adj)
  {
    adj := map[];
    var internalDone: set<Vertex> := {};
    assert Built(es[..0], adj) && DoneOk(adj, internalDone);
    hide Built, Adds, DoneOk;
    for i := 0 to |es|
      invariant Built(es[..i], adj) && DoneOk(adj, internalDone)
    {
      ghost var before := adj;
      adj, internalDone := AddPruned(adj, internalDone, es[i]);
      BuiltStep(es[..i], es[i], before, adj);
      assert es[..i] + [es[i]] == es[..i + 1];
    }
    assert es[..|es|] == es;
  }

  // internalDone holds the ingress vertices that have their inner edge.
  ghost predicate DoneOk(adj: Graph, internalDone: set<Vertex>) {
    forall v :: v in internalDone <==> v.Ing? && v in adj && adj[v] != []
  }

  method AddPruned(adj0: Graph, done0: set<Vertex>, pe: PrunedEdge) returns (adj: Graph, internalDone: set<Vertex>)
    requires DoneOk(adj0, done0)
    ensures DoneOk(adj, internalDone)
    ensures Adds(adj0, pe, adj)
  {
    var src, iv, dst := Core(pe.src), Ing(pe.dst, pe.ingress), Core(pe.dst);
    adj, internalDone := Ensure(Ensure(Ensure(adj0, src), iv), dst), done0;
    adj := adj[src := adj[src] + [Edge(iv, pe.w)]];
    if iv !in internalDone {
      adj := adj[iv := adj[iv] + [Edge(dst, 0)]];
      internalDone := internalDone + {iv};
    }
  }

  function Ensure(adj: Graph, v: Vertex): Graph {
    if v in adj then adj else adj[v := []]
  }

  // Sort every adjacency list, in any order of the vertices.
  method SortLists(adj: Graph) returns (g: Graph)
    ensures g == map v | v in adj :: Sort(adj[v], ByTarget)
  {
    g := adj;
    var todo := adj.Keys;
    while todo != {}
      invariant todo <= adj.Keys == g.Keys
      invariant forall v :: v in adj ==> g[v] == if v in todo then adj[v] else Sort(adj[v], ByTarget)
      decreases todo
    {
      var v :| v in todo;
      g := g[v := Sort(g[v], ByTarget)];
      todo := todo - {v};
    }
  }

  // ---------- hop lists ----------

  function Compress(p: Path): seq<Hop> {
    if p == [] then []
    else (if p[0].Ing? then [Hop(p[0].node, p[0].ingress)] else []) + Compress(p[1..])
  }

  function Expand(src: nat, hops: seq<Hop>): Path
    decreases |hops|
  {
    if hops == [] then [Core(src)]
    else [Core(src), Ing(hops[0].node, hops[0].ingress)] + Expand(hops[0].node, hops[1..])
  }

  method CompressPath(path: Path) returns (hops: seq<Hop>)
    ensures hops == Compress(path)
  {
    hops := [];
    for i := 0 to |path|
      invariant hops + Compress(path[i..]) == Compress(path)
    {
      var v := path[i];
      assert path[i..][1..] == path[i + 1..];
      if v.Core? {
        continue;
      }
      hops := hops + [Hop(v.node, v.ingress)];
    }
  }

  // Compression is lossless: a path from core to core is rebuilt from its hops.
  lemma {:induction false} CompressLossless(es: seq<PrunedEdge>, a: Arcs, src: nat, dst: nat, p: Path)
    requires IsSplit(es, a) && WalkFromTo(a, Core(src), Core(dst), p)
    ensures Expand(src, Compress(p)) == p
    decreases |p|
  {
    if |p| > 1 {
      assert Link(p[0], p[0 + 1]) in a;
      assert p[1].Ing?;
      assert |p| > 2;
      assert Link(p[1], p[1 + 1]) in a;
      assert p[2] == Core(p[1].node);
      var rest := p[2..];
      forall i | 0 <= i < |rest| - 1
        ensures Link(rest[i], rest[i + 1]) in a
      {
        assert Link(p[i + 2], p[i + 2 + 1]) in a;
      }
      CompressLossless(es, a, p[1].node, dst, rest);
      assert p[1..][1..] == rest;
      assert Compress(p) == [Hop(p[1].node, p[1].ingress)] + Compress(rest);
      assert Compress(p)[1..] == Compress(rest);
    } else {
      assert p == [Core(src)];
      assert Compress(p[1..]) == [];
    }
  }

  lemma {:induction false} CompressExpand(src: nat, hops: seq<Hop>)
    ensures Compress(Expand(src, hops)) == hops
    decreases |hops|
  {
    if hops != [] {
      var p := Expand(src, hops);
      CompressExpand(hops[0].node, hops[1..]);
      assert p[1..][1..] == Expand(hops[0].node, hops[1..]);
      assert Compress(p) == [hops[0]] + Compress(p[1..][1..]);
    } else {
      assert Expand(src, hops)[1..] == [];
    }
  }

  // Distinct paths have distinct hop lists.
  lemma CompressInjective(es: seq<PrunedEdge>, a: Arcs, src: nat, dst: nat, p: Path, q: Path)
    requires IsSplit(es, a) && WalkFromTo(a, Core(src), Core(dst), p) && WalkFromTo(a, Core(src), Core(dst), q)
    requires Compress(p) == Compress(q)
    ensures p == q
  {
    CompressLossless(es, a, src, dst, p);
    CompressLossless(es, a, src, dst, q);
  }

  // The links rebuilt from a hop list: from the source to the first hop, and on.
  function HopLinks(src: nat, hops: seq<Hop>): seq<Link>
    decreases |hops|
  {
    if hops == [] then []
    else [Link(Core(src), Ing(hops[0].node, hops[0].ingress))] + HopLinks(hops[0].node, hops[1..])
  }

  // The links rebuilt from the hops are exactly the cross links of the path.
  ghost predicate CrossAt(p: Path, i: nat, l: Link) {
    i + 1 < |p| && p[i].Core? && l == Link(p[i], p[i + 1])
  }

  lemma {:induction false} HopLinkIsCross(src: nat, hops: seq<Hop>, l: Link) returns (i: nat)
    requires l in HopLinks(src, hops)
    ensures CrossAt(Expand(src, hops), i, l)
    decreases |hops|
  {
    var q := Expand(hops[0].node, hops[1..]);
    if l == Link(Core(src), Ing(hops[0].node, hops[0].ingress)) {
      i := 0;
    } else {
      var j := HopLinkIsCross(hops[0].node, hops[1..], l);
      assert Expand(src, hops)[2..] == q;
      i := j + 2;
    }
  }

  lemma {:induction false} CrossIsHopLink(src: nat, hops: seq<Hop>, i: nat, l: Link)
    requires CrossAt(Expand(src, hops), i, l)
    ensures l in HopLinks(src, hops)
    decreases |hops|
  {
    var p := Expand(src, hops);
    if hops != [] {
      assert p[0] == Core(src) && p[1] == Ing(hops[0].node, hops[0].ingress);
      if i >= 2 {
        assert p[2..] == Expand(hops[0].node, hops[1..]);
        CrossIsHopLink(hops[0].node, hops[1..], i - 2, l);
      }
    }
  }

  // ---------- realisable routes ----------

  // Each hop is an edge of the pruned set out of the node before it.
  ghost predicate Follows(es: seq<PrunedEdge>, src: nat, hops: seq<Hop>)
    decreases |hops|
  {
    hops == [] ||
    ((exists e :: e in es && e.src == src && e.dst == hops[0].node && e.ingress == hops[0].ingress)
     && Follows(es, hops[0].node, hops[1..]))
  }

  lemma {:induction false} ExpandFollows(es: seq<PrunedEdge>, a: Arcs, src: nat, hops: seq<Hop>)
    requires IsSplit(es, a) && IsWalk(a, Expand(src, hops))
    ensures Follows(es, src, hops)
    decreases |hops|
  {
    if hops != [] {
      var p := Expand(src, hops);
      var q := Expand(hops[0].node, hops[1..]);
      assert Link(p[0], p[0 + 1]) in a;
      var e :| e in es && (Link(p[0], p[1]) == Cross(e) || Link(p[0], p[1]) == Inner(e));
      forall i | 0 <= i < |q| - 1
        ensures Link(q[i], q[i + 1]) in a
      {
        assert Link(p[i + 2], p[i + 2 + 1]) in a;
      }
      ExpandFollows(es, a, hops[0].node, hops[1..]);
    }
  }

  lemma {:induction false} ExpandNodes(src: nat, hops: seq<Hop>)
    ensures Expand(src, hops)[0] == Core(src) && |Expand(src, hops)| == 2 * |hops| + 1
    ensures forall i :: 0 <= i < |hops| ==>
      Expand(src, hops)[2 * i + 1] == Ing(hops[i].node, hops[i].ingress)
      && Expand(src, hops)[2 * i + 2] == Core(hops[i].node)
    decreases |hops|
  {
    if hops != [] {
      ExpandNodes(hops[0].node, hops[1..]);
      var p := Expand(src, hops);
      var q := Expand(hops[0].node, hops[1..]);
      assert p == [Core(src), Ing(hops[0].node, hops[0].ingress)] + q;
      forall i | 0 <= i < |hops|
        ensures p[2 * i + 1] == Ing(hops[i].node, hops[i].ingress) && p[2 * i + 2] == Core(hops[i].node)
      {
        if i > 0 {
          assert hops[i] == hops[1..][i - 1];
          assert p[2 * i + 1] == q[2 * (i - 1) + 1] && p[2 * i + 2] == q[2 * (i - 1) + 2];
        }
      }
    }
  }

  // A route can be forwarded hop by hop, ends at its destination, meets no physical node
  // twice and never comes back to its source.
  ghost predicate Realisable(es: seq<PrunedEdge>, src: nat, dst: nat, hops: seq<Hop>) {
    && |hops| > 0 && hops[|hops| - 1].node == dst
    && Follows(es, src, hops)
    && (forall i :: 0 <= i < |hops| ==> hops[i].node != src)
    && forall i, j :: 0 <= i < j < |hops| ==> hops[i].node != hops[j].node
  }

  lemma PathsAreRealisable(es: seq<PrunedEdge>, a: Arcs, src: nat, dst: nat, p: Path)
    requires IsSplit(es, a) && SimplePath(a, Core(src), Core(dst), p) && src != dst
    ensures Realisable(es, src, dst, Compress(p))
  {
    var hops := Compress(p);
    CompressLossless(es, a, src, dst, p);
    ExpandNodes(src, hops);
    ExpandFollows(es, a, src, hops);
    forall i | 0 <= i < |hops|
      ensures hops[i].node != src
    {
      assert p[0] != p[2 * i + 2];
    }
    forall i, j | 0 <= i < j < |hops|
      ensures hops[i].node != hops[j].node
    {
      assert p[2 * i + 2] != p[2 * j + 2];
    }
  }
}
