// The full recompute: roles, neighbours, baseline routes, probe sets
// (internal/controller/topology/optimizer.go, kpaths.go).
module Optimizer {
  import opened Paths
  import opened Dijkstra
  import opened KShortest
  import opened KLists
  import opened Sorting
  import opened SplitGraph
  import opened Nearest
  import opened Prune
  import opened Assign
  import opened Uplinks

  datatype Input = Input(version: nat, nodes: seq<NodeInput>, quality: Quality, maxPeers: int,
                         ingressK: int, routeK: int, leafUplinks: int, probeFull: bool, probeLimit: int)

  datatype Role = Leaf | Transit

  datatype RoutePair = RoutePair(src: nat, dst: nat)

  type Baseline = map<RoutePair, seq<seq<Hop>>>

  datatype Result = Result(version: nat, roles: map<nat, Role>, neighbors: map<nat, seq<NeighborSpec>>,
                           baseline: Baseline, probeSets: map<nat, seq<ProbeTarget>>)

  // ---------- the result as a function of the input ----------

  ghost function NetIn(in0: Input): Net {
    NetOf(in0.nodes, in0.quality, in0.maxPeers, in0.ingressK)
  }

  ghost function EdgesIn(in0: Input): seq<PrunedEdge> {
    Pruned(NetIn(in0))
  }

  ghost function GraphIn(in0: Input): Graph {
    SplitGraphOf(EdgesIn(in0))
  }

  lemma GraphInOk(in0: Input)
    ensures WellFormed(GraphIn(in0)) && IsSplit(EdgesIn(in0), ArcsOf(GraphIn(in0)))
  {
    PrunedKeyed(NetIn(in0));
    SplitGraphIsSplit(EdgesIn(in0));
  }

  ghost function ArcsIn(in0: Input): Arcs {
    GraphInOk(in0);
    ArcsOf(GraphIn(in0))
  }

  lemma ArcsInSplit(in0: Input)
    ensures IsSplit(EdgesIn(in0), ArcsIn(in0))
  {
    GraphInOk(in0);
  }

  // Unique identifiers, and weights whose sums stay below the sentinel.
  ghost predicate InputOk(in0: Input) {
    NodesOk(in0.nodes) && Safe(ArcsIn(in0))
  }

  ghost function TransitsIn(in0: Input): set<nat> {
    TransitSet(in0.nodes)
  }

  ghost function RolesOf(in0: Input): map<nat, Role> {
    map v | v in TransitSet(in0.nodes) + LeafSet(in0.nodes) :: if v in TransitSet(in0.nodes) then Transit else Leaf
  }

  // A node is a transit if and only if one of its ingresses is reachable with a confidence of at
  // least 60, and every other node is a leaf.
  lemma RolesAre(in0: Input, n: NodeInput)
    requires NodesOk(in0.nodes) && n in in0.nodes
    ensures n.id in RolesOf(in0)
    ensures RolesOf(in0)[n.id] == Transit <==>
      exists i :: 0 <= i < |n.ingresses| && n.ingresses[i].reachable && n.ingresses[i].confidence >= 60
    ensures RolesOf(in0)[n.id] == Leaf <==>
      forall i :: 0 <= i < |n.ingresses| ==> !n.ingresses[i].reachable || n.ingresses[i].confidence < 60
  {
    if Eligible(n.ingresses) {
      var m :| m in n.ingresses && m.reachable && m.confidence >= MIN_CONFIDENCE;
      var i :| 0 <= i < |n.ingresses| && n.ingresses[i] == m;
      assert n.id in TransitSet(in0.nodes);
    } else {
      assert n.id in LeafSet(in0.nodes);
      NotTransit(in0, n);
      forall i | 0 <= i < |n.ingresses|
        ensures !n.ingresses[i].reachable || n.ingresses[i].confidence < 60
      {
        assert n.ingresses[i] in n.ingresses;
      }
    }
  }

  lemma NotTransit(in0: Input, n: NodeInput)
    requires NodesOk(in0.nodes) && n in in0.nodes && !Eligible(n.ingresses)
    ensures n.id !in TransitSet(in0.nodes)
  {
  }

  // An isolated transit, like an isolated leaf, has an empty list.
  ghost function NeighborsIn(in0: Input): map<nat, seq<NeighborSpec>> {
    var es := EdgesIn(in0);
    map v | v in TransitSet(in0.nodes) + LeafSet(in0.nodes) ::
      if v in LeafSet(in0.nodes) then LeafSpecs(NetIn(in0), v, Limit(in0.leafUplinks))
      else if v in NeighborsOf(es) then NeighborsOf(es)[v] else []
  }

  ghost function ProbesIn(in0: Input): map<nat, seq<ProbeTarget>> {
    ProbeSetsOf(NetIn(in0), SortedKeys(set n | n in in0.nodes :: n.id), in0.probeFull, in0.probeLimit)
  }

  function CompressAll(ps: seq<Path>): (hs: seq<seq<Hop>>)
    ensures |hs| == |ps| && forall i :: 0 <= i < |ps| ==> hs[i] == Compress(ps[i])
  {
    seq(|ps|, i requires 0 <= i < |ps| => Compress(ps[i]))
  }

  ghost function PathsFor(in0: Input, a: nat, b: nat): seq<Path> {
    GraphInOk(in0);
    KPaths(GraphIn(in0), Core(a), Core(b), in0.routeK)
  }

  ghost function Connected(in0: Input): set<RoutePair> {
    set a, b | a in TransitsIn(in0) && b in TransitsIn(in0) && a != b && PathsFor(in0, a, b) != [] :: RoutePair(a, b)
  }

  ghost function BaselineIn(in0: Input): Baseline {
    map p | p in Connected(in0) :: CompressAll(PathsFor(in0, p.src, p.dst))
  }

  ghost function OptimizeOf(in0: Input): Result {
    Result(in0.version, RolesOf(in0), NeighborsIn(in0), BaselineIn(in0), ProbesIn(in0))
  }

  // ---------- the routes ----------

  // The route list of a pair: K shortest simple paths, compressed.
  ghost predicate ValidRoutes(in0: Input, a: nat, b: nat, routes: seq<seq<Hop>>) {
    exists ps :: IsKShortest(ArcsIn(in0), Core(a), Core(b), in0.routeK, ps) && routes == CompressAll(ps)
  }

  lemma PathsForValid(in0: Input, a: nat, b: nat)
    requires InputOk(in0) && a != b
    ensures IsKShortest(ArcsIn(in0), Core(a), Core(b), in0.routeK, PathsFor(in0, a, b))
  {
    GraphInOk(in0);
    KPathsCorrect(GraphIn(in0), Core(a), Core(b), in0.routeK);
  }

  lemma BaselineValid(in0: Input, p: RoutePair)
    requires InputOk(in0) && p in BaselineIn(in0)
    ensures ValidRoutes(in0, p.src, p.dst, BaselineIn(in0)[p]) && BaselineIn(in0)[p] != []
  {
    PathsForValid(in0, p.src, p.dst);
  }

  // A pair is in the baseline exactly when it is two transits and some simple path leads from
  // one to the other; it then has as many routes as there are, up to K.
  lemma BaselineExactly(in0: Input, p: RoutePair)
    requires InputOk(in0)
    ensures p in BaselineIn(in0) <==>
      && p.src in TransitsIn(in0) && p.dst in TransitsIn(in0) && p.src != p.dst && in0.routeK > 0
      && exists q :: SimplePath(ArcsIn(in0), Core(p.src), Core(p.dst), q)
    ensures p in BaselineIn(in0) ==>
      var all := |SimplePaths(ArcsIn(in0), Core(p.src), Core(p.dst))|;
      |BaselineIn(in0)[p]| == if in0.routeK <= all then in0.routeK else all
  {
    hide PathsFor, ArcsIn, SimplePath, InputOk, SimplePaths, TransitsIn;
    var a := ArcsIn(in0);
    if p.src != p.dst {
      PathsForValid(in0, p.src, p.dst);
      var r := PathsFor(in0, p.src, p.dst);
      ListLength(a, Core(p.src), Core(p.dst), in0.routeK, r);
      if r != [] {
        assert SimplePath(a, Core(p.src), Core(p.dst), r[0]);
      }
      if q :| SimplePath(a, Core(p.src), Core(p.dst), q) && in0.routeK > 0 {
        NonemptyList(a, Core(p.src), Core(p.dst), in0.routeK, r, q);
      }
    }
  }

  // Every baseline route can be forwarded: see Realisable.
  lemma BaselineRealisable(in0: Input, p: RoutePair, i: nat)
    requires InputOk(in0) && p in BaselineIn(in0) && i < |BaselineIn(in0)[p]|
    ensures Realisable(EdgesIn(in0), p.src, p.dst, BaselineIn(in0)[p][i])
  {
    var ps := PathsFor(in0, p.src, p.dst);
    PathsForValid(in0, p.src, p.dst);
    GraphInOk(in0);
    assert SimplePath(ArcsIn(in0), Core(p.src), Core(p.dst), ps[i]);
    PathsAreRealisable(EdgesIn(in0), ArcsIn(in0), p.src, p.dst, ps[i]);
  }

  // The nodes a hop list passes, its source first.
  function NodeAt(src: nat, hops: seq<Hop>, i: nat): nat
    requires i <= |hops|
  {
    if i == 0 then src else hops[i - 1].node
  }

  lemma {:induction false} FollowsStep(es: seq<PrunedEdge>, src: nat, hops: seq<Hop>, i: nat)
    requires Follows(es, src, hops) && i < |hops|
    ensures exists e :: e in es && e.src == NodeAt(src, hops, i) && e.dst == hops[i].node && e.ingress == hops[i].ingress
    decreases |hops|
  {
    if i > 0 {
      FollowsStep(es, hops[0].node, hops[1..], i - 1);
      assert NodeAt(hops[0].node, hops[1..], i - 1) == NodeAt(src, hops, i);
    }
  }

  // Each hop of each baseline route is offered by the neighbour list of the node before it.
  lemma HopsAreNeighbors(in0: Input, p: RoutePair, i: nat, j: nat)
    requires InputOk(in0) && p in BaselineIn(in0)
    requires i < |BaselineIn(in0)[p]| && j < |BaselineIn(in0)[p][i]|
    ensures var hops := BaselineIn(in0)[p][i];
      var from := NodeAt(p.src, hops, j);
      from in NeighborsIn(in0) && Offers(NeighborsIn(in0)[from], hops[j].node, hops[j].ingress)
  {
    var hops := BaselineIn(in0)[p][i];
    var from := NodeAt(p.src, hops, j);
    BaselineRealisable(in0, p, i);
    FollowsStep(EdgesIn(in0), p.src, hops, j);
    var e :| e in EdgesIn(in0) && e.src == from && e.dst == hops[j].node && e.ingress == hops[j].ingress;
    assert Kept(NetIn(in0), e);
    assert from in TransitSet(in0.nodes);
    NotLeaf(in0, from);
    NeighborsOffer(EdgesIn(in0), from, hops[j].node, hops[j].ingress);
  }

  lemma NotLeaf(in0: Input, v: nat)
    requires NodesOk(in0.nodes) && v in TransitSet(in0.nodes)
    ensures v !in LeafSet(in0.nodes)
  {
  }

  // A transit's neighbours offer exactly the ingresses of the pruned edges from it.
  lemma TransitNeighbors(in0: Input, v: nat, node: nat, ingress: nat)
    requires NodesOk(in0.nodes) && v in TransitSet(in0.nodes)
    ensures v in NeighborsIn(in0)
    ensures Offers(NeighborsIn(in0)[v], node, ingress) <==>
      exists e :: e in EdgesIn(in0) && e.src == v && e.dst == node && e.ingress == ingress
  {
    hide EdgesIn, NeighborsOf, TransitSet, LeafSet, LeafSpecs;
    NotLeaf(in0, v);
    NeighborsOffer(EdgesIn(in0), v, node, ingress);
  }

  // A leaf's neighbours are its nearest measured transits, two unless configured otherwise.
  lemma LeafNeighbors(in0: Input, v: nat, b: nat)
    requires NodesOk(in0.nodes) && v in LeafSet(in0.nodes)
    ensures v in NeighborsIn(in0)
    ensures (exists s :: s in NeighborsIn(in0)[v] && s.node == b) <==>
      AmongNearest(NetIn(in0), TransitSet(in0.nodes), if in0.leafUplinks > 0 then in0.leafUplinks else 2, v, b)
  {
    hide EdgesIn, NeighborsOf, LeafSet, LeafSpecs, AmongNearest, Valid;
    var n := NetIn(in0);
    NetOk(in0.nodes, in0.quality, in0.maxPeers, in0.ingressK);
    UplinksAreNearest(n, v, Limit(in0.leafUplinks), b);
    assert Transits(n) == TransitSet(in0.nodes);
    assert NeighborsIn(in0)[v] == LeafSpecs(n, v, Limit(in0.leafUplinks));
  }

  // What the nodes of an input probe: see TargetsAre.
  lemma ProbeTargets(in0: Input, src: nat, d: nat)
    requires NodesOk(in0.nodes) && exists n :: n in in0.nodes && n.id == src
    ensures var may := set n | n in in0.nodes && n.id != src && |IngOf(NetIn(in0), n.id)| > 0 :: n.id;
      var back := set n | n in in0.nodes && n.id != d && |IngOf(NetIn(in0), n.id)| > 0 :: n.id;
      src in ProbesIn(in0) && ((exists t :: t in ProbesIn(in0)[src] && t.node == d) <==>
        if in0.probeFull then d in may
        else AmongNearest(NetIn(in0), may, in0.probeLimit, src, d)
             || ((exists n :: n in in0.nodes && n.id == d) && |IngOf(NetIn(in0), d)| > 0
                 && AmongNearest(NetIn(in0), back, in0.probeLimit, d, src)))
  {
    hide AmongNearest, NetIn, TargetSpecs, Targets;
    var ids := set n | n in in0.nodes :: n.id;
    var all := SortedKeys(ids);
    assert Sorted(all, Less);
    TargetsAre(NetIn(in0), all, in0.probeFull, in0.probeLimit, src, d);
    assert (set c | c in all && c != src && |IngOf(NetIn(in0), c)| > 0)
      == set n | n in in0.nodes && n.id != src && |IngOf(NetIn(in0), n.id)| > 0 :: n.id;
    assert (set c | c in all && c != d && |IngOf(NetIn(in0), c)| > 0)
      == set n | n in in0.nodes && n.id != d && |IngOf(NetIn(in0), n.id)| > 0 :: n.id;
  }

  // ---------- routes come in both directions ----------

  ghost predicate Chain(n: Net, ns: seq<nat>) {
    forall i :: 0 <= i < |ns| - 1 ==> Joined(n, ns[i], ns[i + 1])
  }

  lemma FirstEdge(n: Net, ns: seq<nat>) returns (e: PrunedEdge)
    requires |ns| > 1 && Chain(n, ns)
    ensures e in Pruned(n) && e.src == ns[0] && e.dst == ns[1] && Chain(n, ns[1..])
  {
    hide Pruned;
    assert Joined(n, ns[0], ns[0 + 1]);
    e :| e in Pruned(n) && e.src == ns[0] && e.dst == ns[1];
    forall i | 0 <= i < |ns[1..]| - 1
      ensures Joined(n, ns[1..][i], ns[1..][i + 1])
    {
      assert Joined(n, ns[i + 1], ns[i + 1 + 1]);
    }
  }

  lemma StayWalk(a: Arcs, src: nat)
    ensures IsWalk(a, Expand(src, []))
  {
  }

  // A chain of joined nodes can be walked in the split graph.
  lemma {:induction false} ChainRoute(n: Net, a: Arcs, ns: seq<nat>) returns (hops: seq<Hop>)
    requires IsSplit(Pruned(n), a) && |ns| > 0 && Chain(n, ns)
    ensures |hops| == |ns| - 1 && forall i :: 0 <= i < |hops| ==> hops[i].node == ns[i + 1]
    ensures IsWalk(a, Expand(ns[0], hops))
    decreases |ns|
  {
    hide IsSplit, Pruned, Chain, Expand, IsWalk;
    if |ns| == 1 {
      hops := [];
      StayWalk(a, ns[0]);
    } else {
      var e := FirstEdge(n, ns);
      var rest := ChainRoute(n, a, ns[1..]);
      hops := [Hop(ns[1], e.ingress)] + rest;
      assert hops[1..] == rest;
      WalkGrows(Pruned(n), a, e, rest);
    }
  }

  lemma WalkGrows(es: seq<PrunedEdge>, a: Arcs, e: PrunedEdge, rest: seq<Hop>)
    requires IsSplit(es, a) && e in es && IsWalk(a, Expand(e.dst, rest))
    ensures IsWalk(a, Expand(e.src, [Hop(e.dst, e.ingress)] + rest))
  {
    var q := Expand(e.dst, rest);
    var hops := [Hop(e.dst, e.ingress)] + rest;
    assert hops[1..] == rest;
    var p := Expand(e.src, hops);
    assert p == [Core(e.src), Ing(e.dst, e.ingress)] + q;
    ExpandNodes(e.dst, rest);
    forall i | 0 <= i < |p| - 1
      ensures Link(p[i], p[i + 1]) in a
    {
      if i == 0 {
        assert Link(p[0], p[1]) == Cross(e);
      } else if i == 1 {
        assert Link(p[1], p[2]) == Inner(e);
      } else {
        assert Link(q[i - 2], q[i - 2 + 1]) in a;
      }
    }
  }

  // No two hops share a node, and none comes back to the source.
  ghost predicate Apart(src: nat, hops: seq<Hop>) {
    && (forall i :: 0 <= i < |hops| ==> hops[i].node != src)
    && forall i, j :: 0 <= i < j < |hops| ==> hops[i].node != hops[j].node
  }

  lemma {:induction false} ExpandMembers(src: nat, hops: seq<Hop>, v: Vertex)
    requires v in Expand(src, hops)
    ensures v == Core(src) || exists i :: 0 <= i < |hops| && hops[i].node == v.node
    ensures v.Ing? ==> exists i :: 0 <= i < |hops| && hops[i].node == v.node
    decreases |hops|
  {
    if hops != [] {
      var q := Expand(hops[0].node, hops[1..]);
      if v in q {
        ExpandMembers(hops[0].node, hops[1..], v);
        if i :| 0 <= i < |hops[1..]| && hops[1..][i].node == v.node {
          assert hops[i + 1].node == v.node;
        }
      } else {
        assert hops[0].node == hops[0].node;
      }
    }
  }

  lemma {:induction false} ExpandDistinct(src: nat, hops: seq<Hop>)
    requires Apart(src, hops)
    ensures Distinct(Expand(src, hops))
    decreases |hops|
  {
    if hops != [] {
      var q := Expand(hops[0].node, hops[1..]);
      assert Apart(hops[0].node, hops[1..]);
      ExpandDistinct(hops[0].node, hops[1..]);
      forall v | v in q
        ensures v != Core(src) && v != Ing(hops[0].node, hops[0].ingress)
      {
        ExpandMembers(hops[0].node, hops[1..], v);
      }
      DistinctFront(Core(src), Ing(hops[0].node, hops[0].ingress), q);
    }
  }

  lemma DistinctFront(u: Vertex, v: Vertex, q: Path)
    requires u != v && u !in q && v !in q && Distinct(q)
    ensures Distinct([u, v] + q)
  {
    assert forall i :: 0 <= i < |q| ==> q[i] in q;
  }

  // Distinct nodes give a simple path.
  lemma ChainPath(n: Net, a: Arcs, ns: seq<nat>) returns (p: Path)
    requires IsSplit(Pruned(n), a) && |ns| > 0 && Chain(n, ns) && Distinct(ns)
    ensures SimplePath(a, Core(ns[0]), Core(ns[|ns| - 1]), p)
  {
    hide IsSplit, IsWalk, Chain;
    var hops := ChainRoute(n, a, ns);
    p := Expand(ns[0], hops);
    ExpandNodes(ns[0], hops);
    assert Apart(ns[0], hops);
    ExpandDistinct(ns[0], hops);
    if |hops| > 0 {
      assert p[2 * (|hops| - 1) + 2] == Core(hops[|hops| - 1].node);
    }
  }

  lemma FollowsJoined(n: Net, a: nat, hops: seq<Hop>, i: nat)
    requires Follows(Pruned(n), a, hops) && i < |hops|
    ensures Joined(n, NodeAt(a, hops, i), NodeAt(a, hops, i + 1))
  {
    FollowsStep(Pruned(n), a, hops, i);
  }

  // The nodes of a realisable route, source first, are a chain of distinct nodes.
  lemma RouteChain(n: Net, a: nat, b: nat, hops: seq<Hop>) returns (ns: seq<nat>)
    requires Realisable(Pruned(n), a, b, hops)
    ensures |ns| > 0 && ns[0] == a && ns[|ns| - 1] == b && Chain(n, ns) && Distinct(ns)
  {
    hide Follows, Joined, Pruned;
    ns := seq(|hops| + 1, i requires 0 <= i <= |hops| => NodeAt(a, hops, i));
    assert Follows(Pruned(n), a, hops);
    forall i | 0 <= i < |ns| - 1
      ensures Joined(n, ns[i], ns[i + 1])
    {
      FollowsJoined(n, a, hops, i);
    }
  }

  lemma ChainReverses(n: Net, ns: seq<nat>)
    requires Valid(n) && AllReachable(n) && Chain(n, ns) && Distinct(ns)
    ensures Chain(n, Reverse(ns)) && Distinct(Reverse(ns))
  {
    var rs := Reverse(ns);
    forall i | 0 <= i < |rs| - 1
      ensures Joined(n, rs[i], rs[i + 1])
    {
      var j := |ns| - 2 - i;
      assert Joined(n, ns[j], ns[j + 1]);
      PrunedSymmetric(n, ns[j], ns[j + 1]);
    }
  }

  lemma PathReverses(in0: Input, a: nat, b: nat, p: Path) returns (q: Path)
    requires NodesOk(in0.nodes) && SimplePath(ArcsIn(in0), Core(a), Core(b), p) && a != b
    ensures SimplePath(ArcsIn(in0), Core(b), Core(a), q)
  {
    NetOk(in0.nodes, in0.quality, in0.maxPeers, in0.ingressK);
    GraphInOk(in0);
    hide NodesOk, IsSplit, SimplePath, Valid, AllReachable, Chain, Realisable;
    PathsAreRealisable(EdgesIn(in0), ArcsIn(in0), a, b, p);
    var ns := RouteChain(NetIn(in0), a, b, Compress(p));
    ChainReverses(NetIn(in0), ns);
    q := ChainPath(NetIn(in0), ArcsIn(in0), Reverse(ns));
  }

  // A list of K shortest paths is empty only when there is no path to list.
  lemma NonemptyList(a: Arcs, src: Vertex, dst: Vertex, k: int, r: seq<Path>, p: Path)
    requires IsKShortest(a, src, dst, k, r) && SimplePath(a, src, dst, p) && k > 0
    ensures r != []
  {
    assert p !in r ==> Beaten(a, k, r, p);
  }

  // (A, B) has a baseline route if and only if (B, A) has one.
  lemma BaselineSymmetric(in0: Input, a: nat, b: nat)
    requires InputOk(in0)
    ensures RoutePair(a, b) in BaselineIn(in0) <==> RoutePair(b, a) in BaselineIn(in0)
  {
    if RoutePair(a, b) in BaselineIn(in0) {
      BaselineReverses(in0, a, b);
    }
    if RoutePair(b, a) in BaselineIn(in0) {
      BaselineReverses(in0, b, a);
    }
  }

  lemma BaselineReverses(in0: Input, a: nat, b: nat)
    requires InputOk(in0) && RoutePair(a, b) in BaselineIn(in0)
    ensures RoutePair(b, a) in BaselineIn(in0)
  {
    hide PathsFor, ArcsIn, NodesOk, SimplePath;
    PathsForValid(in0, a, b);
    PathsForValid(in0, b, a);
    var ps := PathsFor(in0, a, b);
    assert SimplePath(ArcsIn(in0), Core(a), Core(b), ps[0]);
    var q := PathReverses(in0, a, b, ps[0]);
    NonemptyList(ArcsIn(in0), Core(b), Core(a), in0.routeK, PathsFor(in0, b, a), q);
    assert RoutePair(b, a) in Connected(in0);
  }

  // ---------- the program ----------

  method BaselineRoutes(in0: Input, es: seq<PrunedEdge>, transits: seq<nat>) returns (out: Baseline)
    requires InputOk(in0) && es == EdgesIn(in0) && transits == SortedKeys(TransitsIn(in0))
    ensures out == BaselineIn(in0)
  {
    GraphInOk(in0);
    var g := BuildSplitGraph(es);
    hide Connected, PathsFor, CompressAll, InputOk;
    out := map[];
    for i := 0 to |transits|
      invariant forall p :: p in out <==> p in Connected(in0) && p.src in transits[..i]
      invariant forall p :: p in out ==> out[p] == CompressAll(PathsFor(in0, p.src, p.dst))
    {
      assert transits[..i + 1] == transits[..i] + [transits[i]];
      out := RoutesFrom(in0, g, transits, transits[i], out);
    }
    assert transits[..|transits|] == transits;
    forall p | p in Connected(in0)
      ensures p.src in transits
    {
      ConnectedEnds(in0, p);
    }
    BaselineAssembled(in0, out);
  }

  lemma BaselineAssembled(in0: Input, out: Baseline)
    requires forall p :: p in out <==> p in Connected(in0)
    requires forall p :: p in out ==> out[p] == CompressAll(PathsFor(in0, p.src, p.dst))
    ensures out == BaselineIn(in0)
  {
    hide Connected, PathsFor, CompressAll;
  }

  lemma ConnectedEnds(in0: Input, p: RoutePair)
    requires p in Connected(in0)
    ensures p.src in TransitsIn(in0) && p.dst in TransitsIn(in0) && p.src != p.dst
  {
  }

  // The routes from one transit to all others.
  method RoutesFrom(in0: Input, g: Graph, transits: seq<nat>, a: nat, out0: Baseline) returns (out: Baseline)
    requires InputOk(in0) && g == GraphIn(in0) && transits == SortedKeys(TransitsIn(in0)) && a in transits
    requires forall p :: p in out0 ==> p in Connected(in0) && out0[p] == CompressAll(PathsFor(in0, p.src, p.dst))
    ensures forall p :: p in out <==> p in out0 || (p in Connected(in0) && p.src == a)
    ensures forall p :: p in out ==> out[p] == CompressAll(PathsFor(in0, p.src, p.dst))
  {
    out := out0;
    for j := 0 to |transits|
      invariant forall p :: p in out <==> p in out0 || (p in Connected(in0) && p.src == a && p.dst in transits[..j])
      invariant forall p :: p in out ==> out[p] == CompressAll(PathsFor(in0, p.src, p.dst))
    {
      var b := transits[j];
      assert transits[..j + 1] == transits[..j] + [b];
      if a == b {
        continue;
      }
      var hopSeqs := PairRoutes(in0, g, a, b);
      ConnectedIff(in0, a, b);
      if |hopSeqs| == 0 {
        continue;
      }
      out := out[RoutePair(a, b) := hopSeqs];
    }
    assert transits[..|transits|] == transits;
  }

  lemma ConnectedIff(in0: Input, a: nat, b: nat)
    requires a in TransitsIn(in0) && b in TransitsIn(in0) && a != b
    ensures RoutePair(a, b) in Connected(in0) <==> PathsFor(in0, a, b) != []
  {
  }

  method PairRoutes(in0: Input, g: Graph, a: nat, b: nat) returns (hopSeqs: seq<seq<Hop>>)
    requires InputOk(in0) && g == GraphIn(in0) && a != b
    ensures hopSeqs == CompressAll(PathsFor(in0, a, b))
  {
    hide NodesOk, GraphIn, SplitGraphOf, Compress, KPaths, IsKShortest, IsSplit, Safe;
    GraphInOk(in0);
    var paths := KShortestPaths(g, Core(a), Core(b), in0.routeK);
    hopSeqs := [];
    for i := 0 to |paths|
      invariant |hopSeqs| == i && forall j :: 0 <= j < i ==> hopSeqs[j] == Compress(paths[j])
    {
      var hops := CompressPath(paths[i]);
      hopSeqs := hopSeqs + [hops];
    }
  }

  // Give every transit an entry.
  method FillTransits(built: map<nat, seq<NeighborSpec>>, transits: seq<nat>) returns (neighbors: map<nat, seq<NeighborSpec>>)
    ensures forall v :: v in neighbors <==> v in built || v in transits
    ensures forall v :: v in neighbors ==> neighbors[v] == if v in built then built[v] else []
  {
    neighbors := built;
    for i := 0 to |transits|
      invariant forall v :: v in neighbors <==> v in built || v in transits[..i]
      invariant forall v :: v in neighbors ==> neighbors[v] == if v in built then built[v] else []
    {
      assert transits[..i + 1] == transits[..i] + [transits[i]];
      if transits[i] !in neighbors {
        neighbors := neighbors[transits[i] := []];
      }
    }
    assert transits[..|transits|] == transits;
  }

  method LeafUplinks(n: Net, leaves: seq<nat>, limit: int) returns (specs: map<nat, seq<NeighborSpec>>)
    ensures forall v :: v in specs <==> v in leaves
    ensures forall v :: v in specs ==> specs[v] == LeafSpecs(n, v, Limit(limit))
  {
    hide LeafSpecs, Limit;
    var leafUplinks := AssignLeafUplinks(n, leaves, limit);
    specs := map l | l in leaves :: if l in leafUplinks then leafUplinks[l] else [];
  }

  // Give every leaf its uplinks, or an empty list.
  method FillLeaves(n: Net, neighbors0: map<nat, seq<NeighborSpec>>, leaves: seq<nat>, limit: int)
    returns (neighbors: map<nat, seq<NeighborSpec>>)
    ensures forall v :: v in neighbors <==> v in neighbors0 || v in leaves
    ensures forall v :: v in neighbors ==>
      neighbors[v] == if v in leaves then LeafSpecs(n, v, Limit(limit)) else neighbors0[v]
  {
    hide LeafSpecs, Limit;
    var specs := LeafUplinks(n, leaves, limit);
    neighbors := neighbors0;
    ghost var done: set<nat> := {};
    for i := 0 to |leaves|
      invariant forall v :: v in done <==> v in leaves[..i]
      invariant forall v :: v in neighbors <==> v in neighbors0 || v in done
      invariant forall v :: v in neighbors ==> neighbors[v] == if v in done then specs[v] else neighbors0[v]
    {
      assert leaves[..i + 1] == leaves[..i] + [leaves[i]];
      neighbors := neighbors[leaves[i] := specs[leaves[i]]];
      done := done + {leaves[i]};
    }
    assert leaves[..|leaves|] == leaves;
  }

  method AllNeighbors(in0: Input, n: Net, es: seq<PrunedEdge>, transits: seq<nat>, leaves: seq<nat>)
    returns (neighbors: map<nat, seq<NeighborSpec>>)
    requires NodesOk(in0.nodes) && n == NetIn(in0) && es == EdgesIn(in0)
    requires transits == SortedKeys(TransitSet(in0.nodes)) && leaves == SortedKeys(LeafSet(in0.nodes))
    ensures neighbors == NeighborsIn(in0)
  {
    var built := BuildNeighbors(es);
    neighbors := FillTransits(built, transits);
    neighbors := FillLeaves(n, neighbors, leaves, in0.leafUplinks);
    NeighborsAssembled(in0, neighbors);
  }

  lemma NeighborsAssembled(in0: Input, neighbors: map<nat, seq<NeighborSpec>>)
    requires NodesOk(in0.nodes)
    requires var built := NeighborsOf(EdgesIn(in0));
      && (forall v :: v in neighbors <==> v in built || v in TransitSet(in0.nodes) || v in LeafSet(in0.nodes))
      && forall v :: v in neighbors ==>
           neighbors[v] == if v in LeafSet(in0.nodes) then LeafSpecs(NetIn(in0), v, Limit(in0.leafUplinks))
                           else if v in built then built[v] else []
    ensures neighbors == NeighborsIn(in0)
  {
    hide LeafSpecs, NeighborsOf, TransitSet, LeafSet, NetIn, EdgesIn, NodesOk;
    forall v | v in NeighborsOf(EdgesIn(in0))
      ensures v in TransitSet(in0.nodes)
    {
      SourcesAreTransits(in0, v);
    }
  }

  lemma SourcesAreTransits(in0: Input, v: nat)
    requires v in NeighborsOf(EdgesIn(in0))
    ensures v in TransitSet(in0.nodes)
  {
    var e :| e in EdgesIn(in0) && e.src == v;
    assert Kept(NetIn(in0), e);
  }

  method RolesFor(in0: Input, transits: seq<nat>, leaves: seq<nat>) returns (roles: map<nat, Role>)
    requires NodesOk(in0.nodes)
    requires transits == SortedKeys(TransitSet(in0.nodes)) && leaves == SortedKeys(LeafSet(in0.nodes))
    ensures roles == RolesOf(in0)
  {
    roles := map[];
    for i := 0 to |transits|
      invariant forall v :: v in roles <==> v in transits[..i]
      invariant forall v :: v in roles ==> roles[v] == Transit
    {
      assert transits[..i + 1] == transits[..i] + [transits[i]];
      roles := roles[transits[i] := Transit];
    }
    assert transits[..|transits|] == transits;
    for i := 0 to |leaves|
      invariant forall v :: v in roles <==> v in transits || v in leaves[..i]
      invariant forall v :: v in roles ==> roles[v] == if v in leaves[..i] then Leaf else Transit
    {
      assert leaves[..i + 1] == leaves[..i] + [leaves[i]];
      roles := roles[leaves[i] := Leaf];
    }
    assert leaves[..|leaves|] == leaves;
    forall v | v in TransitSet(in0.nodes)
      ensures v !in LeafSet(in0.nodes)
    {
      NotLeaf(in0, v);
    }
  }

  method Probes(in0: Input, n: Net) returns (probeSets: map<nat, seq<ProbeTarget>>)
    requires NodesOk(in0.nodes) && n == NetIn(in0)
    ensures probeSets == ProbesIn(in0)
  {
    var ids := set m | m in in0.nodes :: m.id;
    var allNodeIDs := KeysInOrder(ids);
    probeSets := BuildProbeSets(n, allNodeIDs, in0.probeFull, in0.probeLimit);
  }

  method Optimize(in0: Input) returns (res: Result)
    requires InputOk(in0)
    ensures res == OptimizeOf(in0)
  {
    var ingressesByNode := BuildIngressIndex(in0.nodes);
    var transits, leaves := ClassifyNodes(in0.nodes);
    var n := Net(transits, in0.quality, ingressesByNode, in0.maxPeers, in0.ingressK);
    NetOk(in0.nodes, in0.quality, in0.maxPeers, in0.ingressK);
    var es := PruneEdges(n);
    var neighbors := AllNeighbors(in0, n, es, transits, leaves);
    var baseline := BaselineRoutes(in0, es, transits);
    var roles := RolesFor(in0, transits, leaves);
    var probeSets := Probes(in0, n);
    res := Result(in0.version, roles, neighbors, baseline, probeSets);
  }
}
