// Roles, neighbours, uplinks and probe sets (internal/controller/topology/assign.go and
// eligibility.go).
module Assign {
  import opened Paths
  import opened Sorting
  import opened SplitGraph
  import opened Prune

  datatype IngressMeta = IngressMeta(id: nat, confidence: nat, reachable: bool)

  datatype NodeInput = NodeInput(id: nat, ingresses: seq<IngressMeta>)

  datatype NeighborSpec = NeighborSpec(node: nat, ingresses: seq<nat>)

  datatype ProbeTarget = ProbeTarget(node: nat, ingresses: seq<nat>)

  const MIN_CONFIDENCE := 60

  const DEFAULT_LEAF_UPLINKS := 2

  // ---------- sorted sets ----------

  predicate Less(x: nat, y: nat) {
    x < y
  }

  ghost predicate Lists(q: seq<nat>, s: set<nat>) {
    Sorted(q, Less) && forall x :: x in q <==> x in s
  }

  lemma ListExists(s: set<nat>)
    ensures exists q :: Lists(q, s)
  {
    var q := SeqOfSet(s);
    assert WeakOrder(Less);
    SortSorts(q, Less);
    SortElements(q, Less);
    assert Lists(Sort(q, Less), s);
  }

  // The elements of a set in increasing order.
  ghost function SortedKeys(s: set<nat>): (q: seq<nat>)
    ensures Lists(q, s)
  {
    ListExists(s);
    var q :| Lists(q, s);
    q
  }

  lemma ListUnique(q: seq<nat>, s: set<nat>)
    requires Lists(q, s)
    ensures q == SortedKeys(s)
  {
    assert WeakOrder(Less);
    SortedUnique(q, SortedKeys(s), Less);
  }

  lemma DistinctSnoc<T>(q: seq<T>, x: T)
    requires Distinct(q) && x !in q
    ensures Distinct(q + [x])
  {
    assert forall i :: 0 <= i < |q| ==> q[i] in q;
  }

  // Collect the keys in any order, then sort.
  method KeysInOrder(s: set<nat>) returns (q: seq<nat>)
    ensures q == SortedKeys(s)
  {
    q := [];
    var todo := s;
    while todo != {}
      invariant todo <= s && Distinct(q) && forall x :: x in q <==> x in s - todo
      decreases todo
    {
      var x :| x in todo;
      DistinctSnoc(q, x);
      q := q + [x];
      todo := todo - {x};
    }
    ghost var collected := q;
    q := Sort(q, Less);
    assert WeakOrder(Less);
    SortSorts(collected, Less);
    SortElements(collected, Less);
    ListUnique(q, s);
  }

  // ---------- eligibility ----------

  // Some ingress is reachable with enough confidence.
  predicate Eligible(ings: seq<IngressMeta>) {
    exists m :: m in ings && m.reachable && m.confidence >= MIN_CONFIDENCE
  }

  ghost function ReachableIds(ings: seq<IngressMeta>): set<nat> {
    set m | m in ings && m.reachable :: m.id
  }

  ghost function TransitSet(nodes: seq<NodeInput>): set<nat> {
    set n | n in nodes && Eligible(n.ingresses) :: n.id
  }

  ghost function LeafSet(nodes: seq<NodeInput>): set<nat> {
    set n | n in nodes && !Eligible(n.ingresses) :: n.id
  }

  ghost function Index(nodes: seq<NodeInput>): map<nat, seq<nat>> {
    if nodes == [] then map[]
    else
      var n := nodes[|nodes| - 1];
      Index(nodes[..|nodes| - 1])[n.id := SortedKeys(ReachableIds(n.ingresses))]
  }

  ghost predicate NodesOk(nodes: seq<NodeInput>) {
    && (forall i, j :: 0 <= i < j < |nodes| ==> nodes[i].id != nodes[j].id)
    && forall n :: n in nodes ==> forall i, j :: 0 <= i < j < |n.ingresses| ==> n.ingresses[i].id != n.ingresses[j].id
  }

  method ReachableIngressIDs(ings: seq<IngressMeta>) returns (ids: seq<nat>)
    requires forall i, j :: 0 <= i < j < |ings| ==> ings[i].id != ings[j].id
    ensures ids == SortedKeys(ReachableIds(ings))
  {
    ids := [];
    for i := 0 to |ings|
      invariant Distinct(ids) && forall x :: x in ids <==> x in ReachableIds(ings[..i])
    {
      assert ings[..i + 1] == ings[..i] + [ings[i]];
      if ings[i].reachable {
        forall m | m in ings[..i]
          ensures m.id != ings[i].id
        {
        }
        DistinctSnoc(ids, ings[i].id);
        ids := ids + [ings[i].id];
      }
    }
    assert ings[..|ings|] == ings;
    ghost var collected := ids;
    ids := Sort(ids, Less);
    assert WeakOrder(Less);
    SortSorts(collected, Less);
    SortElements(collected, Less);
    ListUnique(ids, ReachableIds(ings));
  }

  method BuildIngressIndex(nodes: seq<NodeInput>) returns (idx: map<nat, seq<nat>>)
    requires NodesOk(nodes)
    ensures idx == Index(nodes)
  {
    idx := map[];
    for i := 0 to |nodes|
      invariant idx == Index(nodes[..i])
    {
      assert nodes[..i + 1][..i] == nodes[..i];
      assert nodes[i] in nodes;
      var ids := ReachableIngressIDs(nodes[i].ingresses);
      idx := idx[nodes[i].id := ids];
    }
    assert nodes[..|nodes|] == nodes;
  }

  method ClassifyNodes(nodes: seq<NodeInput>) returns (transits: seq<nat>, leaves: seq<nat>)
    requires NodesOk(nodes)
    ensures transits == SortedKeys(TransitSet(nodes)) && leaves == SortedKeys(LeafSet(nodes))
  {
    transits, leaves := [], [];
    for i := 0 to |nodes|
      invariant Distinct(transits) && forall x :: x in transits <==> x in TransitSet(nodes[..i])
      invariant Distinct(leaves) && forall x :: x in leaves <==> x in LeafSet(nodes[..i])
    {
      var n := nodes[i];
      assert nodes[..i + 1] == nodes[..i] + [n];
      forall m | m in nodes[..i]
        ensures m.id != n.id
      {
      }
      if Eligible(n.ingresses) {
        DistinctSnoc(transits, n.id);
        transits := transits + [n.id];
      } else {
        DistinctSnoc(leaves, n.id);
        leaves := leaves + [n.id];
      }
    }
    assert nodes[..|nodes|] == nodes;
    assert WeakOrder(Less);
    SortSorts(transits, Less);
    SortElements(transits, Less);
    SortSorts(leaves, Less);
    SortElements(leaves, Less);
    transits, leaves := Sort(transits, Less), Sort(leaves, Less);
    ListUnique(transits, TransitSet(nodes));
    ListUnique(leaves, LeafSet(nodes));
  }

  lemma {:induction false} IndexHas(nodes: seq<NodeInput>, n: NodeInput)
    requires NodesOk(nodes) && n in nodes
    ensures n.id in Index(nodes) && Index(nodes)[n.id] == SortedKeys(ReachableIds(n.ingresses))
  {
    var last := |nodes| - 1;
    if n != nodes[last] {
      assert n in nodes[..last];
      assert NodesOk(nodes[..last]);
      IndexHas(nodes[..last], n);
    }
  }

  // The index maps a node to exactly its reachable ingresses, whatever their confidence.
  lemma IndexIs(nodes: seq<NodeInput>, n: NodeInput, e: nat)
    requires NodesOk(nodes) && n in nodes
    ensures n.id in Index(nodes)
    ensures e in Index(nodes)[n.id] <==> exists i :: 0 <= i < |n.ingresses| && n.ingresses[i].reachable && n.ingresses[i].id == e
  {
    IndexHas(nodes, n);
    if e in ReachableIds(n.ingresses) {
      var m :| m in n.ingresses && m.reachable && m.id == e;
      var i :| 0 <= i < |n.ingresses| && n.ingresses[i] == m;
    }
    if i :| 0 <= i < |n.ingresses| && n.ingresses[i].reachable && n.ingresses[i].id == e {
      assert n.ingresses[i] in n.ingresses;
    }
  }

  lemma {:induction false} IndexDistinct(nodes: seq<NodeInput>)
    ensures forall v :: v in Index(nodes) ==> Distinct(Index(nodes)[v])
  {
    if nodes != [] {
      IndexDistinct(nodes[..|nodes| - 1]);
      var n := nodes[|nodes| - 1];
      var q := SortedKeys(ReachableIds(n.ingresses));
      assert Sorted(q, Less);
    }
  }

  // The pruning problem of a set of nodes; it meets the demands of Prune, and every transit
  // has a reachable ingress.
  ghost function NetOf(nodes: seq<NodeInput>, qm: Quality, maxPeers: int, ingressK: int): Net {
    Net(SortedKeys(TransitSet(nodes)), qm, Index(nodes), maxPeers, ingressK)
  }

  lemma NetOk(nodes: seq<NodeInput>, qm: Quality, maxPeers: int, ingressK: int)
    requires NodesOk(nodes)
    ensures var n := NetOf(nodes, qm, maxPeers, ingressK); Valid(n) && AllReachable(n)
  {
    var n := NetOf(nodes, qm, maxPeers, ingressK);
    assert Sorted(n.transits, Less);
    IndexDistinct(nodes);
    forall a | a in n.transits
      ensures |IngOf(n, a)| > 0
    {
      var m :| m in nodes && Eligible(m.ingresses) && m.id == a;
      IndexHas(nodes, m);
      var i :| i in m.ingresses && i.reachable && i.confidence >= MIN_CONFIDENCE;
      assert i.id in ReachableIds(m.ingresses);
    }
  }

  // ---------- neighbours of transits ----------

  ghost function Dsts(es: seq<PrunedEdge>, src: nat): set<nat> {
    set e | e in es && e.src == src :: e.dst
  }

  ghost function IngressesUsed(es: seq<PrunedEdge>, src: nat, dst: nat): set<nat> {
    set e | e in es && e.src == src && e.dst == dst :: e.ingress
  }

  ghost function SpecOf(es: seq<PrunedEdge>, src: nat, dst: nat): NeighborSpec {
    NeighborSpec(dst, SortedKeys(IngressesUsed(es, src, dst)))
  }

  ghost function Specs(es: seq<PrunedEdge>, src: nat): (s: seq<NeighborSpec>)
    ensures |s| == |SortedKeys(Dsts(es, src))|
    ensures forall i :: 0 <= i < |s| ==> s[i] == SpecOf(es, src, SortedKeys(Dsts(es, src))[i])
  {
    seq(|SortedKeys(Dsts(es, src))|, i requires 0 <= i < |SortedKeys(Dsts(es, src))| =>
      SpecOf(es, src, SortedKeys(Dsts(es, src))[i]))
  }

  ghost function NeighborsOf(es: seq<PrunedEdge>): map<nat, seq<NeighborSpec>> {
    map src | src in (set e | e in es :: e.src) :: Specs(es, src)
  }

  // The neighbour list offers the ingress of the node.
  ghost predicate Offers(specs: seq<NeighborSpec>, node: nat, ingress: nat) {
    exists s :: s in specs && s.node == node && ingress in s.ingresses
  }

  // A neighbour list offers exactly the ingresses of the pruned edges.
  lemma NeighborsOffer(es: seq<PrunedEdge>, src: nat, node: nat, ingress: nat)
    ensures (exists e :: e in es && e.src == src && e.dst == node && e.ingress == ingress) <==>
      (src in NeighborsOf(es) && Offers(NeighborsOf(es)[src], node, ingress))
  {
    var q := SortedKeys(Dsts(es, src));
    if e :| e in es && e.src == src && e.dst == node && e.ingress == ingress {
      assert node in Dsts(es, src) && ingress in IngressesUsed(es, src, node);
      var i :| 0 <= i < |q| && q[i] == node;
      assert Specs(es, src)[i] == SpecOf(es, src, node);
    }
    if src in NeighborsOf(es) && Offers(NeighborsOf(es)[src], node, ingress) {
      var s :| s in Specs(es, src) && s.node == node && ingress in s.ingresses;
      var i :| 0 <= i < |q| && Specs(es, src)[i] == s;
      assert ingress in IngressesUsed(es, src, node);
    }
  }

  type Grouped = map<nat, map<nat, set<nat>>>

  ghost predicate Groups(es: seq<PrunedEdge>, agg: Grouped) {
    && agg.Keys == (set e | e in es :: e.src)
    && forall s :: s in agg ==>
         && agg[s].Keys == Dsts(es, s)
         && forall d :: d in agg[s] ==> agg[s][d] == IngressesUsed(es, s, d)
  }

  method BuildNeighbors(es: seq<PrunedEdge>) returns (out: map<nat, seq<NeighborSpec>>)
    ensures out == NeighborsOf(es)
  {
    var agg := GroupEdges(es);
    out := map[];
    var todo := agg.Keys;
    while todo != {}
      invariant todo <= agg.Keys && out.Keys == agg.Keys - todo
      invariant forall s :: s in out ==> out[s] == Specs(es, s)
      decreases todo
    {
      var src :| src in todo;
      var specs := SpecsFrom(es, src, agg[src]);
      out := out[src := specs];
      todo := todo - {src};
    }
  }

  method GroupEdges(es: seq<PrunedEdge>) returns (agg: Grouped)
    ensures Groups(es, agg)
  {
    agg := map[];
    for i := 0 to |es|
      invariant Groups(es[..i], agg)
    {
      var e := es[i];
      ghost var before := agg;
      var byDst: map<nat, set<nat>> := if e.src in agg then agg[e.src] else map[];
      var ings: set<nat> := if e.dst in byDst then byDst[e.dst] else {};
      agg := agg[e.src := byDst[e.dst := ings + {e.ingress}]];
      assert es[..i + 1] == es[..i] + [e];
      GroupsStep(es[..i], e, before, agg);
    }
    assert es[..|es|] == es;
  }

  lemma GroupsStep(es: seq<PrunedEdge>, e: PrunedEdge, agg: Grouped, agg1: Grouped)
    requires Groups(es, agg)
    requires var byDst: map<nat, set<nat>> := if e.src in agg then agg[e.src] else map[];
      var ings: set<nat> := if e.dst in byDst then byDst[e.dst] else {};
      agg1 == agg[e.src := byDst[e.dst := ings + {e.ingress}]]
    ensures Groups(es + [e], agg1)
  {
    var more := es + [e];
    forall s | s in agg1
      ensures agg1[s].Keys == Dsts(more, s)
      ensures forall d :: d in agg1[s] ==> agg1[s][d] == IngressesUsed(more, s, d)
    {
      forall d | d in agg1[s]
        ensures agg1[s][d] == IngressesUsed(more, s, d)
      {
        assert forall x :: x in IngressesUsed(more, s, d) <==>
          x in IngressesUsed(es, s, d) || (s == e.src && d == e.dst && x == e.ingress);
        assert d !in Dsts(es, s) ==> IngressesUsed(es, s, d) == {};
      }
    }
  }

  method SpecsFrom(ghost es: seq<PrunedEdge>, ghost src: nat, byDst: map<nat, set<nat>>) returns (specs: seq<NeighborSpec>)
    requires byDst.Keys == Dsts(es, src)
    requires forall d :: d in byDst ==> byDst[d] == IngressesUsed(es, src, d)
    ensures specs == Specs(es, src)
  {
    var dsts := KeysInOrder(byDst.Keys);
    specs := [];
    for i := 0 to |dsts|
      invariant |specs| == i && forall j :: 0 <= j < i ==> specs[j] == SpecOf(es, src, dsts[j])
    {
      assert dsts[i] in byDst.Keys;
      var ings := KeysInOrder(byDst[dsts[i]]);
      specs := specs + [NeighborSpec(dsts[i], ings)];
    }
  }
}
