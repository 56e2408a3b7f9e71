// Weighted directed graphs over split vertices, and walks in them.
// A physical node B of the overlay becomes one core vertex (its outgoing side) and one
// vertex per ingress (its incoming side). Identifiers are only ever compared, so a natural
// number stands for an identifier's rank in string order.
module Paths {

  datatype Vertex = Core(node: nat) | Ing(node: nat, ingress: nat)

  // The string order of the vertex encodings: by node, the core vertex first, then by ingress.
  predicate Before(a: Vertex, b: Vertex) {
    a.node < b.node
    || (a.node == b.node && b.Ing? && (a.Core? || (a.Ing? && a.ingress < b.ingress)))
  }

  datatype Edge = Edge(to: Vertex, w: nat)

  // Adjacency lists.
  type Graph = map<Vertex, seq<Edge>>

  // A directed link between two vertices.
  datatype Link = Link(from: Vertex, to: Vertex)

  // The links a graph stands for, with their weights.
  type Arcs = map<Link, nat>

  type Path = seq<Vertex>

  // No parallel edges.
  predicate WellFormed(g: Graph) {
    forall u, i, j :: u in g && 0 <= i < j < |g[u]| ==> g[u][i].to != g[u][j].to
  }

  ghost predicate Represents(g: Graph, a: Arcs) {
    && (forall u, i :: u in g && 0 <= i < |g[u]| ==>
          Link(u, g[u][i].to) in a && a[Link(u, g[u][i].to)] == g[u][i].w)
    && forall l :: l in a ==> l.from in g && exists i :: 0 <= i < |g[l.from]| && g[l.from][i].to == l.to
  }

  lemma ArcsExist(g: Graph)
    requires WellFormed(g)
    ensures exists a :: Represents(g, a)
  {
    var a := map u, i | u in g && 0 <= i < |g[u]| :: Link(u, g[u][i].to) := g[u][i].w;
    assert Represents(g, a);
  }

  ghost function ArcsOf(g: Graph): (a: Arcs)
    requires WellFormed(g)
  {
    ArcsExist(g);
    var a :| Represents(g, a);
    a
  }

  lemma ArcsUnique(g: Graph, a: Arcs, b: Arcs)
    requires Represents(g, a) && Represents(g, b)
    ensures a == b
  {
    forall l | l in a
      ensures l in b && b[l] == a[l]
    {
      var i :| 0 <= i < |g[l.from]| && g[l.from][i].to == l.to;
    }
    forall l | l in b
      ensures l in a
    {
      var i :| 0 <= i < |g[l.from]| && g[l.from][i].to == l.to;
    }
  }

  lemma EdgeIsArc(g: Graph, u: Vertex, i: nat)
    requires WellFormed(g) && u in g && i < |g[u]|
    ensures Link(u, g[u][i].to) in ArcsOf(g) && ArcsOf(g)[Link(u, g[u][i].to)] == g[u][i].w
  {
  }

  lemma ArcIsEdge(g: Graph, u: Vertex, v: Vertex) returns (i: nat)
    requires WellFormed(g) && Link(u, v) in ArcsOf(g)
    ensures u in g && i < |g[u]| && g[u][i] == Edge(v, ArcsOf(g)[Link(u, v)])
  {
    i :| u in g && 0 <= i < |g[u]| && g[u][i].to == v;
    EdgeIsArc(g, u, i);
  }

  // The weight of the edge from u to v; a missing edge weighs nothing.
  function Cost(a: Arcs, u: Vertex, v: Vertex): nat {
    if Link(u, v) in a then a[Link(u, v)] else 0
  }

  ghost predicate IsWalk(a: Arcs, p: Path) {
    |p| > 0 && forall i :: 0 <= i < |p| - 1 ==> Link(p[i], p[i + 1]) in a
  }

  function PathWeight(a: Arcs, p: Path): nat {
    if |p| <= 1 then 0 else Cost(a, p[0], p[1]) + PathWeight(a, p[1..])
  }

  ghost predicate Distinct<T>(s: seq<T>) {
    forall i, j :: 0 <= i < j < |s| ==> s[i] != s[j]
  }

  ghost predicate WalkFromTo(a: Arcs, src: Vertex, dst: Vertex, p: Path) {
    IsWalk(a, p) && p[0] == src && p[|p| - 1] == dst
  }

  ghost predicate SimplePath(a: Arcs, src: Vertex, dst: Vertex, p: Path) {
    WalkFromTo(a, src, dst, p) && Distinct(p)
  }

  // Splitting a path at vertex i splits its weight.
  lemma {:induction false} WeightSplit(a: Arcs, p: Path, i: nat)
    requires i < |p|
    ensures PathWeight(a, p) == PathWeight(a, p[..i + 1]) + PathWeight(a, p[i..])
  {
    if i == 0 {
      assert p[0..] == p;
    } else {
      WeightSplit(a, p[1..], i - 1);
      assert p[..i + 1][1..] == p[1..][..i];
      assert p[1..][i - 1..] == p[i..];
    }
  }

  lemma WeightSnoc(a: Arcs, p: Path, v: Vertex)
    requires |p| > 0
    ensures PathWeight(a, p + [v]) == PathWeight(a, p) + Cost(a, p[|p| - 1], v)
  {
    var q := p + [v];
    WeightSplit(a, q, |p| - 1);
    assert q[..|p|] == p;
    assert q[|p| - 1..] == [p[|p| - 1], v];
    assert q[|p| - 1..][1..] == [v];
  }

  // A prefix never weighs more than the whole.
  lemma PrefixWeighsLess(a: Arcs, p: Path, i: nat)
    requires 0 < i <= |p|
    ensures PathWeight(a, p[..i]) <= PathWeight(a, p)
  {
    WeightSplit(a, p, i - 1);
  }

  // Two arc sets that agree along a path give it the same weight.
  lemma {:induction false} WeightAgrees(a: Arcs, b: Arcs, p: Path)
    requires forall i :: 0 <= i < |p| - 1 ==> Cost(a, p[i], p[i + 1]) == Cost(b, p[i], p[i + 1])
    ensures PathWeight(a, p) == PathWeight(b, p)
  {
    if |p| > 1 {
      assert Cost(a, p[0], p[1]) == Cost(b, p[0], p[1]);
      forall i | 0 <= i < |p[1..]| - 1
        ensures Cost(a, p[1..][i], p[1..][i + 1]) == Cost(b, p[1..][i], p[1..][i + 1])
      {
        assert Cost(a, p[i + 1], p[i + 2]) == Cost(b, p[i + 1], p[i + 2]);
      }
      WeightAgrees(a, b, p[1..]);
    }
  }

  // Arc by arc cheaper means cheaper in total.
  lemma {:induction false} WeightMonotone(a: Arcs, b: Arcs, p: Path)
    requires forall i :: 0 <= i < |p| - 1 ==> Cost(a, p[i], p[i + 1]) <= Cost(b, p[i], p[i + 1])
    ensures PathWeight(a, p) <= PathWeight(b, p)
  {
    if |p| > 1 {
      assert Cost(a, p[0], p[1]) <= Cost(b, p[0], p[1]);
      forall i | 0 <= i < |p[1..]| - 1
        ensures Cost(a, p[1..][i], p[1..][i + 1]) <= Cost(b, p[1..][i], p[1..][i + 1])
      {
        assert Cost(a, p[i + 1], p[i + 2]) <= Cost(b, p[i + 1], p[i + 2]);
      }
      WeightMonotone(a, b, p[1..]);
    }
  }

  // ---------- the unreachable sentinel ----------

  const MAX_W: nat := 0x8000_0000_0000_0000

  // No simple path reaches the sentinel weight.
  ghost predicate Safe(a: Arcs) {
    forall p {:trigger IsWalk(a, p), Distinct(p)} :: IsWalk(a, p) && Distinct(p) ==> PathWeight(a, p) < MAX_W
  }

  // The largest edge weight the quality reports can produce: both report fields are 32 bits
  // wide and a permille of loss costs 10.
  const MAX_SAMPLE: nat := 0xFFFF_FFFF + 0xFFFF_FFFF * 10

  ghost function Vertices(a: Arcs): set<Vertex> {
    (set e | e in a :: e.from) + (set e | e in a :: e.to)
  }

  lemma {:induction false} WeightBounded(a: Arcs, p: Path, b: nat)
    requires |p| > 0
    requires forall e :: e in a ==> a[e] <= b
    ensures PathWeight(a, p) <= (|p| - 1) * b
  {
    if |p| > 1 {
      WeightBounded(a, p[1..], b);
      assert (|p| - 1) * b == (|p| - 2) * b + b;
    }
  }

  lemma {:induction false} DistinctFits<T>(s: seq<T>, bag: set<T>)
    requires Distinct(s)
    requires forall x :: x in s ==> x in bag
    ensures |s| <= |bag|
  {
    if |s| > 0 {
      var n := |s| - 1;
      forall x | x in s[..n]
        ensures x in bag - {s[n]}
      {
      }
      DistinctFits(s[..n], bag - {s[n]});
    }
  }

  lemma {:induction false} SubsetSize<T>(a: set<T>, b: set<T>)
    requires a <= b
    ensures |a| <= |b|
  {
    if a != {} {
      var x :| x in a;
      SubsetSize(a - {x}, b - {x});
    }
  }

  lemma ProperSubsetSize<T>(a: set<T>, b: set<T>)
    requires a < b
    ensures |a| < |b|
  {
    assert !(b <= a);
    var x :| x in b && x !in a;
    SubsetSize(a, b - {x});
  }

  // Sampled weights on at most 2^27 vertices never reach the sentinel.
  lemma SampledWeightsAreSafe(a: Arcs)
    requires |Vertices(a)| <= 0x800_0000
    requires forall e :: e in a ==> a[e] <= MAX_SAMPLE
    ensures Safe(a)
  {
    forall p | IsWalk(a, p) && Distinct(p)
      ensures PathWeight(a, p) < MAX_W
    {
      if |p| > 1 {
        forall x | x in p
          ensures x in Vertices(a)
        {
          var i :| 0 <= i < |p| && p[i] == x;
          if i + 1 < |p| {
            assert Link(p[i], p[i + 1]) in a;
          } else {
            assert Link(p[i - 1], p[i - 1 + 1]) in a;
          }
        }
        DistinctFits(p, Vertices(a));
        WeightBounded(a, p, MAX_SAMPLE);
        assert (|p| - 1) * MAX_SAMPLE <= 0x800_0000 * MAX_SAMPLE;
      }
    }
  }
}
