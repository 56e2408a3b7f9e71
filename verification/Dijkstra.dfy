// Single-pair shortest paths with masked vertices and edges, by Dijkstra's algorithm with
// lazy deletion (internal/controller/topology/kpaths.go).
module Dijkstra {
  import opened Paths

  // The outcome of a search.
  datatype Found = NotFound | Found(path: Path, w: nat)

  // An entry of the priority queue.
  datatype Item = Item(dist: nat, v: Vertex)

  predicate ItemLeq(a: Item, b: Item) {
    a.dist < b.dist || (a.dist == b.dist && (a.v == b.v || Before(a.v, b.v)))
  }

  // The state of the search: tentative distances, predecessors, the vertices already settled
  // and the queue; path spells out the chain of predecessors of every vertex met.
  datatype Search = Search(dist: map<Vertex, nat>, prev: map<Vertex, Vertex>, path: map<Vertex, Path>,
                           done: set<Vertex>, queue: multiset<Item>)

  // The arcs a masked search may use. Only the target of an edge is checked.
  ghost function Mask(a: Arcs, removedV: set<Vertex>, removedE: set<Link>): Arcs {
    map e | e in a && e.to !in removedV && e !in removedE :: a[e]
  }

  // All vertices the search can meet.
  function Universe(g: Graph, src: Vertex): set<Vertex> {
    {src} + g.Keys + (set u, i | u in g && 0 <= i < |g[u]| :: g[u][i].to)
  }

  ghost predicate Closed(g: Graph, all: set<Vertex>) {
    forall u, i :: u in g && 0 <= i < |g[u]| ==> g[u][i].to in all
  }

  ghost predicate Queued(all: set<Vertex>, s: Search) {
    forall x :: x in s.queue ==> x.v in all && x.v in s.path
  }

  // ---------- the algorithm as functions ----------

  lemma ItemLeqTransitive(a: Item, b: Item, c: Item)
    requires ItemLeq(a, b) && ItemLeq(b, c)
    ensures ItemLeq(a, c)
  {
  }

  lemma ItemLeqTotal(a: Item, b: Item)
    ensures ItemLeq(a, b) || ItemLeq(b, a)
    ensures ItemLeq(a, b) && ItemLeq(b, a) ==> a == b
  {
  }

  lemma MinItemExists(q: multiset<Item>) returns (m: Item)
    requires |q| > 0
    ensures m in q && forall x :: x in q ==> ItemLeq(m, x)
  {
    m :| m in q;
    var r := q - multiset{m};
    assert q == r + multiset{m};
    if |r| > 0 {
      var least := MinItemExists(r);
      ItemLeqTotal(m, least);
      m := if ItemLeq(m, least) then m else least;
      forall y | y in r
        ensures ItemLeq(m, y)
      {
        ItemLeqTransitive(m, least, y);
      }
    } else {
      assert r == multiset{};
    }
  }

  lemma MinItemExistsFor(q: multiset<Item>)
    requires |q| > 0
    ensures exists m :: m in q && forall x :: x in q ==> ItemLeq(m, x)
  {
    var m := MinItemExists(q);
  }

  // The least entry: the one container/heap pops.
  ghost function MinItem(q: multiset<Item>): (m: Item)
    requires |q| > 0
    ensures m in q && forall x :: x in q ==> ItemLeq(m, x)
  {
    MinItemExistsFor(q);
    var m :| m in q && forall x :: x in q ==> ItemLeq(m, x);
    m
  }

  // Relax one edge out of the settled vertex u.
  ghost function RelaxEdge(s: Search, u: Vertex, d: nat, e: Edge,
                           removedV: set<Vertex>, removedE: set<Link>): Search
    requires u in s.path
  {
    if e.to in removedV || Link(u, e.to) in removedE then s
    else if e.to !in s.dist || d + e.w < s.dist[e.to] then
      Search(s.dist[e.to := d + e.w], s.prev[e.to := u], s.path[e.to := s.path[u] + [e.to]], s.done,
             s.queue + multiset{Item(d + e.w, e.to)})
    else s
  }

  ghost function Relax(s: Search, u: Vertex, d: nat, es: seq<Edge>,
                       removedV: set<Vertex>, removedE: set<Link>): (r: Search)
    requires u in s.path
    ensures r.done == s.done && s.path.Keys <= r.path.Keys
  {
    if es == [] then s
    else
      var n := |es| - 1;
      RelaxEdge(Relax(s, u, d, es[..n], removedV, removedE), u, d, es[n], removedV, removedE)
  }

  ghost function Out(g: Graph, u: Vertex): seq<Edge> {
    if u in g then g[u] else []
  }

  lemma {:induction false} RelaxQueues(s: Search, u: Vertex, d: nat, es: seq<Edge>,
                                       removedV: set<Vertex>, removedE: set<Link>, x: Item)
    requires u in s.path && x in Relax(s, u, d, es, removedV, removedE).queue
    ensures x in s.queue || x.v in Relax(s, u, d, es, removedV, removedE).path
    ensures x in s.queue || exists i :: 0 <= i < |es| && es[i].to == x.v
  {
    if es != [] {
      var n := |es| - 1;
      var m := Relax(s, u, d, es[..n], removedV, removedE);
      if x in m.queue {
        RelaxQueues(s, u, d, es[..n], removedV, removedE, x);
        if x !in s.queue {
          var i :| 0 <= i < n && es[..n][i].to == x.v;
          assert es[i].to == x.v;
        }
      } else {
        assert es[n].to == x.v;
      }
    }
  }

  lemma RelaxKeepsQueued(g: Graph, all: set<Vertex>, s: Search, u: Vertex, d: nat,
                         removedV: set<Vertex>, removedE: set<Link>)
    requires u in s.path && Closed(g, all) && Queued(all, s)
    ensures Queued(all, Relax(s, u, d, Out(g, u), removedV, removedE))
  {
    var r := Relax(s, u, d, Out(g, u), removedV, removedE);
    forall x | x in r.queue
      ensures x.v in all && x.v in r.path
    {
      RelaxQueues(s, u, d, Out(g, u), removedV, removedE, x);
      if x !in s.queue {
        var i :| 0 <= i < |Out(g, u)| && Out(g, u)[i].to == x.v;
        assert g[u][i].to in all;
      }
    }
  }

  lemma SettleShrinks<T>(all: set<T>, done: set<T>, x: T)
    requires x in all && x !in done
    ensures |all - (done + {x})| < |all - done|
  {
    assert x in all - done;
    ProperSubsetSize(all - (done + {x}), all - done);
  }

  // One turn of the loop: pop; skip a settled vertex; settle; stop at the destination; relax.
  ghost function Next(g: Graph, dst: Vertex, removedV: set<Vertex>, removedE: set<Link>, s: Search): Search
    requires |s.queue| > 0 && forall x :: x in s.queue ==> x.v in s.path
  {
    var m := MinItem(s.queue);
    var popped := s.(queue := s.queue - multiset{m});
    if m.v in s.done then popped
    else
      var settled := popped.(done := s.done + {m.v});
      if m.v == dst then settled
      else Relax(settled, m.v, m.dist, Out(g, m.v), removedV, removedE)
  }

  lemma NextDecreases(g: Graph, all: set<Vertex>, dst: Vertex,
                      removedV: set<Vertex>, removedE: set<Link>, s: Search)
    requires Closed(g, all) && Queued(all, s) && |s.queue| > 0
    ensures var r := Next(g, dst, removedV, removedE, s);
      && Queued(all, r)
      && (|all - r.done| < |all - s.done|
          || (r.done == s.done && |r.queue| < |s.queue|))
  {
    var m := MinItem(s.queue);
    if m.v !in s.done {
      var settled := s.(queue := s.queue - multiset{m}, done := s.done + {m.v});
      SettleShrinks(all, s.done, m.v);
      assert Queued(all, settled);
      RelaxKeepsQueued(g, all, settled, m.v, m.dist, removedV, removedE);
    }
  }

  ghost function Run(g: Graph, all: set<Vertex>, dst: Vertex,
                     removedV: set<Vertex>, removedE: set<Link>, s: Search): Search
    requires Closed(g, all) && Queued(all, s)
    decreases |all - s.done|, |s.queue|
  {
    if |s.queue| == 0 || dst in s.done then s
    else
      NextDecreases(g, all, dst, removedV, removedE, s);
      Run(g, all, dst, removedV, removedE, Next(g, dst, removedV, removedE, s))
  }

  ghost function Start(src: Vertex): Search {
    Search(map[src := 0], map[], map[src := [src]], {}, multiset{Item(0, src)})
  }

  // The path dijkstra returns, with its weight; nothing when the destination is unreachable.
  ghost function Shortest(g: Graph, src: Vertex, dst: Vertex,
                          removedV: set<Vertex>, removedE: set<Link>): Found
  {
    if src in removedV || dst in removedV then NotFound
    else
      var s := Run(g, Universe(g, src), dst, removedV, removedE, Start(src));
      if dst in s.done && dst in s.dist && dst in s.path then Found(s.path[dst], s.dist[dst]) else NotFound
  }

  // ---------- what every step keeps ----------

  // The path p reaches v from src at distance d over settled vertices.
  ghost predicate Reaches(a: Arcs, src: Vertex, done: set<Vertex>, v: Vertex, p: Path, d: nat) {
    && SimplePath(a, src, v, p) && PathWeight(a, p) == d
    && forall i :: 0 <= i < |p| - 1 ==> p[i] in done
  }

  // Every distance is realised.
  ghost predicate Realised(a: Arcs, src: Vertex, s: Search) {
    && s.dist.Keys == s.path.Keys && src in s.dist && s.done <= s.dist.Keys
    && s.path[src] == [src] && s.dist[src] == 0
    && forall v {:trigger Reaches(a, src, s.done, v, s.path[v], s.dist[v])} ::
         v in s.path ==> Reaches(a, src, s.done, v, s.path[v], s.dist[v])
  }

  lemma ReachesFurther(a: Arcs, src: Vertex, done: set<Vertex>, u: Vertex, p: Path, d: nat, v: Vertex)
    requires Reaches(a, src, done, u, p, d)
    requires u in done && v !in done && Link(u, v) in a
    ensures Reaches(a, src, done, v, p + [v], d + a[Link(u, v)])
  {
    WeightSnoc(a, p, v);
    var q := p + [v];
    forall i | 0 <= i < |q| - 1
      ensures Link(q[i], q[i + 1]) in a && q[i] in done
    {
      if i + 1 < |p| {
        assert Link(p[i], p[i + 1]) in a;
      }
    }
    forall i, j | 0 <= i < j < |q|
      ensures q[i] != q[j]
    {
      if j == |p| {
        assert q[i] in done;
      }
    }
  }

  // The path of v extends the path of its settled predecessor.
  ghost predicate Child(s: Search, v: Vertex) {
    && v in s.prev && s.prev[v] in s.done && s.prev[v] in s.path
    && v in s.path && s.path[v] == s.path[s.prev[v]] + [v]
  }

  ghost predicate Tree(src: Vertex, s: Search) {
    forall v {:trigger Child(s, v)} :: v in s.path && v != src ==> Child(s, v)
  }

  // The queue holds every unsettled vertex at its distance, and nothing cheaper.
  ghost predicate QueueOk(s: Search) {
    && (forall x :: x in s.queue ==> x.v in s.dist && s.dist[x.v] <= x.dist)
    && (forall v :: v in s.dist && v !in s.done ==> Item(s.dist[v], v) in s.queue)
  }

  // Settled vertices are no farther than unsettled ones.
  ghost predicate Layered(s: Search) {
    s.done <= s.dist.Keys
    && forall u, v :: u in s.done && v in s.dist && v !in s.done ==> s.dist[u] <= s.dist[v]
  }

  // Every arc out of a relaxed vertex respects the distances.
  ghost predicate Relaxed(a: Arcs, relaxed: set<Vertex>, s: Search) {
    forall e :: e in a && e.from in relaxed ==>
      e.from in s.dist && e.to in s.dist && s.dist[e.to] <= s.dist[e.from] + a[e]
  }

  ghost predicate Inv(a: Arcs, src: Vertex, s: Search) {
    Realised(a, src, s) && Tree(src, s) && QueueOk(s) && Layered(s)
  }

  // ---------- relaxation ----------

  lemma RealisedGrows(a: Arcs, src: Vertex, s: Search, u: Vertex, v: Vertex, d: nat, r: Search)
    requires Realised(a, src, s) && u in s.done && v !in s.done && v != src
    requires Link(u, v) in a && d == s.dist[u] + a[Link(u, v)]
    requires r.dist == s.dist[v := d] && r.path == s.path[v := s.path[u] + [v]] && r.done == s.done
    ensures Realised(a, src, r)
  {
    assert Reaches(a, src, s.done, u, s.path[u], s.dist[u]);
    ReachesFurther(a, src, s.done, u, s.path[u], s.dist[u], v);
    forall x | x in r.path
      ensures Reaches(a, src, r.done, x, r.path[x], r.dist[x])
    {
      if x != v {
        assert Reaches(a, src, s.done, x, s.path[x], s.dist[x]);
      }
    }
  }

  lemma TreeGrows(src: Vertex, s: Search, u: Vertex, v: Vertex, r: Search)
    requires Tree(src, s) && u in s.done && v !in s.done && u in s.path
    requires r.prev == s.prev[v := u] && r.path == s.path[v := s.path[u] + [v]] && r.done == s.done
    ensures Tree(src, r)
  {
    forall x | x in r.path && x != src
      ensures Child(r, x)
    {
      assert x != v ==> Child(s, x);
    }
  }

  lemma QueueGrows(s: Search, v: Vertex, d: nat, r: Search)
    requires QueueOk(s) && Layered(s) && v !in s.done
    requires v in s.dist ==> d < s.dist[v]
    requires forall x :: x in s.done ==> s.dist[x] <= d
    requires r.dist == s.dist[v := d] && r.done == s.done && r.queue == s.queue + multiset{Item(d, v)}
    ensures QueueOk(r) && Layered(r)
  {
  }

  lemma RelaxEdgeKeeps(a: Arcs, src: Vertex, s: Search, u: Vertex, d: nat, e: Edge,
                       removedV: set<Vertex>, removedE: set<Link>)
    requires Inv(a, src, s)
    requires u in s.done && d == s.dist[u]
    requires forall x :: x in s.done ==> s.dist[x] <= d
    requires e.to !in removedV && Link(u, e.to) !in removedE ==> Link(u, e.to) in a && a[Link(u, e.to)] == e.w
    ensures var r := RelaxEdge(s, u, d, e, removedV, removedE);
      && Inv(a, src, r) && r.done == s.done
      && (forall x :: x in s.done ==> r.dist[x] == s.dist[x] && r.path[x] == s.path[x])
      && (forall x :: x in s.dist ==> x in r.dist && r.dist[x] <= s.dist[x])
      && (e.to !in removedV && Link(u, e.to) !in removedE ==> e.to in r.dist && r.dist[e.to] <= d + e.w)
  {
    var r := RelaxEdge(s, u, d, e, removedV, removedE);
    if r != s {
      var v := e.to;
      assert v !in s.done;
      RealisedGrows(a, src, s, u, v, d + e.w, r);
      TreeGrows(src, s, u, v, r);
      QueueGrows(s, v, d + e.w, r);
    }
  }

  ghost predicate EdgesOk(a: Arcs, u: Vertex, es: seq<Edge>, removedV: set<Vertex>, removedE: set<Link>) {
    forall e :: e in es && e.to !in removedV && Link(u, e.to) !in removedE ==> Link(u, e.to) in a && a[Link(u, e.to)] == e.w
  }

  lemma {:induction false} RelaxKeeps(a: Arcs, src: Vertex, s: Search, u: Vertex, d: nat, es: seq<Edge>,
                                      removedV: set<Vertex>, removedE: set<Link>)
    requires Inv(a, src, s)
    requires u in s.done && d == s.dist[u]
    requires forall x :: x in s.done ==> s.dist[x] <= d
    requires EdgesOk(a, u, es, removedV, removedE)
    ensures var r := Relax(s, u, d, es, removedV, removedE);
      && Inv(a, src, r) && r.done == s.done
      && (forall x :: x in s.done ==> r.dist[x] == s.dist[x] && r.path[x] == s.path[x])
      && (forall x :: x in s.dist ==> x in r.dist && r.dist[x] <= s.dist[x])
      && (forall e :: e in es && e.to !in removedV && Link(u, e.to) !in removedE ==>
            e.to in r.dist && r.dist[e.to] <= d + e.w)
  {
    if es != [] {
      var n := |es| - 1;
      RelaxKeeps(a, src, s, u, d, es[..n], removedV, removedE);
      var m := Relax(s, u, d, es[..n], removedV, removedE);
      assert es[n] in es;
      RelaxEdgeKeeps(a, src, m, u, d, es[n], removedV, removedE);
      var r := RelaxEdge(m, u, d, es[n], removedV, removedE);
      forall e | e in es && e.to !in removedV && Link(u, e.to) !in removedE
        ensures e.to in r.dist && r.dist[e.to] <= d + e.w
      {
        if e != es[n] {
          assert e in es[..n];
        }
      }
    }
  }

  // Popping the least entry of an unsettled vertex settles it at its distance.
  lemma SettleKeeps(a: Arcs, src: Vertex, s: Search)
    requires Inv(a, src, s) && |s.queue| > 0
    requires MinItem(s.queue).v !in s.done
    ensures var m := MinItem(s.queue);
      var t := s.(queue := s.queue - multiset{m}, done := s.done + {m.v});
      && m.v in s.dist && m.dist == s.dist[m.v]
      && Inv(a, src, t)
      && (forall x :: x in t.done ==> t.dist[x] <= m.dist)
  {
    var m := MinItem(s.queue);
    assert Item(s.dist[m.v], m.v) in s.queue;
    var t := s.(queue := s.queue - multiset{m}, done := s.done + {m.v});
    forall v | v in t.dist && v !in t.done
      ensures Item(t.dist[v], v) in t.queue && m.dist <= t.dist[v]
    {
      assert Item(s.dist[v], v) in s.queue;
      assert ItemLeq(m, Item(s.dist[v], v));
    }
    RealisedSettles(a, src, s, m.v, t);
    TreeSettles(src, s, t);
  }

  lemma RealisedSettles(a: Arcs, src: Vertex, s: Search, u: Vertex, t: Search)
    requires Realised(a, src, s) && u in s.dist
    requires t.dist == s.dist && t.path == s.path && s.done <= t.done <= s.done + {u}
    ensures Realised(a, src, t)
  {
    forall x | x in t.path
      ensures Reaches(a, src, t.done, x, t.path[x], t.dist[x])
    {
      assert Reaches(a, src, s.done, x, s.path[x], s.dist[x]);
    }
  }

  lemma TreeSettles(src: Vertex, s: Search, t: Search)
    requires Tree(src, s)
    requires t.prev == s.prev && t.path == s.path && s.done <= t.done
    ensures Tree(src, t)
  {
    forall x | x in t.path && x != src
      ensures Child(t, x)
    {
      assert Child(s, x);
    }
  }

  lemma PopKeeps(a: Arcs, src: Vertex, s: Search)
    requires Inv(a, src, s) && |s.queue| > 0
    requires MinItem(s.queue).v in s.done
    ensures Inv(a, src, s.(queue := s.queue - multiset{MinItem(s.queue)}))
  {
    var t := s.(queue := s.queue - multiset{MinItem(s.queue)});
    RealisedSettles(a, src, s, MinItem(s.queue).v, t);
    TreeSettles(src, s, t);
  }

  // ---------- the run ----------

  // Settling a vertex and relaxing its edges keeps the invariant.
  lemma StepKeeps(g: Graph, a: Arcs, src: Vertex, removedV: set<Vertex>, removedE: set<Link>, s: Search)
    requires WellFormed(g) && a == Mask(ArcsOf(g), removedV, removedE)
    requires Inv(a, src, s) && Relaxed(a, s.done, s)
    requires |s.queue| > 0 && MinItem(s.queue).v !in s.done
    ensures var m := MinItem(s.queue);
      var t := s.(queue := s.queue - multiset{m}, done := s.done + {m.v});
      && m.v in t.path
      && var r := Relax(t, m.v, m.dist, Out(g, m.v), removedV, removedE);
      Inv(a, src, r) && r.done == t.done && Relaxed(a, r.done, r)
  {
    var m := MinItem(s.queue);
    var t := s.(queue := s.queue - multiset{m}, done := s.done + {m.v});
    SettleKeeps(a, src, s);
    OutIsArcs(g, a, m.v, removedV, removedE);
    RelaxKeeps(a, src, t, m.v, m.dist, Out(g, m.v), removedV, removedE);
    RelaxedGrows(g, a, s, m.v, removedV, removedE, Relax(t, m.v, m.dist, Out(g, m.v), removedV, removedE));
  }

  lemma RelaxedGrows(g: Graph, a: Arcs, s: Search, u: Vertex,
                     removedV: set<Vertex>, removedE: set<Link>, r: Search)
    requires WellFormed(g) && a == Mask(ArcsOf(g), removedV, removedE)
    requires Relaxed(a, s.done, s) && u in s.dist && u in r.dist && r.dist[u] == s.dist[u]
    requires s.done <= s.dist.Keys && r.done == s.done + {u}
    requires forall x :: x in s.done ==> x in r.dist && r.dist[x] == s.dist[x]
    requires forall x :: x in s.dist ==> x in r.dist && r.dist[x] <= s.dist[x]
    requires forall e :: e in Out(g, u) && e.to !in removedV && Link(u, e.to) !in removedE ==>
               e.to in r.dist && r.dist[e.to] <= s.dist[u] + e.w
    ensures Relaxed(a, r.done, r)
  {
    forall e | e in a && e.from in r.done
      ensures e.from in r.dist && e.to in r.dist && r.dist[e.to] <= r.dist[e.from] + a[e]
    {
      if e.from == u {
        var i := ArcIsEdge(g, u, e.to);
        assert g[u][i] in Out(g, u);
      } else {
        assert e.from in s.done && s.dist[e.to] <= s.dist[e.from] + a[e];
      }
    }
  }

  // What holds whenever the loop guard is evaluated.
  ghost predicate Searching(a: Arcs, src: Vertex, dst: Vertex, s: Search) {
    Inv(a, src, s) && Relaxed(a, s.done - {dst}, s)
  }

  lemma RelaxedAll(a: Arcs, dst: Vertex, s: Search)
    requires dst !in s.done && Relaxed(a, s.done - {dst}, s)
    ensures Relaxed(a, s.done, s)
  {
    assert s.done - {dst} == s.done;
  }

  lemma StopKeeps(a: Arcs, src: Vertex, dst: Vertex, s: Search)
    requires Inv(a, src, s) && Relaxed(a, s.done, s)
    requires |s.queue| > 0 && MinItem(s.queue).v == dst && dst !in s.done
    ensures Searching(a, src, dst, s.(queue := s.queue - multiset{MinItem(s.queue)}, done := s.done + {dst}))
  {
    SettleKeeps(a, src, s);
  }

  lemma NextKeeps(g: Graph, a: Arcs, src: Vertex, dst: Vertex,
                  removedV: set<Vertex>, removedE: set<Link>, s: Search)
    requires WellFormed(g) && a == Mask(ArcsOf(g), removedV, removedE)
    requires Inv(a, src, s) && Relaxed(a, s.done, s) && dst !in s.done
    requires |s.queue| > 0 && forall x :: x in s.queue ==> x.v in s.path
    ensures var r := Next(g, dst, removedV, removedE, s);
      Searching(a, src, dst, r) && (dst !in r.done ==> Relaxed(a, r.done, r))
  {
    var m := MinItem(s.queue);
    if m.v in s.done {
      PopKeeps(a, src, s);
    } else if m.v == dst {
      StopKeeps(a, src, dst, s);
    } else {
      StepKeeps(g, a, src, removedV, removedE, s);
    }
  }

  // What the search knows when it stops.
  ghost predicate Finished(a: Arcs, src: Vertex, dst: Vertex, s: Search) {
    && Searching(a, src, dst, s)
    && (dst !in s.done ==> s.dist.Keys <= s.done)
  }

  lemma {:induction false} RunFinishes(g: Graph, all: set<Vertex>, a: Arcs, src: Vertex, dst: Vertex,
                                       removedV: set<Vertex>, removedE: set<Link>, s: Search)
    requires WellFormed(g) && a == Mask(ArcsOf(g), removedV, removedE)
    requires Closed(g, all) && Queued(all, s) && Searching(a, src, dst, s)
    ensures Finished(a, src, dst, Run(g, all, dst, removedV, removedE, s))
    decreases |all - s.done|, |s.queue|
  {
    if |s.queue| == 0 {
      assert s.queue == multiset{};
    } else if dst !in s.done {
      NextDecreases(g, all, dst, removedV, removedE, s);
      RelaxedAll(a, dst, s);
      NextKeeps(g, a, src, dst, removedV, removedE, s);
      RunFinishes(g, all, a, src, dst, removedV, removedE, Next(g, dst, removedV, removedE, s));
    }
  }

  lemma OutIsArcs(g: Graph, a: Arcs, u: Vertex, removedV: set<Vertex>, removedE: set<Link>)
    requires WellFormed(g) && a == Mask(ArcsOf(g), removedV, removedE)
    ensures EdgesOk(a, u, Out(g, u), removedV, removedE)
    ensures forall v :: Link(u, v) in a ==> Edge(v, a[Link(u, v)]) in Out(g, u)
  {
    forall e | e in Out(g, u) && e.to !in removedV && Link(u, e.to) !in removedE
      ensures Link(u, e.to) in a && a[Link(u, e.to)] == e.w
    {
      var i :| 0 <= i < |g[u]| && g[u][i] == e;
      EdgeIsArc(g, u, i);
    }
    forall v | Link(u, v) in a
      ensures Edge(v, a[Link(u, v)]) in Out(g, u)
    {
      var i := ArcIsEdge(g, u, v);
    }
  }

  // ---------- the result ----------

  // Along a walk whose inner vertices are relaxed, the distance never exceeds the weight.
  lemma {:induction false} RelaxedBound(a: Arcs, src: Vertex, relaxed: set<Vertex>, s: Search, q: Path)
    requires Inv(a, src, s) && Relaxed(a, relaxed, s)
    requires IsWalk(a, q) && q[0] == src
    requires forall i :: 0 <= i < |q| - 1 ==> q[i] in relaxed
    ensures q[|q| - 1] in s.dist && s.dist[q[|q| - 1]] <= PathWeight(a, q)
  {
    var n := |q| - 1;
    if n == 0 {
      assert PathWeight(a, s.path[src]) == 0;
    } else {
      RelaxedBound(a, src, relaxed, s, q[..n]);
      WeightSnoc(a, q[..n], q[n]);
      assert q[..n] + [q[n]] == q;
      assert Link(q[n - 1], q[n - 1 + 1]) in a;
    }
  }

  // The first vertex of a walk outside a set, 
  lemma FirstOutside(q: Path, s: set<Vertex>) returns (j: nat)
    requires |q| > 0 && q[|q| - 1] !in s
    ensures j < |q| && q[j] !in s && forall i :: 0 <= i < j ==> q[i] in s
  {
    j := 0;
    while q[j] in s
      invariant j < |q| && forall i :: 0 <= i < j ==> q[i] in s
      decreases |q| - j
    {
      j := j + 1;
    }
  }

  lemma FinishedIsLeast(a: Arcs, src: Vertex, dst: Vertex, s: Search, q: Path)
    requires Finished(a, src, dst, s) && WalkFromTo(a, src, dst, q)
    ensures dst in s.done && s.dist[dst] <= PathWeight(a, q)
  {
    var relaxed := s.done - {dst};
    var j := FirstOutside(q, relaxed);
    RelaxedBound(a, src, relaxed, s, q[..j + 1]);
    PrefixWeighsLess(a, q, j + 1);
    assert q[j] == dst || q[j] !in s.done;
  }

  // dijkstra returns a simple path of the masked graph that no walk undercuts, with its exact
  // weight, and nothing only when no walk leads there.
  ghost predicate IsShortest(a: Arcs, src: Vertex, dst: Vertex, r: Found) {
    match r
    case Found(p, w) =>
      && SimplePath(a, src, dst, p) && PathWeight(a, p) == w
      && forall q :: WalkFromTo(a, src, dst, q) ==> w <= PathWeight(a, q)
    case NotFound => forall q :: !WalkFromTo(a, src, dst, q)
  }

  lemma ShortestIsShortest(g: Graph, src: Vertex, dst: Vertex,
                           removedV: set<Vertex>, removedE: set<Link>)
    requires WellFormed(g) && src !in removedV && dst !in removedV
    ensures IsShortest(Mask(ArcsOf(g), removedV, removedE), src, dst, Shortest(g, src, dst, removedV, removedE))
  {
    var a := Mask(ArcsOf(g), removedV, removedE);
    var s0 := Start(src);
    StartKeeps(a, src, dst);
    RunFinishes(g, Universe(g, src), a, src, dst, removedV, removedE, s0);
    var s := Run(g, Universe(g, src), dst, removedV, removedE, s0);
    if dst in s.done {
      assert Reaches(a, src, s.done, dst, s.path[dst], s.dist[dst]);
    }
    forall q | WalkFromTo(a, src, dst, q)
      ensures dst in s.done && s.dist[dst] <= PathWeight(a, q)
    {
      FinishedIsLeast(a, src, dst, s, q);
    }
  }

  lemma StartKeeps(a: Arcs, src: Vertex, dst: Vertex)
    ensures Searching(a, src, dst, Start(src))
  {
    assert PathWeight(a, [src]) == 0;
  }

  // With safe weights no tentative distance overflows a 64-bit word.
  lemma TentativeFits(a: Arcs, src: Vertex, s: Search, u: Vertex, v: Vertex)
    requires Safe(a) && Realised(a, src, s) && u in s.dist && Link(u, v) in a && u != v
    ensures s.dist[u] + a[Link(u, v)] < 2 * MAX_W
  {
    assert Reaches(a, src, s.done, u, s.path[u], s.dist[u]);
    assert IsWalk(a, s.path[u]) && Distinct(s.path[u]);
    var p := [u, v];
    assert p[1..] == [v];
    assert IsWalk(a, p) && Distinct(p);
    assert PathWeight(a, p) == a[Link(u, v)];
  }

  // ---------- the algorithm as the program runs it ----------

  function Reverse<T>(s: seq<T>): (r: seq<T>)
    ensures |r| == |s| && forall i :: 0 <= i < |s| ==> r[i] == s[|s| - 1 - i]
  {
    if s == [] then [] else Reverse(s[1..]) + [s[0]]
  }

  lemma ReverseSnoc<T>(s: seq<T>, x: T)
    ensures Reverse(s + [x]) == [x] + Reverse(s)
  {
  }

  // container/heap pops the least entry.
  method PopLeast(queue: multiset<Item>) returns (m: Item)
    requires |queue| > 0
    ensures m == MinItem(queue)
  {
    MinItemExistsFor(queue);
    m :| m in queue && forall x :: x in queue ==> ItemLeq(m, x);
    ItemLeqTotal(m, MinItem(queue));
  }

  // Follow the predecessors back from the destination, then reverse.
  method Backtrack(ghost a: Arcs, src: Vertex, dst: Vertex, prev: map<Vertex, Vertex>, ghost s: Search) returns (path: Path)
    requires Realised(a, src, s) && Tree(src, s) && prev == s.prev && dst in s.path
    ensures path == s.path[dst]
  {
    var rev: Path := [];
    var v := dst;
    assert Reaches(a, src, s.done, dst, s.path[dst], s.dist[dst]);
    while v != src
      invariant v in s.path && |s.path[v]| > 0
      invariant s.path[v] + Reverse(rev) == s.path[dst]
      decreases |s.path[v]|
    {
      assert Child(s, v);
      assert Reaches(a, src, s.done, prev[v], s.path[prev[v]], s.dist[prev[v]]);
      ReverseSnoc(rev, v);
      rev := rev + [v];
      v := prev[v];
    }
    ReverseSnoc(rev, v);
    rev := rev + [v];
    path := Reverse(rev);
  }

  // The least path and its weight; the empty path and MAX_W when there is none.
  method ShortestPath(g: Graph, src: Vertex, dst: Vertex,
                      removedV: set<Vertex>, removedE: set<Link>) returns (path: Path, w: nat)
    requires WellFormed(g)
    ensures Shortest(g, src, dst, removedV, removedE) == if path == [] then NotFound else Found(path, w)
    ensures path == [] ==> w == MAX_W
  {
    if src in removedV || dst in removedV {
      return [], MAX_W;
    }
    var dist, prev, visited, queue := map[src := 0], map[], {}, multiset{Item(0, src)};
    ghost var a := Mask(ArcsOf(g), removedV, removedE);
    ghost var all := Universe(g, src);
    ghost var s := Start(src);
    StartKeeps(a, src, dst);
    while |queue| > 0
      invariant s.dist == dist && s.prev == prev && s.done == visited && s.queue == queue
      invariant Queued(all, s) && Inv(a, src, s) && Relaxed(a, s.done, s) && dst !in s.done
      invariant Run(g, all, dst, removedV, removedE, s) == Run(g, all, dst, removedV, removedE, Start(src))
      decreases |all - s.done|, |s.queue|
    {
      NextDecreases(g, all, dst, removedV, removedE, s);
      NextKeeps(g, a, src, dst, removedV, removedE, s);
      ghost var next := Next(g, dst, removedV, removedE, s);
      var cur := PopLeast(queue);
      queue := queue - multiset{cur};
      var u := cur.v;
      if u !in visited {
        visited := visited + {u};
        if u == dst {
          s := next;
          assert Run(g, all, dst, removedV, removedE, s) == s;
          break;
        }
        ghost var settled := s.(queue := queue, done := visited);
        var es := if u in g then g[u] else [];
        dist, prev, queue := RelaxAll(settled, u, cur.dist, es, removedV, removedE, dist, prev, queue);
      }
      s := next;
    }
    if dst !in visited {
      return [], MAX_W;
    }
    assert Reaches(a, src, s.done, dst, s.path[dst], s.dist[dst]);
    path := Backtrack(a, src, dst, prev, s);
    w := dist[dst];
  }

  lemma RelaxOneMore(s: Search, u: Vertex, d: nat, es: seq<Edge>, i: nat,
                     removedV: set<Vertex>, removedE: set<Link>)
    requires u in s.path && i < |es|
    ensures Relax(s, u, d, es[..i + 1], removedV, removedE)
         == RelaxEdge(Relax(s, u, d, es[..i], removedV, removedE), u, d, es[i], removedV, removedE)
  {
    assert es[..i + 1][..i] == es[..i];
  }

  // The inner loop over the edges of a settled vertex.
  method RelaxAll(ghost s: Search, u: Vertex, d: nat, es: seq<Edge>,
                  removedV: set<Vertex>, removedE: set<Link>,
                  dist0: map<Vertex, nat>, prev0: map<Vertex, Vertex>, queue0: multiset<Item>)
    returns (dist: map<Vertex, nat>, prev: map<Vertex, Vertex>, queue: multiset<Item>)
    requires u in s.path && s.dist == dist0 && s.prev == prev0 && s.queue == queue0
    ensures var r := Relax(s, u, d, es, removedV, removedE);
      dist == r.dist && prev == r.prev && queue == r.queue
  {
    dist, prev, queue := dist0, prev0, queue0;
    for i := 0 to |es|
      invariant var r := Relax(s, u, d, es[..i], removedV, removedE);
        dist == r.dist && prev == r.prev && queue == r.queue
    {
      var e := es[i];
      RelaxOneMore(s, u, d, es, i, removedV, removedE);
      if e.to in removedV {
        continue;
      }
      if Link(u, e.to) in removedE {
        continue;
      }
      var nd := d + e.w;
      if e.to !in dist || nd < dist[e.to] {
        dist := dist[e.to := nd];
        prev := prev[e.to := u];
        queue := queue + multiset{Item(nd, e.to)};
      }
    }
    assert es[..|es|] == es;
  }
}
