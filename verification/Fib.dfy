// Forwarding tables from baseline routes (internal/controller/topology/fib.go). A prefix is
// identified with the VIP it is made of: the "/32" that is appended is the same for all.
module Fib {
  import opened Paths
  import opened Sorting
  import opened SplitGraph
  import opened Assign
  import opened Prune
  import opened KShortest
  import opened Optimizer
  import D = Dag

  type Vips = map<nat, nat>

  const WEIGHT := 100

  predicate HopBefore(x: D.NextHop, y: D.NextHop) {
    if x.peer != y.peer then x.peer < y.peer else x.ingress < y.ingress
  }

  predicate PrefixBefore(x: D.Entry, y: D.Entry) {
    x.prefix < y.prefix
  }

  function NextHopOf(h: Hop): D.NextHop {
    D.NextHop(h.node, WEIGHT, h.ingress)
  }

  predicate Serves(vips: Vips, p: RoutePair, src: nat, prefix: nat) {
    p.src == src && p.dst in vips && vips[p.dst] == prefix
  }

  function FirstHops(routes: seq<seq<Hop>>): set<Hop> {
    set i | 0 <= i < |routes| && routes[i] != [] :: routes[i][0]
  }

  // First hops of src's routes to the nodes with this prefix, over some of the pairs.
  ghost function HopsAmong(b: Baseline, vips: Vips, pairs: set<RoutePair>, src: nat, prefix: nat): set<Hop> {
    set p, h | p in pairs && p in b && Serves(vips, p, src, prefix) && h in FirstHops(b[p]) :: h
  }

  ghost function HopSet(b: Baseline, vips: Vips, src: nat, prefix: nat): set<Hop> {
    HopsAmong(b, vips, b.Keys, src, prefix)
  }

  ghost predicate Wants(b: Baseline, vips: Vips, a: nat, prefix: nat, h: D.NextHop) {
    h.weight == WEIGHT && Hop(h.peer, h.ingress) in HopSet(b, vips, a, prefix)
  }

  // The i-th route from a to dst starts with this hop, and dst has this address.
  predicate StartsWith(b: Baseline, vips: Vips, a: nat, prefix: nat, hop: Hop, dst: nat, i: nat) {
    && RoutePair(a, dst) in b && dst in vips && vips[dst] == prefix
    && i < |b[RoutePair(a, dst)]| && b[RoutePair(a, dst)][i] != [] && b[RoutePair(a, dst)][i][0] == hop
  }

  // For a prefix a node wants exactly the first hops of its routes to the nodes with that
  // address, all with the same weight.
  lemma WantsMeans(b: Baseline, vips: Vips, a: nat, prefix: nat, h: D.NextHop)
    ensures Wants(b, vips, a, prefix, h) <==>
      h.weight == 100 && exists dst: nat, i: nat :: StartsWith(b, vips, a, prefix, Hop(h.peer, h.ingress), dst, i)
  {
    var hop := Hop(h.peer, h.ingress);
    if Wants(b, vips, a, prefix, h) {
      var p, x :| p in b.Keys && p in b && Serves(vips, p, a, prefix) && x in FirstHops(b[p]) && x == hop;
      var i :| 0 <= i < |b[p]| && b[p][i] != [] && b[p][i][0] == x;
      assert p == RoutePair(a, p.dst);
      assert StartsWith(b, vips, a, prefix, hop, p.dst, i);
    }
    if dst: nat, i: nat :| StartsWith(b, vips, a, prefix, hop, dst, i) {
      assert Serves(vips, RoutePair(a, dst), a, prefix) && hop in FirstHops(b[RoutePair(a, dst)]);
      assert hop in HopSet(b, vips, a, prefix);
    }
  }

  // No source without entries, no entry without hops, hops in order, one entry for a prefix.
  ghost predicate Tidy(fib: D.Fib) {
    forall a :: a in fib ==> fib[a] != [] && TidyEntries(fib[a])
  }

  ghost predicate TidyEntries(es: seq<D.Entry>) {
    && (forall e :: e in es ==> e.hops != [] && Sorted(e.hops, HopBefore))
    && Separated(es, PrefixBefore)
  }

  ghost predicate IsPerSource(b: Baseline, vips: Vips, fib: D.Fib) {
    Tidy(fib) && forall a, prefix, h :: D.Sends(fib, a, prefix, h) <==> Wants(b, vips, a, prefix, h)
  }

  // ---------- aggregation ----------

  datatype Agg = Agg(seen: set<Hop>, hops: seq<D.NextHop>)

  type Grouping = map<nat, map<nat, Agg>>

  ghost predicate AggOk(g: Agg) {
    g.seen != {} && Distinct(g.hops) && forall h :: h in g.hops <==> h.weight == WEIGHT && Hop(h.peer, h.ingress) in g.seen
  }

  ghost predicate GroupingOk(agg: Grouping) {
    forall s :: s in agg ==> agg[s] != map[] && forall p :: p in agg[s] ==> AggOk(agg[s][p])
  }

  function Seen(agg: Grouping, src: nat, prefix: nat): set<Hop> {
    if src in agg && prefix in agg[src] then agg[src][prefix].seen else {}
  }

  lemma AggGrows(g: Agg, first: Hop)
    requires g == Agg({}, []) || AggOk(g)
    requires first !in g.seen
    ensures AggOk(Agg(g.seen + {first}, g.hops + [NextHopOf(first)]))
  {
    DistinctSnoc(g.hops, NextHopOf(first));
  }

  method AddHop(agg0: Grouping, src: nat, prefix: nat, first: Hop) returns (agg: Grouping)
    requires GroupingOk(agg0)
    ensures GroupingOk(agg)
    ensures forall s, p :: Seen(agg, s, p) == Seen(agg0, s, p) + if s == src && p == prefix then {first} else {}
  {
    agg := agg0;
    if src !in agg {
      agg := agg[src := map[]];
    }
    var g := if prefix in agg[src] then agg[src][prefix] else Agg({}, []);
    if first !in g.seen {
      AggGrows(g, first);
      g := Agg(g.seen + {first}, g.hops + [NextHopOf(first)]);
    }
    hide AggOk;
    var byPrefix: map<nat, Agg> := agg[src][prefix := g];
    agg := agg[src := byPrefix];
  }

  method AddPair(b: Baseline, vips: Vips, agg0: Grouping, p: RoutePair, ghost done: set<RoutePair>) returns (agg: Grouping)
    requires p in b && GroupingOk(agg0)
    requires forall s, x :: Seen(agg0, s, x) == HopsAmong(b, vips, done, s, x)
    ensures GroupingOk(agg)
    ensures forall s, x :: Seen(agg, s, x) == HopsAmong(b, vips, done + {p}, s, x)
  {
    hide GroupingOk, Seen, HopsAmong;
    agg := agg0;
    if p.dst in vips {
      var prefix := vips[p.dst];
      var routes := b[p];
      for i := 0 to |routes|
        invariant GroupingOk(agg)
        invariant forall s, x ::
          (Seen(agg, s, x) == HopsAmong(b, vips, done, s, x) + if Serves(vips, p, s, x) then FirstHops(routes[..i]) else {})
      {
        ghost var before := agg;
        FirstHopsMore(routes, i);
        if |routes[i]| > 0 {
          agg := AddHop(agg, p.src, prefix, routes[i][0]);
        }
      }
      assert routes[..|routes|] == routes;
    }
    forall s, x
      ensures Seen(agg, s, x) == HopsAmong(b, vips, done + {p}, s, x)
    {
      HopsAmongMore(b, vips, done, p, s, x);
    }
  }

  lemma FirstHopsMore(routes: seq<seq<Hop>>, i: nat)
    requires i < |routes|
    ensures FirstHops(routes[..i + 1]) == FirstHops(routes[..i]) + if routes[i] != [] then {routes[i][0]} else {}
  {
    var r := routes[..i + 1];
    forall h
      ensures h in FirstHops(r) <==> h in FirstHops(routes[..i]) || (routes[i] != [] && h == routes[i][0])
    {
      if h in FirstHops(routes[..i]) {
        var j :| 0 <= j < i && routes[..i][j] != [] && routes[..i][j][0] == h;
        assert r[j] == routes[j];
      }
      if routes[i] != [] && h == routes[i][0] {
        assert r[i] == routes[i];
      }
      if h in FirstHops(r) {
        var j :| 0 <= j < |r| && r[j] != [] && r[j][0] == h;
        assert j < i ==> routes[..i][j] == r[j];
      }
    }
  }

  lemma HopsAmongMore(b: Baseline, vips: Vips, done: set<RoutePair>, p: RoutePair, s: nat, x: nat)
    requires p in b
    ensures HopsAmong(b, vips, done + {p}, s, x) ==
      HopsAmong(b, vips, done, s, x) + if Serves(vips, p, s, x) then FirstHops(b[p]) else {}
  {
  }

  method Aggregate(b: Baseline, vips: Vips) returns (agg: Grouping)
    ensures GroupingOk(agg)
    ensures forall s, x :: Seen(agg, s, x) == HopSet(b, vips, s, x)
  {
    agg := map[];
    var rest := b.Keys;
    while rest != {}
      invariant rest <= b.Keys && GroupingOk(agg)
      invariant forall s, x :: Seen(agg, s, x) == HopsAmong(b, vips, b.Keys - rest, s, x)
    {
      var p :| p in rest;
      agg := AddPair(b, vips, agg, p, b.Keys - rest);
      assert b.Keys - rest + {p} == b.Keys - (rest - {p});
      rest := rest - {p};
    }
    assert b.Keys - rest == b.Keys;
  }

  // ---------- entries ----------

  lemma HopBeforeIsOrder()
    ensures WeakOrder(HopBefore)
  {
  }

  lemma PrefixBeforeIsOrder()
    ensures WeakOrder(PrefixBefore)
  {
  }

  lemma HopsSort(g: Agg)
    requires AggOk(g)
    ensures var r := Sort(g.hops, HopBefore);
            r != [] && Sorted(r, HopBefore) && forall h :: h in r <==> h in g.hops
  {
    HopBeforeIsOrder();
    assert Separated(g.hops, HopBefore) by {
      forall i, j | 0 <= i < j < |g.hops|
        ensures HopBefore(g.hops[i], g.hops[j]) || HopBefore(g.hops[j], g.hops[i])
      {
        assert g.hops[i] != g.hops[j] && g.hops[i] in g.hops && g.hops[j] in g.hops;
      }
    }
    SortSorts(g.hops, HopBefore);
    SortElements(g.hops, HopBefore);
    var h :| h in g.seen;
    assert NextHopOf(h) in g.hops;
  }

  ghost predicate EntriesFor(dsts: map<nat, Agg>, done: set<nat>, es: seq<D.Entry>) {
    && |es| == |done| && TidyEntries(es)
    && (forall e :: e in es ==> e.prefix in done && e.prefix in dsts && e.hops == Sort(dsts[e.prefix].hops, HopBefore))
    && (forall x :: x in done ==> exists e :: e in es && e.prefix == x)
  }

  method EntriesOf(dsts: map<nat, Agg>) returns (es: seq<D.Entry>)
    requires forall p :: p in dsts ==> AggOk(dsts[p])
    ensures EntriesFor(dsts, dsts.Keys, es)
  {
    hide EntriesFor, AggOk;
    es := [];
    NoEntries(dsts);
    var rest := dsts.Keys;
    assert dsts.Keys - rest == {};
    while rest != {}
      invariant rest <= dsts.Keys && EntriesFor(dsts, dsts.Keys - rest, es)
    {
      var x :| x in rest;
      EntriesMore(dsts, dsts.Keys - rest, es, x);
      es := es + [D.Entry(x, Sort(dsts[x].hops, HopBefore))];
      assert dsts.Keys - rest + {x} == dsts.Keys - (rest - {x});
      rest := rest - {x};
    }
    assert dsts.Keys - rest == dsts.Keys;
  }

  lemma NoEntries(dsts: map<nat, Agg>)
    ensures EntriesFor(dsts, {}, [])
  {
  }

  lemma EntriesMore(dsts: map<nat, Agg>, done: set<nat>, es: seq<D.Entry>, x: nat)
    requires EntriesFor(dsts, done, es) && x in dsts && x !in done && AggOk(dsts[x])
    ensures EntriesFor(dsts, done + {x}, es + [D.Entry(x, Sort(dsts[x].hops, HopBefore))])
  {
    hide Sort, Sorted, Separated, HopBefore, AggOk;
    HopsSort(dsts[x]);
    var e := D.Entry(x, Sort(dsts[x].hops, HopBefore));
    var fs := es + [e];
    forall y | y in done + {x}
      ensures exists f :: f in fs && f.prefix == y
    {
      if y == x {
        assert e in fs;
      } else {
        var f :| f in es && f.prefix == y;
        assert f in fs;
      }
    }
    SeparatedMore(es, e);
  }

  lemma SeparatedMore(es: seq<D.Entry>, e: D.Entry)
    requires Separated(es, PrefixBefore) && forall f :: f in es ==> f.prefix != e.prefix
    ensures Separated(es + [e], PrefixBefore)
  {
    var fs := es + [e];
    forall i, j | 0 <= i < j < |fs|
      ensures PrefixBefore(fs[i], fs[j]) || PrefixBefore(fs[j], fs[i])
    {
      assert fs[i] == es[i] && es[i] in es;
      assert j < |es| ==> fs[j] == es[j];
    }
  }

  ghost predicate Converts(agg: Grouping, done: set<nat>, fib: D.Fib) {
    fib.Keys == done && done <= agg.Keys && forall s :: s in fib ==> EntriesFor(agg[s], agg[s].Keys, fib[s])
  }

  method BuildPerSourceFIB(b: Baseline, vips: Vips) returns (fib: D.Fib)
    ensures IsPerSource(b, vips, fib)
  {
    hide EntriesFor, AggOk, HopSet;
    var agg := Aggregate(b, vips);
    fib := map[];
    var rest := agg.Keys;
    while rest != {}
      invariant rest <= agg.Keys && Converts(agg, agg.Keys - rest, fib)
    {
      var s :| s in rest;
      var es := EntriesOf(agg[s]);
      fib := fib[s := es];
      rest := rest - {s};
    }
    assert agg.Keys - rest == agg.Keys;
    ConvertedIsPerSource(b, vips, agg, fib);
  }

  lemma ConvertedIsPerSource(b: Baseline, vips: Vips, agg: Grouping, fib: D.Fib)
    requires GroupingOk(agg) && Converts(agg, agg.Keys, fib)
    requires forall s, x :: Seen(agg, s, x) == HopSet(b, vips, s, x)
    ensures IsPerSource(b, vips, fib)
  {
    forall a, prefix, h
      ensures D.Sends(fib, a, prefix, h) <==> Wants(b, vips, a, prefix, h)
    {
      assert Seen(agg, a, prefix) == HopSet(b, vips, a, prefix);
      if a in agg {
        EntrySends(agg[a], fib[a], prefix, h);
      }
    }
    forall a | a in fib
      ensures fib[a] != [] && TidyEntries(fib[a])
    {
      assert EntriesFor(agg[a], agg[a].Keys, fib[a]) && agg[a] != map[];
      assert agg[a].Keys != {};
    }
  }

  lemma EntrySends(dsts: map<nat, Agg>, es: seq<D.Entry>, prefix: nat, h: D.NextHop)
    requires EntriesFor(dsts, dsts.Keys, es) && forall p :: p in dsts ==> AggOk(dsts[p])
    ensures (exists e :: e in es && e.prefix == prefix && h in e.hops) <==>
      prefix in dsts && h.weight == WEIGHT && Hop(h.peer, h.ingress) in dsts[prefix].seen
  {
    if prefix in dsts {
      HopsSort(dsts[prefix]);
      var e :| e in es && e.prefix == prefix;
      assert h in e.hops <==> h in dsts[prefix].hops;
    }
  }

  // ---------- the tables handed out ----------

  ghost predicate InOrder(fib: D.Fib) {
    forall a :: a in fib ==> Sorted(fib[a], PrefixBefore)
  }

  function SortTables(fib: D.Fib): D.Fib {
    map a | a in fib :: Sort(fib[a], PrefixBefore)
  }

  lemma SortedTables(fib: D.Fib)
    requires forall a :: a in fib ==> Separated(fib[a], PrefixBefore)
    ensures InOrder(SortTables(fib))
    ensures forall a, prefix, h :: D.Sends(SortTables(fib), a, prefix, h) <==> D.Sends(fib, a, prefix, h)
  {
    PrefixBeforeIsOrder();
    forall a | a in fib
      ensures Sorted(SortTables(fib)[a], PrefixBefore) && forall e :: e in SortTables(fib)[a] <==> e in fib[a]
    {
      SortSorts(fib[a], PrefixBefore);
      SortElements(fib[a], PrefixBefore);
    }
  }

  // Whatever the order in which the maps are walked, there is one table.
  lemma TableUnique(b: Baseline, vips: Vips, f: D.Fib, g: D.Fib)
    requires IsPerSource(b, vips, f) && IsPerSource(b, vips, g) && InOrder(f) && InOrder(g)
    ensures f == g
  {
    forall a
      ensures a in f <==> a in g
      ensures a in f ==> f[a] == g[a]
    {
      if a in f {
        EntriesWithin(b, vips, f, g, a);
      }
      if a in g {
        EntriesWithin(b, vips, g, f, a);
      }
      if a in f && a in g {
        PrefixBeforeIsOrder();
        SortedUnique(f[a], g[a], PrefixBefore);
      }
    }
  }

  lemma EntriesWithin(b: Baseline, vips: Vips, f: D.Fib, g: D.Fib, a: nat)
    requires IsPerSource(b, vips, f) && IsPerSource(b, vips, g) && a in f
    ensures a in g && forall e :: e in f[a] ==> e in g[a]
  {
    forall e | e in f[a]
      ensures a in g && e in g[a]
    {
      EntryWithin(b, vips, f, g, a, e);
    }
    assert f[a][0] in f[a];
  }

  lemma EntryWithin(b: Baseline, vips: Vips, f: D.Fib, g: D.Fib, a: nat, e: D.Entry)
    requires IsPerSource(b, vips, f) && IsPerSource(b, vips, g) && a in f && e in f[a]
    ensures a in g && e in g[a]
  {
    hide Wants;
    var h0 := e.hops[0];
    assert D.Sends(f, a, e.prefix, h0);
    assert D.Sends(g, a, e.prefix, h0);
    var e1 :| e1 in g[a] && e1.prefix == e.prefix && h0 in e1.hops;
    forall h
      ensures h in e.hops <==> h in e1.hops
    {
      HopIn(f, a, e, h);
      HopIn(g, a, e1, h);
      assert D.Sends(f, a, e.prefix, h) <==> Wants(b, vips, a, e.prefix, h);
    }
    HopBeforeIsOrder();
    SortedUnique(e.hops, e1.hops, HopBefore);
  }

  lemma HopIn(f: D.Fib, a: nat, e: D.Entry, h: D.NextHop)
    requires Tidy(f) && a in f && e in f[a]
    ensures D.Sends(f, a, e.prefix, h) <==> h in e.hops
  {
    if D.Sends(f, a, e.prefix, h) {
      var e1 :| e1 in f[a] && e1.prefix == e.prefix && h in e1.hops;
      var i :| 0 <= i < |f[a]| && f[a][i] == e;
      var j :| 0 <= j < |f[a]| && f[a][j] == e1;
      assert TidyEntries(f[a]);
      assert i == j;
    }
  }

  ghost predicate Leads(b: Baseline, vips: Vips, a: nat, c: nat) {
    exists prefix, h :: Wants(b, vips, a, prefix, h) && h.peer == c
  }

  ghost predicate Roams(b: Baseline, vips: Vips, w: seq<nat>) {
    forall i :: 0 <= i < |w| - 1 ==> Leads(b, vips, w[i], w[i + 1])
  }

  // The first hops form no loop, over all prefixes together.
  ghost predicate LoopFree(b: Baseline, vips: Vips) {
    forall w: seq<nat> :: Roams(b, vips, w) && |w| >= 2 ==> w[0] != w[|w| - 1]
  }

  // A walk over first hops, besides some that are gone.
  ghost predicate RoamsBeside(b: Baseline, vips: Vips, gone: set<D.Step>, w: seq<nat>) {
    forall i :: 0 <= i < |w| - 1 ==> Leads(b, vips, w[i], w[i + 1]) && D.Step(w[i], w[i + 1]) !in gone
  }

  // With some first hops gone, s still closed a loop.
  ghost predicate ClosesLoop(b: Baseline, vips: Vips, gone: set<D.Step>, s: D.Step) {
    exists w: seq<nat> ::
      && |w| >= 2 && RoamsBeside(b, vips, gone, w) && w[0] == w[|w| - 1] && Distinct(w[..|w| - 1])
      && s == D.Step(w[|w| - 2], w[|w| - 1])
  }

  // The steps were given up one after the other, each while it still closed a loop.
  ghost predicate GivenUp(b: Baseline, vips: Vips, cuts: seq<D.Step>) {
    forall i :: 0 <= i < |cuts| ==> ClosesLoop(b, vips, D.SetOf(cuts[..i]), cuts[i])
  }

  // The table sends to exactly the first hops of baseline routes, for every prefix, but for the
  // steps given up one after the other, each while it still closed a loop; no packet meets a node
  // twice whatever next-hops are picked; nothing is given up exactly when there was no loop.
  method ComputeFIB(b: Baseline, vips: Vips) returns (table: D.Fib, ghost cuts: seq<D.Step>)
    ensures Tidy(table) && InOrder(table)
    ensures forall a, prefix, h ::
      D.Sends(table, a, prefix, h) <==> Wants(b, vips, a, prefix, h) && D.Step(a, h.peer) !in cuts
    ensures GivenUp(b, vips, cuts)
    ensures forall prefix, w: seq<nat> :: D.Forwarded(table, prefix, w) ==> Distinct(w)
    ensures (cuts == [] <==> LoopFree(b, vips)) && (LoopFree(b, vips) <==> IsPerSource(b, vips, table))
  {
    hide Tidy, InOrder, Wants, D.Sends, D.Forwarded, LoopFree, IsPerSource, D.CutGraph, D.CutFib, GivenUp, D.InTurn;
    var perSrc := BuildPerSourceFIB(b, vips);
    var graph := D.BuildForwardingGraph(perSrc);
    var ok, cycle := D.ValidateDAG(graph);
    var forwarding := new D.Forwarding(perSrc, graph);
    cuts := [];
    D.NothingCut(graph, perSrc);
    if !ok {
      cuts := forwarding.PruneGraphCycles();
    }
    table := SortTables(forwarding.fib);
    Assembled(b, vips, perSrc, graph, cuts);
  }

  lemma CutsGivenUp(b: Baseline, vips: Vips, perSrc: D.Fib, g: D.Forwards, cuts: seq<D.Step>)
    requires IsPerSource(b, vips, perSrc) && D.InStep(perSrc, g) && D.InTurn(g, cuts)
    ensures GivenUp(b, vips, cuts)
  {
    hide D.CutGraph, D.InStep, IsPerSource, ClosesLoop;
    forall i | 0 <= i < |cuts|
      ensures ClosesLoop(b, vips, D.SetOf(cuts[..i]), cuts[i])
    {
      LoopBeside(b, vips, perSrc, g, D.SetOf(cuts[..i]), cuts[i]);
    }
  }

  lemma LoopBeside(b: Baseline, vips: Vips, perSrc: D.Fib, g: D.Forwards, gone: set<D.Step>, s: D.Step)
    requires IsPerSource(b, vips, perSrc) && D.InStep(perSrc, g) && D.OnCycle(D.CutGraph(g, gone), s)
    ensures ClosesLoop(b, vips, gone, s)
  {
    hide D.CutGraph, Wants, D.Sends;
    var w :| D.Cycle(D.CutGraph(g, gone), w) && s == D.Step(w[|w| - 2], w[|w| - 1]);
    forall i | 0 <= i < |w| - 1
      ensures Leads(b, vips, w[i], w[i + 1]) && D.Step(w[i], w[i + 1]) !in gone
    {
      assert D.Steps(D.CutGraph(g, gone), w[i], w[i + 1]);
      D.CutSteps(g, gone, w[i], w[i + 1]);
      assert D.Offers(perSrc, w[i], w[i + 1]);
      var prefix, h :| D.Sends(perSrc, w[i], prefix, h) && h.peer == w[i + 1];
      assert Wants(b, vips, w[i], prefix, h);
    }
    assert RoamsBeside(b, vips, gone, w);
  }

  // However many steps are given up, some next-hop stays, as long as no route of a node starts
  // at itself: the last loop that was broken keeps its other steps.
  lemma SomethingStays(b: Baseline, vips: Vips, cuts: seq<D.Step>) returns (a: nat, c: nat)
    requires GivenUp(b, vips, cuts) && exists x, y :: Leads(b, vips, x, y)
    requires forall x :: !Leads(b, vips, x, x)
    ensures Leads(b, vips, a, c) && D.Step(a, c) !in cuts
  {
    hide Leads;
    if cuts == [] {
      a, c :| Leads(b, vips, a, c);
    } else {
      var n := |cuts| - 1;
      assert ClosesLoop(b, vips, D.SetOf(cuts[..n]), cuts[n]);
      var w: seq<nat> :| |w| >= 2 && RoamsBeside(b, vips, D.SetOf(cuts[..n]), w) && w[0] == w[|w| - 1]
        && Distinct(w[..|w| - 1]) && cuts[n] == D.Step(w[|w| - 2], w[|w| - 1]);
      a, c := w[0], w[1];
      assert Leads(b, vips, w[0], w[0 + 1]) && D.Step(w[0], w[0 + 1]) !in D.SetOf(cuts[..n]);
      assert |w| > 2;
      assert w[..|w| - 1][0] != w[..|w| - 1][|w| - 2];
      assert cuts == cuts[..n] + [cuts[n]];
    }
  }

  lemma {:induction false} FilterSorted(s: seq<D.NextHop>, keep: D.NextHop -> bool)
    requires Sorted(s, HopBefore)
    ensures Sorted(D.Filter(s, keep), HopBefore)
  {
    if s != [] {
      var n := |s| - 1;
      FilterSorted(s[..n], keep);
      forall h | h in D.Filter(s[..n], keep)
        ensures HopBefore(h, s[n])
      {
        D.FilterIn(s[..n], keep, h);
        var i :| 0 <= i < n && s[i] == h;
      }
      if keep(s[n]) {
        HopBeforeIsOrder();
        AppendSorted(D.Filter(s[..n], keep), s[n], HopBefore);
      } else {
        assert D.Filter(s, keep) == D.Filter(s[..n], keep);
      }
    }
  }

  lemma TidySnoc(es: seq<D.Entry>, t: seq<D.Entry>, hops: seq<D.NextHop>)
    requires es != [] && TidyEntries(es) && TidyEntries(t) && hops != [] && Sorted(hops, HopBefore)
    requires forall e :: e in t ==> exists f :: f in es[..|es| - 1] && f.prefix == e.prefix
    ensures TidyEntries(t + [D.Entry(es[|es| - 1].prefix, hops)])
  {
    var n := |es| - 1;
    var e := D.Entry(es[n].prefix, hops);
    forall i | 0 <= i < |t|
      ensures PrefixBefore(t[i], e) || PrefixBefore(e, t[i])
    {
      assert t[i] in t;
      var g :| g in es[..n] && g.prefix == t[i].prefix;
      var j :| 0 <= j < n && es[j] == g;
      assert PrefixBefore(es[j], es[n]) || PrefixBefore(es[n], es[j]);
    }
  }

  lemma {:induction false} TrimTidy(es: seq<D.Entry>, a: nat, cut: set<D.Step>)
    requires TidyEntries(es)
    ensures TidyEntries(D.Trim(es, a, cut))
    ensures forall e :: e in D.Trim(es, a, cut) ==> exists f :: f in es && f.prefix == e.prefix
  {
    if es != [] {
      var n := |es| - 1;
      var f := es[n];
      assert es == es[..n] + [f];
      TrimTidy(es[..n], a, cut);
      var t, hops := D.Trim(es[..n], a, cut), D.Filter(f.hops, D.HopSpared(a, cut));
      FilterSorted(f.hops, D.HopSpared(a, cut));
      if hops == [] {
        assert D.Trim(es, a, cut) == t;
      } else {
        assert D.Trim(es, a, cut) == t + [D.Entry(f.prefix, hops)];
        TidySnoc(es, t, hops);
      }
    }
  }

  lemma CutTidy(fib: D.Fib, cut: set<D.Step>)
    requires Tidy(fib)
    ensures Tidy(D.CutFib(fib, cut))
  {
    forall a | a in D.CutFib(fib, cut)
      ensures D.CutFib(fib, cut)[a] != [] && TidyEntries(D.CutFib(fib, cut)[a])
    {
      TrimTidy(fib[a], a, cut);
    }
  }

  lemma SortedTidy(fib: D.Fib)
    requires Tidy(fib)
    ensures Tidy(SortTables(fib)) && InOrder(SortTables(fib))
    ensures forall a, prefix, h :: D.Sends(SortTables(fib), a, prefix, h) <==> D.Sends(fib, a, prefix, h)
  {
    SortedTables(fib);
    forall a | a in fib
      ensures SortTables(fib)[a] != [] && TidyEntries(SortTables(fib)[a])
    {
      SortElements(fib[a], PrefixBefore);
      assert Sorted(SortTables(fib)[a], PrefixBefore);
    }
  }

  lemma LoopFreeIsAcyclic(b: Baseline, vips: Vips, fib: D.Fib, g: D.Forwards)
    requires IsPerSource(b, vips, fib) && D.InStep(fib, g) && LoopFree(b, vips)
    ensures D.Acyclic(g)
  {
    forall w | D.Closed(g, w)
      ensures false
    {
      forall i | 0 <= i < |w| - 1
        ensures Leads(b, vips, w[i], w[i + 1])
      {
        assert D.Steps(g, w[i], w[i + 1]);
        var prefix, h :| D.Sends(fib, w[i], prefix, h) && h.peer == w[i + 1];
        assert Wants(b, vips, w[i], prefix, h);
      }
      assert Roams(b, vips, w);
    }
  }

  lemma ForwardedSame(f: D.Fib, g: D.Fib, prefix: nat, w: seq<nat>)
    requires forall a, h :: D.Sends(f, a, prefix, h) ==> D.Sends(g, a, prefix, h)
    requires D.Forwarded(f, prefix, w)
    ensures D.Forwarded(g, prefix, w)
  {
    forall i | 0 <= i < |w| - 1
      ensures D.Hands(g, prefix, w[i], w[i + 1])
    {
      assert D.Hands(f, prefix, w[i], w[i + 1]);
    }
  }

  lemma Assembled(b: Baseline, vips: Vips, perSrc: D.Fib, g: D.Forwards, cuts: seq<D.Step>)
    requires IsPerSource(b, vips, perSrc) && D.InStep(perSrc, g) && D.Acyclic(D.CutGraph(g, D.SetOf(cuts)))
    requires D.InTurn(g, cuts) && (cuts == [] <==> D.Acyclic(g)) && (cuts == [] ==> D.CutFib(perSrc, D.SetOf(cuts)) == perSrc)
    ensures var table := SortTables(D.CutFib(perSrc, D.SetOf(cuts)));
            && Tidy(table) && InOrder(table)
            && (forall a, prefix, h ::
                  D.Sends(table, a, prefix, h) <==> Wants(b, vips, a, prefix, h) && D.Step(a, h.peer) !in cuts)
            && (forall prefix, w: seq<nat> :: D.Forwarded(table, prefix, w) ==> Distinct(w))
            && (LoopFree(b, vips) <==> IsPerSource(b, vips, table)) && (cuts == [] <==> LoopFree(b, vips))
    ensures GivenUp(b, vips, cuts)
  {
    hide D.CutGraph, D.CutFib, Wants, Tidy, InOrder, D.InStep, D.Acyclic, D.Sends, LoopFree, D.InTurn, GivenUp;
    CutsGivenUp(b, vips, perSrc, g, cuts);
    var cut := D.SetOf(cuts);
    var f1 := D.CutFib(perSrc, cut);
    var table := SortTables(f1);
    CutTidy(perSrc, cut);
    SortedTidy(f1);
    forall a, prefix, h
      ensures D.Sends(f1, a, prefix, h) <==> Wants(b, vips, a, prefix, h) && D.Step(a, h.peer) !in cuts
    {
      D.CutSends(perSrc, cut, a, prefix, h);
    }
    forall prefix, w: seq<nat> | D.Forwarded(table, prefix, w)
      ensures Distinct(w)
    {
      ForwardedSame(table, f1, prefix, w);
      if |w| >= 2 {
        D.PacketsStop(perSrc, g, cut, prefix, w);
      }
    }
    if LoopFree(b, vips) {
      LoopFreeIsAcyclic(b, vips, perSrc, g);
    }
    if IsPerSource(b, vips, table) {
      D.CutInStep(perSrc, g, cut);
      SameStep(f1, table, D.CutGraph(g, cut));
      CompleteIsLoopFree(b, vips, table, D.CutGraph(g, cut));
    }
    if cuts == [] {
      CompleteIsLoopFree(b, vips, perSrc, g);
    }
  }

  lemma SameStep(f: D.Fib, f1: D.Fib, g: D.Forwards)
    requires D.InStep(f, g) && forall a, prefix, h :: D.Sends(f1, a, prefix, h) <==> D.Sends(f, a, prefix, h)
    ensures D.InStep(f1, g)
  {
    forall a, b
      ensures D.Offers(f, a, b) <==> D.Offers(f1, a, b)
    {
    }
  }

  // A transit's table for the optimiser's routes names only its own neighbours, each by an
  // ingress chosen for it.
  lemma NextHopsAreNeighbors(in0: Input, vips: Vips, a: nat, prefix: nat, h: D.NextHop)
    requires InputOk(in0) && Wants(BaselineIn(in0), vips, a, prefix, h)
    ensures a in NeighborsIn(in0) && Offers(NeighborsIn(in0)[a], h.peer, h.ingress) && h.weight == 100
  {
    hide InputOk, BaselineIn, NeighborsIn, Wants, Offers;
    var b := BaselineIn(in0);
    WantsMeans(b, vips, a, prefix, h);
    var dst: nat, i: nat :| StartsWith(b, vips, a, prefix, Hop(h.peer, h.ingress), dst, i);
    HopsAreNeighbors(in0, RoutePair(a, dst), i, 0);
  }

  // ---------- what loop freedom over all prefixes costs ----------

  lemma CompleteIsLoopFree(b: Baseline, vips: Vips, fib: D.Fib, g: D.Forwards)
    requires IsPerSource(b, vips, fib) && D.InStep(fib, g) && D.Acyclic(g)
    ensures LoopFree(b, vips)
  {
    forall w: seq<nat> | Roams(b, vips, w) && |w| >= 2
      ensures w[0] != w[|w| - 1]
    {
      forall i | 0 <= i < |w| - 1
        ensures D.Steps(g, w[i], w[i + 1])
      {
        assert Leads(b, vips, w[i], w[i + 1]);
        var prefix, h :| Wants(b, vips, w[i], prefix, h) && h.peer == w[i + 1];
        assert D.Sends(fib, w[i], prefix, h);
      }
      assert !D.Closed(g, w);
    }
  }

  lemma EdgeChain(n: Net, e: PrunedEdge)
    requires e in Pruned(n) && e.src != e.dst
    ensures Chain(n, [e.src, e.dst]) && Distinct([e.src, e.dst])
  {
    assert Joined(n, e.src, e.dst);
  }

  // Joined transits route to each other.
  lemma EdgeRoutes(in0: Input, e: PrunedEdge)
    requires InputOk(in0) && e in EdgesIn(in0) && e.src != e.dst && in0.routeK > 0
    ensures RoutePair(e.src, e.dst) in BaselineIn(in0)
  {
    hide Kept, InputOk, PathsFor, ArcsIn, IsSplit, SimplePath, IsKShortest, Pruned, NetIn, TransitsIn, BaselineIn, Chain, Distinct;
    var n := NetIn(in0);
    EdgeEnds(in0, e);
    EdgeChain(n, e);
    ArcsInSplit(in0);
    var q := ChainPath(n, ArcsIn(in0), [e.src, e.dst]);
    PathsForValid(in0, e.src, e.dst);
    NonemptyList(ArcsIn(in0), Core(e.src), Core(e.dst), in0.routeK, PathsFor(in0, e.src, e.dst), q);
    ConnectedRoutes(in0, e.src, e.dst);
  }

  lemma EdgeEnds(in0: Input, e: PrunedEdge)
    requires e in EdgesIn(in0)
    ensures e.src in TransitsIn(in0) && e.dst in TransitsIn(in0)
  {
    assert Kept(NetIn(in0), e);
  }

  lemma ConnectedRoutes(in0: Input, a: nat, b: nat)
    requires a in TransitsIn(in0) && b in TransitsIn(in0) && a != b && PathsFor(in0, a, b) != []
    ensures RoutePair(a, b) in BaselineIn(in0)
  {
    assert RoutePair(a, b) in Connected(in0);
  }

  lemma RouteCountPositive(in0: Input, p: RoutePair)
    requires InputOk(in0) && p in BaselineIn(in0)
    ensures in0.routeK > 0 && p.src in TransitsIn(in0) && p.dst in TransitsIn(in0)
  {
    ConnectedEnds(in0, p);
    PathsForValid(in0, p.src, p.dst);
  }

  // The first hop of a route is itself a destination, and routes back.
  lemma FirstHopBack(in0: Input, p: RoutePair, i: nat)
    requires InputOk(in0) && p in BaselineIn(in0) && i < |BaselineIn(in0)[p]|
    ensures BaselineIn(in0)[p][i] != []
    ensures RoutePair(BaselineIn(in0)[p][i][0].node, p.src) in BaselineIn(in0)
  {
    hide BaselineIn, InputOk;
    RouteCountPositive(in0, p);
    var hops := BaselineIn(in0)[p][i];
    BaselineRealisable(in0, p, i);
    FollowsStep(EdgesIn(in0), p.src, hops, 0);
    var e :| e in EdgesIn(in0) && e.src == p.src && e.dst == hops[0].node;
    EdgeRoutes(in0, e);
    BaselineSymmetric(in0, p.src, e.dst);
  }

  lemma NextLeads(in0: Input, vips: Vips, p: RoutePair) returns (c: nat)
    requires InputOk(in0) && p in BaselineIn(in0) && p.dst in vips
    ensures Leads(BaselineIn(in0), vips, p.src, c) && RoutePair(c, p.src) in BaselineIn(in0)
  {
    var b := BaselineIn(in0);
    BaselineValid(in0, p);
    FirstHopBack(in0, p, 0);
    var h: Hop := b[p][0][0];
    c := h.node;
    assert h in FirstHops(b[p]);
    assert Serves(vips, p, p.src, vips[p.dst]);
    assert Wants(b, vips, p.src, vips[p.dst], NextHopOf(h));
  }

  lemma RoamsFurther(b: Baseline, vips: Vips, a: nat, w: seq<nat>)
    requires w != [] && Roams(b, vips, w) && Leads(b, vips, a, w[0])
    ensures Roams(b, vips, [a] + w)
  {
    var v := [a] + w;
    forall i | 0 <= i < |v| - 1
      ensures Leads(b, vips, v[i], v[i + 1])
    {
      if i > 0 {
        assert Leads(b, vips, w[i - 1], w[i - 1 + 1]);
      }
    }
  }

  lemma {:induction false} LongWalk(in0: Input, vips: Vips, p: RoutePair, n: nat) returns (w: seq<nat>)
    requires InputOk(in0) && p in BaselineIn(in0) && TransitsIn(in0) <= vips.Keys
    ensures |w| == n + 1 && w[0] == p.src && Roams(BaselineIn(in0), vips, w)
    ensures forall v :: v in w ==> v in TransitsIn(in0)
    decreases n
  {
    hide InputOk, BaselineIn, TransitsIn, Leads, Roams;
    RouteCountPositive(in0, p);
    if n == 0 {
      w := [p.src];
      OneNodeRoams(BaselineIn(in0), vips, p.src);
    } else {
      var c := NextLeads(in0, vips, p);
      var rest := LongWalk(in0, vips, RoutePair(c, p.src), n - 1);
      w := [p.src] + rest;
      RoamsFurther(BaselineIn(in0), vips, p.src, rest);
    }
  }

  lemma OneNodeRoams(b: Baseline, vips: Vips, a: nat)
    ensures Roams(b, vips, [a])
  {
  }

  // A walk longer than there are nodes meets one twice.
  lemma RoamersLoop(b: Baseline, vips: Vips, w: seq<nat>, nodes: set<nat>)
    requires Roams(b, vips, w) && |w| > |nodes| && forall v :: v in w ==> v in nodes
    ensures !LoopFree(b, vips)
  {
    hide Leads;
    if LoopFree(b, vips) {
      forall i, j | 0 <= i < j < |w|
        ensures w[i] != w[j]
      {
        var v := w[i..j + 1];
        forall k | 0 <= k < |v| - 1
          ensures Leads(b, vips, v[k], v[k + 1])
        {
          assert Leads(b, vips, w[i + k], w[i + k + 1]);
        }
        assert Roams(b, vips, v);
      }
      DistinctFits(w, nodes);
    }
  }

  // Routes come in both directions and the check covers all prefixes at once, so as soon as
  // the optimiser finds any route, the first hops form a loop and next-hops are lost.
  lemma BaselinesLoop(in0: Input, vips: Vips, p: RoutePair)
    requires InputOk(in0) && p in BaselineIn(in0) && TransitsIn(in0) <= vips.Keys
    ensures !LoopFree(BaselineIn(in0), vips)
  {
    hide InputOk, BaselineIn, TransitsIn, LoopFree, Roams;
    var w := LongWalk(in0, vips, p, |TransitsIn(in0)|);
    RoamersLoop(BaselineIn(in0), vips, w, TransitsIn(in0));
  }

  lemma NoSelfLead(in0: Input, vips: Vips, a: nat)
    requires InputOk(in0)
    ensures !Leads(BaselineIn(in0), vips, a, a)
  {
    hide InputOk, BaselineIn, Follows;
    var b := BaselineIn(in0);
    forall prefix, h | Wants(b, vips, a, prefix, h)
      ensures h.peer != a
    {
      var p, x :| p in b.Keys && p in b && Serves(vips, p, a, prefix) && x in FirstHops(b[p]) && x == Hop(h.peer, h.ingress);
      var i :| 0 <= i < |b[p]| && b[p][i] != [] && b[p][i][0] == x;
      BaselineRealisable(in0, p, i);
    }
  }

  // Loops or not, a table of the optimiser's routes keeps some next-hop.
  lemma NeverEmptied(in0: Input, vips: Vips, p: RoutePair, cuts: seq<D.Step>) returns (a: nat, c: nat)
    requires InputOk(in0) && p in BaselineIn(in0) && p.dst in vips && GivenUp(BaselineIn(in0), vips, cuts)
    ensures Leads(BaselineIn(in0), vips, a, c) && D.Step(a, c) !in cuts
  {
    hide InputOk, BaselineIn, Leads, GivenUp;
    var d := NextLeads(in0, vips, p);
    forall x
      ensures !Leads(BaselineIn(in0), vips, x, x)
    {
      NoSelfLead(in0, vips, x);
    }
    a, c := SomethingStays(BaselineIn(in0), vips, cuts);
  }
}
