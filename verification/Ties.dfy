// What ties do to cached route lists (internal/controller/topology/incremental.go:14-18,
// kpaths.go:77-83, 134-141, 193-212): among equally short paths the search prefers the one
// whose last vertex but one was settled first, the candidates the one that is least as a
// sequence. So a list kept because none of its edges changed need not be what a recompute
// would give, even though it stays a valid list.
module Ties {
  import opened Paths
  import opened Dijkstra
  import opened KShortest
  import opened KLists
  import opened SplitGraph
  import opened Prune
  import opened Assign
  import opened Optimizer
  import opened Incremental
  import opened Mesh

  // From 0 to 1 there is one best route around 2. Three more routes are one heavier, two of
  // them around 2 and one straight, while the second link from 0 to 2 weighs 2.
  function Even(w: nat): Quality {
    map[QKey(0, 2, 0) := 1, QKey(0, 2, 1) := w, QKey(2, 1, 0) := 1, QKey(2, 1, 1) := 2, QKey(0, 1, 1) := 3]
  }

  function InputAt(w: nat): Input {
    MeshOf(Even(w), 2)
  }

  function Raise(): EdgeDelta {
    EdgeDelta(0, 2, 1, Degraded, 3)
  }

  lemma RaiseIs()
    ensures ApplyEvents(Even(2), [Raise()]) == Even(3)
    ensures Changes([Raise()], Even(2)) == ChangeSet({Second(2)}, false)
    ensures NewInput(InputAt(2), [Raise()], 0) == InputAt(3)
  {
    OneEvent(Even(2), Raise());
    assert Even(2)[QKey(0, 2, 1) := 3] == Even(3);
  }

  const C0 := Core(0)
  const C1 := Core(1)
  const C2 := Core(2)

  const BEST: Path := Detour(0, 2, 0, 1, 0)
  const LATER: Path := Detour(0, 2, 0, 1, 1)
  const ASIDE: Path := Detour(0, 2, 1, 1, 0)
  const STRAIGHT: Path := Direct(0, 1, 1)

  // ---------- the routes from 0 to 1 ----------

  lemma SixRoutes(w: nat, p: Path)
    requires SimplePath(ArcsIn(InputAt(w)), C0, C1, p)
    ensures p in [BEST, LATER, ASIDE, STRAIGHT, Direct(0, 1, 0), Detour(0, 2, 1, 1, 1)]
  {
    hide ArcsIn, SimplePath, Direct, Detour;
    RouteForms(Even(w), 2, 0, 1, 2, p);
    if e: nat :| e < IngCount(1) && p == Direct(0, 1, e) {
      assert e == 0 || e == 1;
    } else {
      var f: nat, e: nat :| f < IngCount(2) && e < IngCount(1) && p == Detour(0, 2, f, 1, e);
      assert (e == 0 || e == 1) && (f == 0 || f == 1);
    }
  }

  lemma SixWeights(w: nat)
    ensures var a := ArcsIn(InputAt(w));
      && SimplePath(a, C0, C1, BEST) && SimplePath(a, C0, C1, LATER) && SimplePath(a, C0, C1, STRAIGHT)
      && PathWeight(a, BEST) == 2 && PathWeight(a, LATER) == 3 && PathWeight(a, ASIDE) == w + 1
      && PathWeight(a, STRAIGHT) == 3 && PathWeight(a, Direct(0, 1, 0)) == DEFAULT_W
      && PathWeight(a, Detour(0, 2, 1, 1, 1)) == w + 2
  {
    hide ArcsIn, SimplePath, PathWeight, Direct, Detour;
    var q := Even(w);
    DirectIs(q, 2, 0, 1, 0);
    DirectIs(q, 2, 0, 1, 1);
    DetourIs(q, 2, 0, 2, 0, 1, 0);
    DetourIs(q, 2, 0, 2, 0, 1, 1);
    DetourIs(q, 2, 0, 2, 1, 1, 0);
    DetourIs(q, 2, 0, 2, 1, 1, 1);
  }

  // The first link of each route decides whether it survives the removal of the first link to 2.
  ghost const REMOVED: set<Link> := {Link(C0, Ing(2, 0))}

  lemma FirstLinks()
    ensures |BEST| == |LATER| == 5 && BEST[0] == C0 && BEST[1] == Ing(2, 0) && LATER[0] == C0 && LATER[1] == Ing(2, 0)
    ensures BEST != LATER && BEST != STRAIGHT && BEST != ASIDE && LATER != STRAIGHT && LATER != ASIDE
  {
  }

  lemma ArcsAre(w: nat)
    ensures WellFormed(GraphIn(InputAt(w))) && Paths.ArcsOf(GraphIn(InputAt(w))) == ArcsIn(InputAt(w))
  {
    GraphInOk(InputAt(w));
  }

  lemma FirstPath(w: nat)
    requires w >= 2
    ensures Shortest(GraphIn(InputAt(w)), C0, C1, {}, {}) == Found(BEST, 2)
  {
    hide GraphIn, ArcsIn, SimplePath, PathWeight, Direct, Detour, Shortest, WellFormed;
    var a := ArcsIn(InputAt(w));
    ArcsAre(w);
    SixWeights(w);
    MaskNothing(a);
    forall r | SimplePath(a, C0, C1, r) && r != BEST
      ensures PathWeight(a, BEST) < PathWeight(a, r)
    {
      SixRoutes(w, r);
    }
    FindsLeast(GraphIn(InputAt(w)), C0, C1, {}, {}, BEST);
  }

  lemma MaskedSimple(a: Arcs, removedV: set<Vertex>, removedE: set<Link>, src: Vertex, dst: Vertex, p: Path)
    requires SimplePath(Mask(a, removedV, removedE), src, dst, p)
    ensures SimplePath(a, src, dst, p)
    ensures forall i :: 0 < i < |p| ==> p[i] !in removedV && Link(p[i - 1], p[i]) !in removedE
  {
    MaskedWalk(a, removedV, removedE, p);
    forall i | 0 < i < |p|
      ensures p[i] !in removedV && Link(p[i - 1], p[i]) !in removedE
    {
      assert Link(p[i - 1], p[i - 1 + 1]) in Mask(a, removedV, removedE);
    }
  }

  lemma StraightMasked(w: nat)
    ensures SimplePath(Mask(ArcsIn(InputAt(w)), {}, REMOVED), C0, C1, STRAIGHT)
  {
    hide ArcsIn, SimplePath;
    MeshArc(Even(w), 2, 0, 1, 1);
    DirectSimple(Mask(ArcsIn(InputAt(w)), {}, REMOVED), 0, 1, 1);
  }

  // Once the second link to 2 is raised, the straight route is the only one that is left.
  lemma SpurAt0Raised()
    ensures Shortest(GraphIn(InputAt(3)), C0, C1, {}, REMOVED) == Found(STRAIGHT, 3)
  {
    hide GraphIn, ArcsIn, SimplePath, PathWeight, Direct, Detour, Shortest, WellFormed, Mask;
    var a := ArcsIn(InputAt(3));
    ArcsAre(3);
    SixWeights(3);
    FirstLinks();
    StraightMasked(3);
    forall r | SimplePath(Mask(a, {}, REMOVED), C0, C1, r) && r != STRAIGHT
      ensures PathWeight(a, STRAIGHT) < PathWeight(a, r)
    {
      MaskedSimple(a, {}, REMOVED, C0, C1, r);
      SixRoutes(3, r);
    }
    FindsLeast(GraphIn(InputAt(3)), C0, C1, {}, REMOVED, STRAIGHT);
  }

  // ---------- the tie ----------

  const D := DEFAULT_W

  ghost const S0 := Start(C0).(queue := multiset{}, done := {C0})

  ghost const Q0 := multiset{Item(D, Ing(1, 0)), Item(3, Ing(1, 1))}

  ghost function S1(): (s: Search)
    ensures s.done == {C0} && s.queue == Q0 + multiset{Item(2, Ing(2, 1))}
    ensures s.dist.Keys == s.path.Keys == {C0, Ing(1, 0), Ing(1, 1), Ing(2, 1)}
    ensures s.dist[Ing(1, 0)] == D && s.dist[Ing(1, 1)] == 3 && s.path[Ing(2, 1)] == [C0, Ing(2, 1)]
  {
    var s := Met(S0, C0, 0, Edge(Ing(1, 0), D));
    var t := Met(s, C0, 0, Edge(Ing(1, 1), 3));
    Met(t, C0, 0, Edge(Ing(2, 1), 2))
  }

  ghost function S2(): (s: Search)
    ensures s.done == {C0, Ing(2, 1)} && s.queue == Q0 + multiset{Item(2, C2)}
    ensures s.dist.Keys == s.path.Keys == {C0, Ing(1, 0), Ing(1, 1), Ing(2, 1), C2}
    ensures s.dist[Ing(1, 0)] == D && s.dist[Ing(1, 1)] == 3 && s.path[C2] == [C0, Ing(2, 1), C2]
  {
    Met(S1().(queue := Q0, done := {C0, Ing(2, 1)}), Ing(2, 1), 2, Edge(C2, 0))
  }

  ghost const Q3 := Q0 + multiset{Item(2 + D, Ing(0, 0))}

  ghost function S3(): (s: Search)
    ensures s.done == {C0, Ing(2, 1), C2} && s.queue == Q3 + multiset{Item(3, Ing(1, 0))}
    ensures Ing(1, 0) in s.path && Ing(1, 1) in s.path && Ing(0, 0) in s.path && C1 !in s.dist
    ensures s.path[Ing(1, 0)] == [C0, Ing(2, 1), C2, Ing(1, 0)]
  {
    var s := Met(S2().(queue := Q0, done := {C0, Ing(2, 1), C2}), C2, 2, Edge(Ing(0, 0), D));
    Met(s, C2, 2, Edge(Ing(1, 0), 1))
  }

  ghost function S4(): (s: Search)
    ensures s.done == {C0, Ing(2, 1), C2, Ing(1, 0)} && s.queue == Q3 + multiset{Item(3, C1)}
    ensures Ing(1, 0) in s.path && Ing(1, 1) in s.path && Ing(0, 0) in s.path && C1 in s.path && C1 in s.dist
    ensures s.path[C1] == ASIDE && s.dist[C1] == 3
  {
    Met(S3().(queue := Q3, done := {C0, Ing(2, 1), C2, Ing(1, 0)}), Ing(1, 0), 3, Edge(C1, 0))
  }

  lemma Tolls()
    ensures var q := Even(2);
      && Toll(q, 0, 1, 0) == Edge(Ing(1, 0), D) && Toll(q, 0, 1, 1) == Edge(Ing(1, 1), 3)
      && Toll(q, 0, 2, 0) == Edge(Ing(2, 0), 1) && Toll(q, 0, 2, 1) == Edge(Ing(2, 1), 2)
      && Toll(q, 2, 0, 0) == Edge(Ing(0, 0), D) && Toll(q, 2, 1, 0) == Edge(Ing(1, 0), 1) && Toll(q, 2, 1, 1) == Edge(Ing(1, 1), 2)
  {
  }

  lemma RelaxFrom0()
    ensures Relax(S0, C0, 0, Out(GraphIn(InputAt(2)), C0), {}, REMOVED) == S1()
  {
    hide Relax, Out, GraphIn, Even, Toll;
    OutOf0(Even(2), 2);
    Tolls();
    RelaxFour(S0, C0, 0, [Edge(Ing(1, 0), D), Edge(Ing(1, 1), 3), Edge(Ing(2, 0), 1), Edge(Ing(2, 1), 2)], {}, REMOVED);
  }

  lemma RelaxFromIngress()
    ensures Relax(S1().(queue := Q0, done := {C0, Ing(2, 1)}), Ing(2, 1), 2, Out(GraphIn(InputAt(2)), Ing(2, 1)), {}, REMOVED) == S2()
  {
    hide Relax, Out, GraphIn, S1;
    OutOfIng(Even(2), 2, 0, 2, 1);
    RelaxOne(S1().(queue := Q0, done := {C0, Ing(2, 1)}), Ing(2, 1), 2, Edge(C2, 0), {}, REMOVED);
  }

  lemma RelaxFrom2()
    ensures Relax(S2().(queue := Q0, done := {C0, Ing(2, 1), C2}), C2, 2, Out(GraphIn(InputAt(2)), C2), {}, REMOVED) == S3()
  {
    hide Relax, Out, GraphIn, S2, Even, Toll;
    OutOf2(Even(2), 2);
    Tolls();
    var t := S2().(queue := Q0, done := {C0, Ing(2, 1), C2});
    RelaxThree(t, C2, 2, [Edge(Ing(0, 0), D), Edge(Ing(1, 0), 1), Edge(Ing(1, 1), 2)], {}, REMOVED);
  }

  lemma RelaxFromEntry()
    ensures Relax(S3().(queue := Q3, done := {C0, Ing(2, 1), C2, Ing(1, 0)}), Ing(1, 0), 3, Out(GraphIn(InputAt(2)), Ing(1, 0)), {}, REMOVED) == S4()
  {
    hide Relax, Out, GraphIn, S3;
    OutOfIng(Even(2), 2, 0, 1, 0);
    RelaxOne(S3().(queue := Q3, done := {C0, Ing(2, 1), C2, Ing(1, 0)}), Ing(1, 0), 3, Edge(C1, 0), {}, REMOVED);
  }

  // The search can be taken up at s.
  ghost predicate GoesOnFrom(s: Search) {
    var g, all := GraphIn(InputAt(2)), Universe(GraphIn(InputAt(2)), C0);
    && Dijkstra.Closed(g, all) && Dijkstra.Queued(all, Start(C0)) && Dijkstra.Queued(all, s)
    && Run(g, all, C1, {}, REMOVED, Start(C0)) == Run(g, all, C1, {}, REMOVED, s)
  }

  lemma FirstTurns()
    ensures GoesOnFrom(S2())
  {
    hide Relax, Run, Next, GraphIn, Out, S1, S2, Universe;
    var g, all := GraphIn(InputAt(2)), Universe(GraphIn(InputAt(2)), C0);
    UniverseCloses(g, C0);
    Turn(g, C1, {}, REMOVED, Start(C0), Item(0, C0), multiset{});
    RelaxFrom0();
    assert {} + {C0} == {C0};
    RunTurn(g, all, C1, {}, REMOVED, Start(C0), S1());
    Turn(g, C1, {}, REMOVED, S1(), Item(2, Ing(2, 1)), Q0);
    RelaxFromIngress();
    assert {C0} + {Ing(2, 1)} == {C0, Ing(2, 1)};
    RunTurn(g, all, C1, {}, REMOVED, S1(), S2());
  }

  lemma LastTurns()
    ensures GoesOnFrom(S4().(queue := Q3, done := S4().done + {C1}))
  {
    hide Relax, Run, Next, GraphIn, Out, S2, S3, S4, Universe;
    var g, all := GraphIn(InputAt(2)), Universe(GraphIn(InputAt(2)), C0);
    FirstTurns();
    Turn(g, C1, {}, REMOVED, S2(), Item(2, C2), Q0);
    RelaxFrom2();
    assert {C0, Ing(2, 1)} + {C2} == {C0, Ing(2, 1), C2};
    RunTurn(g, all, C1, {}, REMOVED, S2(), S3());
    Turn(g, C1, {}, REMOVED, S3(), Item(3, Ing(1, 0)), Q3);
    RelaxFromEntry();
    assert {C0, Ing(2, 1), C2} + {Ing(1, 0)} == {C0, Ing(2, 1), C2, Ing(1, 0)};
    RunTurn(g, all, C1, {}, REMOVED, S3(), S4());
    Turn(g, C1, {}, REMOVED, S4(), Item(3, C1), Q3);
    RunTurn(g, all, C1, {}, REMOVED, S4(), S4().(queue := Q3, done := S4().done + {C1}));
  }

  // With the tie: the first ingress of 1 is settled before the second, from around 2.
  lemma SpurAt0Tied()
    ensures Shortest(GraphIn(InputAt(2)), C0, C1, {}, REMOVED) == Found(ASIDE, 3)
  {
    hide Run, GraphIn, S4, Shortest, Universe;
    LastTurns();
    SearchEnds(GraphIn(InputAt(2)), C0, C1, {}, REMOVED, S4().(queue := Q3, done := S4().done + {C1}));
  }

  // ---------- the other spurs ----------

  // No walk leaves a vertex all of whose arcs are removed.
  lemma DeadEnd(g: Graph, src: Vertex, dst: Vertex, removedV: set<Vertex>, removedE: set<Link>)
    requires WellFormed(g) && src !in removedV && dst !in removedV && src != dst
    requires forall l :: l in Mask(Paths.ArcsOf(g), removedV, removedE) ==> l.from != src
    ensures Shortest(g, src, dst, removedV, removedE) == NotFound
  {
    hide Shortest, Mask, Paths.ArcsOf, IsWalk;
    ShortestIsShortest(g, src, dst, removedV, removedE);
    var f := Shortest(g, src, dst, removedV, removedE);
    if f.Found? {
      FirstArc(Mask(Paths.ArcsOf(g), removedV, removedE), src, dst, f.path);
    }
  }

  lemma FirstArc(a: Arcs, src: Vertex, dst: Vertex, p: Path)
    requires SimplePath(a, src, dst, p) && src != dst
    ensures exists l :: l in a && l.from == src
  {
    assert Link(p[0], p[0 + 1]) in a;
  }

  lemma IngressDead(w: nat, y: nat, removedV: set<Vertex>)
    requires Ing(y, 0) !in removedV && C1 !in removedV
    ensures Shortest(GraphIn(InputAt(w)), Ing(y, 0), C1, removedV, {Link(Ing(y, 0), Core(y))}) == NotFound
  {
    hide GraphIn, ArcsIn, Shortest, EdgesIn;
    var in0 := InputAt(w);
    ArcsAre(w);
    ArcsInSplit(in0);
    forall l | l in Mask(ArcsIn(in0), removedV, {Link(Ing(y, 0), Core(y))})
      ensures l.from != Ing(y, 0)
    {
      var e := ArcFrom(EdgesIn(in0), ArcsIn(in0), l);
    }
    DeadEnd(GraphIn(in0), Ing(y, 0), C1, removedV, {Link(Ing(y, 0), Core(y))});
  }

  // From 2, with what leads there and the first link to 1 removed.
  lemma SpurAt2(w: nat)
    ensures Shortest(GraphIn(InputAt(w)), C2, C1, {C0, Ing(2, 0)}, {Link(C2, Ing(1, 0))}) == Found(Direct(2, 1, 1), 2)
  {
    hide GraphIn, ArcsIn, SimplePath, PathWeight, Shortest, WellFormed, Mask, Direct, Detour;
    var a, rv, re := ArcsIn(InputAt(w)), {C0, Ing(2, 0)}, {Link(C2, Ing(1, 0))};
    ArcsAre(w);
    DirectIs(Even(w), 2, 2, 1, 1);
    Masked2(w);
    forall r | SimplePath(Mask(a, rv, re), C2, C1, r)
      ensures r == Direct(2, 1, 1)
    {
      MaskedSimple(a, rv, re, C2, C1, r);
      RouteForms(Even(w), 2, 2, 1, 0, r);
      if e: nat :| e < IngCount(1) && r == Direct(2, 1, e) {
        Landmarks(2, 1, e, 0, 0);
      } else {
        var f: nat, e: nat :| f < IngCount(0) && e < IngCount(1) && r == Detour(2, 0, f, 1, e);
        Landmarks(2, 1, e, 0, f);
      }
    }
    FindsLeast(GraphIn(InputAt(w)), C2, C1, rv, re, Direct(2, 1, 1));
  }

  lemma Landmarks(x: nat, y: nat, e: nat, z: nat, f: nat)
    ensures |Direct(x, y, e)| == 3 && Direct(x, y, e)[0] == Core(x) && Direct(x, y, e)[1] == Ing(y, e)
    ensures |Detour(x, z, f, y, e)| == 5 && Detour(x, z, f, y, e)[2] == Core(z)
  {
  }

  lemma Masked2(w: nat)
    ensures SimplePath(Mask(ArcsIn(InputAt(w)), {C0, Ing(2, 0)}, {Link(C2, Ing(1, 0))}), C2, C1, Direct(2, 1, 1))
  {
    hide ArcsIn, SimplePath;
    MeshArc(Even(w), 2, 2, 1, 1);
    DirectSimple(Mask(ArcsIn(InputAt(w)), {C0, Ing(2, 0)}, {Link(C2, Ing(1, 0))}), 2, 1, 1);
  }

  // ---------- the lists ----------

  lemma Roots()
    ensures BEST[..0] == [] && BEST[..1] == [C0] && BEST[..2] == [C0, Ing(2, 0)] && BEST[..3] == Direct(0, 2, 0)
    ensures SpurV(BEST, 0) == {} && SpurV(BEST, 1) == {C0} && SpurV(BEST, 2) == {C0, Ing(2, 0)}
    ensures SpurV(BEST, 3) == {C0, Ing(2, 0), C2}
  {
    assert BEST[..1] == [C0] && BEST[..2] == [C0, Ing(2, 0)] && BEST[..3] == Direct(0, 2, 0);
  }

  lemma RemovedLinks()
    ensures SpurE([BEST], BEST, 0) == REMOVED && SpurE([BEST], BEST, 1) == {Link(Ing(2, 0), C2)}
    ensures SpurE([BEST], BEST, 2) == {Link(C2, Ing(1, 0))} && SpurE([BEST], BEST, 3) == {Link(Ing(1, 0), C1)}
  {
  }

  // The candidates after each spur: one found at 0, and LATER found at 2.
  lemma SpursAre(w: nat, spur: Path)
    requires spur != BEST && spur != LATER && Shortest(GraphIn(InputAt(w)), C0, C1, {}, REMOVED) == Found(spur, 3)
    ensures WellFormed(GraphIn(InputAt(w)))
    ensures Spurs(GraphIn(InputAt(w)), C1, [BEST], [], 4) == [Candidate(spur, 3), Candidate(LATER, 3)]
  {
    hide GraphIn, ArcsIn, PathWeight, Shortest, SpurV, SpurE, WellFormed, Direct;
    var g, r, a := GraphIn(InputAt(w)), [BEST], ArcsIn(InputAt(w));
    var c0, c1 := Candidate(spur, 3), Candidate(LATER, 3);
    ArcsAre(w);
    Roots();
    RemovedLinks();
    SixWeights(w);
    PrefixWeights(w);
    IngressDead(w, 2, {C0});
    SpurAt2(w);
    IngressDead(w, 1, {C0, Ing(2, 0), C2});
    assert [] + spur == spur && |BEST| == 5;
    assert AddSpur(g, C1, r, [], 0) == [c0];
    assert AddSpur(g, C1, r, [c0], 1) == [c0];
    assert AddSpur(g, C1, r, [c0], 2) == [c0, c1];
    assert AddSpur(g, C1, r, [c0, c1], 3) == [c0, c1];
    assert Spurs(g, C1, r, [], 1) == [c0];
    assert Spurs(g, C1, r, [], 2) == [c0];
    assert Spurs(g, C1, r, [], 3) == [c0, c1];
  }

  lemma PrefixWeights(w: nat)
    ensures var a := ArcsIn(InputAt(w));
      PathWeight(a, [C0]) == 0 && PathWeight(a, Direct(0, 2, 0)) == 1
    ensures [C0, Ing(2, 0)] + Direct(2, 1, 1) == LATER
  {
    hide ArcsIn, SimplePath;
    DirectIs(Even(w), 2, 0, 2, 0);
  }

  lemma BestOfTwo(c0: Candidate, c1: Candidate)
    ensures BestIndex([c0, c1], 2) == if Better(c1, c0) then 1 else 0
  {
  }

  // The list of two: BEST, and the better of the two candidates.
  lemma ListOf(w: nat, spur: Path)
    requires w >= 2 && spur != BEST && spur != LATER
    requires Shortest(GraphIn(InputAt(w)), C0, C1, {}, REMOVED) == Found(spur, 3)
    ensures PathsFor(InputAt(w), 0, 1) ==
      [BEST, if Better(Candidate(LATER, 3), Candidate(spur, 3)) then LATER else spur]
  {
    hide GraphIn, WellFormed, Better, BestIndex, Shortest, Spurs, Direct, Detour;
    FirstPath(w);
    FirstLinks();
    SpursAre(w, spur);
    BestOfTwo(Candidate(spur, 3), Candidate(LATER, 3));
    PickOne(GraphIn(InputAt(w)), BEST, Candidate(spur, 3), Candidate(LATER, 3));
  }

  lemma PickOne(g: Graph, p: Path, c0: Candidate, c1: Candidate)
    requires WellFormed(g) && |p| == 5 && Spurs(g, C1, [p], [], 4) == [c0, c1]
    ensures FromFirst(g, C1, 2, Found(p, 2)) == [p, if BestIndex([c0, c1], 2) == 1 then c1.path else c0.path]
  {
    hide Spurs, BestIndex, WellFormed;
    var r, b := [p], BestIndex([c0, c1], 2);
    var next := Pick(r, [c0, c1]);
    assert next.0 == r + [[c0, c1][b].path];
    assert Rounds(g, C1, 2, next.0, next.1) == next.0;
    assert Rounds(g, C1, 2, r, []) == next.0;
  }

  lemma PrefersLater()
    ensures Better(Candidate(LATER, 3), Candidate(ASIDE, 3)) && !Better(Candidate(LATER, 3), Candidate(STRAIGHT, 3))
  {
    assert LATER[0] == ASIDE[0] == STRAIGHT[0];
    assert LATER[1..][0] == Ing(2, 0) && ASIDE[1..][0] == Ing(2, 1) && STRAIGHT[1..][0] == Ing(1, 1);
    assert SeqBefore(LATER[1..], ASIDE[1..]) && !SeqBefore(LATER[1..], STRAIGHT[1..]);
  }

  lemma CachedList()
    ensures PathsFor(InputAt(2), 0, 1) == [BEST, LATER]
  {
    hide PathsFor, Better, Shortest, GraphIn;
    SpurAt0Tied();
    FirstLinks();
    ListOf(2, ASIDE);
    PrefersLater();
  }

  lemma RecomputedList()
    ensures PathsFor(InputAt(3), 0, 1) == [BEST, STRAIGHT]
  {
    hide PathsFor, Better, Shortest, GraphIn;
    SpurAt0Raised();
    FirstLinks();
    ListOf(3, STRAIGHT);
    PrefersLater();
  }

  // ---------- the patched step ----------

  lemma RaiseSpares()
    ensures Spared(InputAt(2), 2)
  {
    hide PathsFor, ArcsIn, InputOk, IsKShortest, Compress, Expand, HopLinks, SimplePath, PathWeight;
    var in0, q := InputAt(2), Even(2);
    MeshInputOk(q, 2);
    CachedList();
    DetourHops(0, 2, 0, 1, 0);
    DetourHops(0, 2, 0, 1, 1);
    PathsForValid(in0, 1, 2);
    DirectIs(q, 2, 1, 2, 0);
    DirectIs(q, 2, 1, 2, 1);
    DetourIs(q, 2, 1, 0, 0, 2, 1);
    HeavyNotListed(ArcsIn(in0), C1, C2, 2, PathsFor(in0, 1, 2), Detour(1, 0, 0, 2, 1), [Direct(1, 2, 0), Direct(1, 2, 1)]);
  }

  lemma PairCached()
    ensures var b := BaselineIn(InputAt(2)); RoutePair(0, 1) in b && b[RoutePair(0, 1)] == CompressAll([BEST, LATER])
    ensures var b := BaselineIn(InputAt(3)); RoutePair(0, 1) in b && b[RoutePair(0, 1)] == CompressAll([BEST, STRAIGHT])
    ensures RoutePair(0, 1) in AllPairs(InputAt(3))
  {
    hide PathsFor, TransitSet, Compress;
    MeshTransits(Even(2), 2);
    MeshTransits(Even(3), 2);
    CachedList();
    RecomputedList();
  }

  lemma RoutesDiffer()
    ensures CompressAll([BEST, LATER]) != CompressAll([BEST, STRAIGHT])
  {
    hide Compress;
    DetourHops(0, 2, 0, 1, 1);
    DirectHops(0, 1, 1);
    assert CompressAll([BEST, LATER])[1] != CompressAll([BEST, STRAIGHT])[1];
  }

  // A raised weight, within the default, on a link that no cached route of the pair uses: the
  // step is patched and agrees with the full recompute, and yet its routes are others.
  lemma TiesMatter()
    ensures Within(InputAt(2).quality, DEFAULT_W) && EventsWithin([Raise()], DEFAULT_W)
    ensures var in0, in1 := InputAt(2), NewInput(InputAt(2), [Raise()], 0);
      var r := Step(in0, OptimizeOf(in0), THRESHOLD, [Raise()], 0);
      && InputOk(in0) && InputOk(in1) && !GoesFull(in0, OptimizeOf(in0).baseline, THRESHOLD, [Raise()])
      && Agrees(in1, r) && r.baseline != OptimizeOf(in1).baseline
  {
    hide InputOk, Spared, GoesFull, DirtyPairs, BaselineIn, Agrees, Step, AllPairs, RolesOf, NeighborsIn, ProbesIn, HiddenDrop, CompressAll;
    MeshInputOk(Even(2), 2);
    MeshInputOk(Even(3), 2);
    RaiseIs();
    RaiseSpares();
    StaysPatched(Even(2), Even(3), 2, 2, Raise());
    PairCached();
    PatchKeeps(InputAt(2), OptimizeOf(InputAt(2)), Raise(), RoutePair(0, 1));
    RoutesDiffer();
    FullAgrees(InputAt(2));
    NoHiddenDrop(Even(2), [Raise()]);
    StepAgrees(InputAt(2), OptimizeOf(InputAt(2)), THRESHOLD, [Raise()], 0);
  }
}
