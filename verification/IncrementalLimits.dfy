// Where the incremental recompute parts from the full one: dropping an edge whose measured
// weight is above the default makes the edge cheaper, which the dirty-pair rule does not see
// (internal/controller/topology/incremental.go:91-92, 339-341, prune.go:58-70).
module IncrementalLimits {
  import opened Paths
  import opened Dijkstra
  import opened KShortest
  import opened KLists
  import opened SplitGraph
  import opened Prune
  import opened Assign
  import opened Optimizer
  import opened Incremental
  import opened Mesh

  // ---------- the failing family ----------

  const FAR := 2 * DEFAULT_W

  // From 0 to 1 the first ingress costs one more than the default weight, the second is
  // measured at w; every way around 2 is longer.
  function Skewed(w: nat): Quality {
    map[QKey(0, 1, 0) := DEFAULT_W + 1, QKey(0, 1, 1) := w, QKey(0, 2, 0) := FAR, QKey(0, 2, 1) := FAR]
  }

  function InputAt(w: nat): Input {
    MeshOf(Skewed(w), 1)
  }

  function Drop(): EdgeDelta {
    EdgeDelta(0, 1, 1, Down, 0)
  }

  function Dropped(w: nat): Quality {
    Skewed(w) - {QKey(0, 1, 1)}
  }

  lemma DropIs(w: nat)
    ensures ApplyEvents(Skewed(w), [Drop()]) == Dropped(w)
    ensures Changes([Drop()], Skewed(w)) == ChangeSet({Second(1)}, false)
    ensures NewInput(InputAt(w), [Drop()], 0) == MeshOf(Dropped(w), 1)
  {
    OneEvent(Skewed(w), Drop());
  }

  // ---------- the cached route ----------

  const C0 := Core(0)
  const C1 := Core(1)

  // The states of the search from 0 to 1, turn by turn.
  ghost const S0 := Start(C0).(queue := multiset{}, done := {C0})

  ghost function Others(w: nat): multiset<Item> {
    multiset{Item(w, Ing(1, 1)), Item(FAR, Ing(2, 0)), Item(FAR, Ing(2, 1))}
  }

  const ROUND: nat := DEFAULT_W + 1

  ghost function S1(w: nat): (s: Search)
    ensures s.done == {C0} && s.queue == Others(w) + multiset{Item(ROUND, Ing(1, 0))}
    ensures C1 !in s.dist && Ing(1, 0) in s.path && s.path[Ing(1, 0)] == [C0, Ing(1, 0)]
    ensures Ing(1, 1) in s.path && Ing(2, 0) in s.path && Ing(2, 1) in s.path
  {
    var s := Met(S0, C0, 0, Edge(Ing(1, 0), ROUND));
    var t := Met(s, C0, 0, Edge(Ing(1, 1), w));
    var u := Met(t, C0, 0, Edge(Ing(2, 0), FAR));
    Met(u, C0, 0, Edge(Ing(2, 1), FAR))
  }

  ghost function S2(w: nat): (s: Search)
    ensures s.done == {C0, Ing(1, 0)} && s.queue == Others(w) + multiset{Item(ROUND, C1)}
    ensures C1 in s.path && s.path[C1] == Direct(0, 1, 0) && C1 in s.dist && s.dist[C1] == ROUND
    ensures Ing(1, 1) in s.path && Ing(2, 0) in s.path && Ing(2, 1) in s.path
  {
    Met(S1(w).(queue := Others(w), done := {C0, Ing(1, 0)}), Ing(1, 0), ROUND, Edge(C1, 0))
  }

  lemma Tolls(w: nat)
    ensures var q := Skewed(w);
      && Toll(q, 0, 1, 0) == Edge(Ing(1, 0), ROUND) && Toll(q, 0, 1, 1) == Edge(Ing(1, 1), w)
      && Toll(q, 0, 2, 0) == Edge(Ing(2, 0), FAR) && Toll(q, 0, 2, 1) == Edge(Ing(2, 1), FAR)
  {
  }

  lemma RelaxFromStart(w: nat)
    ensures Relax(S0, C0, 0, Out(GraphIn(InputAt(w)), C0), {}, {}) == S1(w)
  {
    hide Relax, Out, GraphIn, Skewed, Toll;
    OutOf0(Skewed(w), 1);
    Tolls(w);
    RelaxFour(S0, C0, 0, [Edge(Ing(1, 0), ROUND), Edge(Ing(1, 1), w), Edge(Ing(2, 0), FAR), Edge(Ing(2, 1), FAR)], {}, {});
  }

  lemma RelaxIngress(w: nat)
    ensures var t := S1(w).(queue := Others(w), done := {C0, Ing(1, 0)});
      Relax(t, Ing(1, 0), ROUND, Out(GraphIn(InputAt(w)), Ing(1, 0)), {}, {}) == S2(w)
  {
    hide Relax, Out, GraphIn, S1, Others;
    OutOfIng(Skewed(w), 1, 0, 1, 0);
    RelaxOne(S1(w).(queue := Others(w), done := {C0, Ing(1, 0)}), Ing(1, 0), ROUND, Edge(C1, 0), {}, {});
  }

  // However close w is to the default weight, even where both ingresses tie, the search goes
  // by the first ingress, which it settles first.
  lemma ByFirstIngress(w: nat)
    requires w > DEFAULT_W
    ensures Shortest(GraphIn(InputAt(w)), C0, C1, {}, {}) == Found(Direct(0, 1, 0), ROUND)
  {
    hide Relax, Run, Next, GraphIn, Out, Shortest, S1, S2;
    var g, all := GraphIn(InputAt(w)), Universe(GraphIn(InputAt(w)), C0);
    var s3 := S2(w).(queue := Others(w), done := {C0, Ing(1, 0), C1});
    UniverseCloses(g, C0);
    Turn(g, C1, {}, {}, Start(C0), Item(0, C0), multiset{});
    RelaxFromStart(w);
    assert {} + {C0} == {C0};
    RunTurn(g, all, C1, {}, {}, Start(C0), S1(w));
    Turn(g, C1, {}, {}, S1(w), Item(ROUND, Ing(1, 0)), Others(w));
    RelaxIngress(w);
    assert {C0} + {Ing(1, 0)} == {C0, Ing(1, 0)};
    RunTurn(g, all, C1, {}, {}, S1(w), S2(w));
    Turn(g, C1, {}, {}, S2(w), Item(ROUND, C1), Others(w));
    assert {C0, Ing(1, 0)} + {C1} == {C0, Ing(1, 0), C1};
    RunTurn(g, all, C1, {}, {}, S2(w), s3);
    SearchEnds(g, C0, C1, {}, {}, s3);
  }

  lemma CachedPaths(w: nat)
    requires w > DEFAULT_W
    ensures PathsFor(InputAt(w), 0, 1) == [Direct(0, 1, 0)]
  {
    hide Shortest, GraphIn, Direct, WellFormed;
    GraphInOk(InputAt(w));
    ByFirstIngress(w);
  }

  lemma DropSpares(w: nat)
    requires DEFAULT_W < w <= MAX_SAMPLE
    ensures Spared(InputAt(w), 1)
  {
    hide PathsFor, ArcsIn, InputOk, IsKShortest, Compress, Expand, HopLinks, SimplePath, PathWeight;
    var in0 := InputAt(w);
    MeshInputOk(Skewed(w), 1);
    CachedPaths(w);
    DirectHops(0, 1, 0);
    PathsForValid(in0, 2, 1);
    DirectIs(Skewed(w), 1, 2, 1, 0);
    DetourIs(Skewed(w), 1, 2, 0, 0, 1, 1);
    HeavyNotListed(ArcsIn(in0), Core(2), C1, 1, PathsFor(in0, 2, 1), Detour(2, 0, 0, 1, 1), [Direct(2, 1, 0)]);
  }

  // ---------- the stale route ----------

  // A list that holds a path heavier than some simple path left out is not a list of the shortest.
  lemma StaleList(a: Arcs, src: Vertex, dst: Vertex, p: Path, r: Path, ps: seq<Path>)
    requires SimplePath(a, src, dst, p) && PathWeight(a, p) < PathWeight(a, r) && ps == [r]
    ensures !IsKShortest(a, src, dst, 1, ps)
  {
    assert p !in ps;
    assert !Beaten(a, 1, ps, p) by {
      assert ps[0] == r;
    }
  }

  lemma StaleRoute(w: nat)
    requires w > DEFAULT_W
    ensures !ValidRoutes(MeshOf(Dropped(w), 1), 0, 1, [[Hop(1, 0)]])
  {
    hide ArcsIn, IsKShortest, SimplePath, PathWeight, Expand, Compress;
    var q, in1 := Dropped(w), MeshOf(Dropped(w), 1);
    DirectIs(q, 1, 0, 1, 0);
    DirectIs(q, 1, 0, 1, 1);
    DirectHops(0, 1, 0);
    forall ps | IsKShortest(ArcsIn(in1), C0, C1, 1, ps) && [[Hop(1, 0)]] == CompressAll(ps)
      ensures false
    {
      ListedExpands(in1, 0, 1, ps, 0);
      assert ps == [Direct(0, 1, 0)];
      StaleList(ArcsIn(in1), C0, C1, Direct(0, 1, 1), Direct(0, 1, 0), ps);
    }
  }

  lemma PairCached(w: nat)
    requires w > DEFAULT_W
    ensures var b := BaselineIn(InputAt(w)); RoutePair(0, 1) in b && b[RoutePair(0, 1)] == [[Hop(1, 0)]]
    ensures RoutePair(0, 1) in AllPairs(MeshOf(Dropped(w), 1))
  {
    hide PathsFor, TransitSet, Compress;
    MeshTransits(Skewed(w), 1);
    MeshTransits(Dropped(w), 1);
    CachedPaths(w);
    DirectHops(0, 1, 0);
  }

  // For every larger w the cache of a full recompute is patched into a result that agrees with
  // no full recompute: the dropped edge now costs the default, and the route kept one more.
  lemma DropBreaks(w: nat)
    requires DEFAULT_W < w <= MAX_SAMPLE
    ensures InputOk(InputAt(w)) && InputOk(NewInput(InputAt(w), [Drop()], 0))
    ensures !GoesFull(InputAt(w), OptimizeOf(InputAt(w)).baseline, THRESHOLD, [Drop()])
    ensures !Agrees(NewInput(InputAt(w), [Drop()], 0), Step(InputAt(w), OptimizeOf(InputAt(w)), THRESHOLD, [Drop()], 0))
  {
    hide InputOk, Spared, GoesFull, DirtyPairs, BaselineIn, ValidRoutes, Step, AllPairs, RolesOf, NeighborsIn, ProbesIn;
    MeshInputOk(Skewed(w), 1);
    MeshInputOk(Dropped(w), 1);
    DropIs(w);
    DropSpares(w);
    StaysPatched(Skewed(w), Dropped(w), 1, 1, Drop());
    PairCached(w);
    PatchKeeps(InputAt(w), OptimizeOf(InputAt(w)), Drop(), RoutePair(0, 1));
    StaleRoute(w);
    var in1, r := NewInput(InputAt(w), [Drop()], 0), Step(InputAt(w), OptimizeOf(InputAt(w)), THRESHOLD, [Drop()], 0);
    StaleDisagrees(in1, r, RoutePair(0, 1));
  }

  lemma StaleDisagrees(in0: Input, r: Result, p: RoutePair)
    requires p in r.baseline && !ValidRoutes(in0, p.src, p.dst, r.baseline[p])
    ensures !Agrees(in0, r)
  {
  }

  // ---------- the threshold ----------

  // e drops an edge measured at w, on an input just recomputed in full.
  ghost predicate DropsAt(in0: Input, e: EdgeDelta, version: nat, w: nat) {
    && InputOk(in0) && InputOk(NewInput(in0, [e], version))
    && e.kind.Down? && KeyOf(e) in in0.quality && in0.quality[KeyOf(e)] == w
  }

  // Up to the default weight no cache that agrees is harmed, whether recomputed or patched.
  lemma ModestDrop(in0: Input, last: Result, e: EdgeDelta, version: nat, w: nat)
    requires DropsAt(in0, e, version, w) && Agrees(in0, last) && w <= DEFAULT_W
    ensures Agrees(NewInput(in0, [e], version), Step(in0, last, THRESHOLD, [e], version))
  {
    OneEvent(in0.quality, e);
    StepAgrees(in0, last, THRESHOLD, [e], version);
  }

  // A batch that drops one edge of measured weight w keeps the cache of every input in agreement
  // with the full recompute if and only if w is at most the default weight.
  lemma DropThreshold(w: nat)
    requires w <= MAX_SAMPLE
    ensures w <= DEFAULT_W <==>
      forall in0: Input, e: EdgeDelta, version: nat {:trigger Step(in0, OptimizeOf(in0), THRESHOLD, [e], version)} ::
        DropsAt(in0, e, version, w) ==>
          Agrees(NewInput(in0, [e], version), Step(in0, OptimizeOf(in0), THRESHOLD, [e], version))
  {
    hide Agrees, Step, InputOk, OptimizeOf, GoesFull, NewInput;
    if w <= DEFAULT_W {
      forall in0: Input, e: EdgeDelta, version: nat | DropsAt(in0, e, version, w)
        ensures Agrees(NewInput(in0, [e], version), Step(in0, OptimizeOf(in0), THRESHOLD, [e], version))
      {
        FullAgrees(in0);
        ModestDrop(in0, OptimizeOf(in0), e, version, w);
      }
    } else {
      DropBreaks(w);
      assert DropsAt(InputAt(w), Drop(), 0, w);
    }
  }
}
