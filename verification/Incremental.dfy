// Incremental recompute: a cached result kept in step with edge events
// (internal/controller/topology/incremental.go).
module Incremental {
  import opened Paths
  import opened KShortest
  import opened KLists
  import opened Sorting
  import opened SplitGraph
  import opened Prune
  import opened Assign
  import opened Optimizer

  datatype EdgeKind = Down | Degraded | Recovered

  datatype EdgeDelta = EdgeDelta(src: nat, dst: nat, ingress: nat, kind: EdgeKind, w: nat)

  const THRESHOLD := 0.20

  function KeyOf(e: EdgeDelta): QKey {
    QKey(e.src, e.dst, e.ingress)
  }

  function LinkOf(k: QKey): Link {
    Link(Core(k.src), Ing(k.dst, k.ingress))
  }

  // ---------- events ----------

  function ApplyEvent(qm: Quality, e: EdgeDelta): Quality {
    if e.kind.Down? then qm - {KeyOf(e)} else qm[KeyOf(e) := e.w]
  }

  function ApplyEvents(qm: Quality, events: seq<EdgeDelta>): Quality {
    if events == [] then qm
    else ApplyEvent(ApplyEvents(qm, events[..|events| - 1]), events[|events| - 1])
  }

  // The event is about this edge.
  predicate About(e: EdgeDelta, k: QKey) {
    e.src == k.src && e.dst == k.dst && e.ingress == k.ingress
  }

  ghost predicate LastAbout(events: seq<EdgeDelta>, k: QKey, i: nat) {
    i < |events| && About(events[i], k) && forall j :: i < j < |events| ==> !About(events[j], k)
  }

  // What a batch makes of a quality matrix: the last event about an edge deletes its
  // measurement when it is down, and otherwise, degraded or recovered, sets it; an edge without
  // an event keeps what it had.
  ghost predicate Updates(qm: Quality, events: seq<EdgeDelta>, after: Quality) {
    && (forall k: QKey, i: nat {:trigger LastAbout(events, k, i)} :: LastAbout(events, k, i) ==>
          match events[i].kind
          case Down => k !in after
          case Degraded => k in after && after[k] == events[i].w
          case Recovered => k in after && after[k] == events[i].w)
    && (forall k: QKey {:trigger k in after} :: (forall i :: 0 <= i < |events| ==> !About(events[i], k)) ==>
          (k in after <==> k in qm) && (k in qm ==> after[k] == qm[k]))
  }

  lemma {:induction false} BatchUpdates(qm: Quality, events: seq<EdgeDelta>)
    ensures Updates(qm, events, ApplyEvents(qm, events))
  {
    if events != [] {
      var n := |events| - 1;
      var before, after := ApplyEvents(qm, events[..n]), ApplyEvents(qm, events);
      BatchUpdates(qm, events[..n]);
      forall k: QKey, i: nat | LastAbout(events, k, i)
        ensures if events[i].kind.Down? then k !in after else k in after && after[k] == events[i].w
      {
        assert k == QKey(k.src, k.dst, k.ingress);
        if i < n {
          assert !About(events[n], k);
          assert LastAbout(events[..n], k, i);
        }
      }
      forall k: QKey | forall i :: 0 <= i < |events| ==> !About(events[i], k)
        ensures (k in after <==> k in qm) && (k in qm ==> after[k] == qm[k])
      {
        assert !About(events[n], k);
        assert forall i :: 0 <= i < n ==> events[..n][i] == events[i];
        assert k in before <==> k in qm;
      }
    }
  }

  // The raised or deleted links of a batch, and whether it lowers or adds one, judged
  // against the quality before the batch.
  datatype ChangeSet = ChangeSet(edges: set<Link>, hasDecrease: bool)

  function AddChange(cs: ChangeSet, e: EdgeDelta, qm: Quality): ChangeSet {
    if e.kind.Down? then cs.(edges := cs.edges + {LinkOf(KeyOf(e))})
    else if KeyOf(e) !in qm || e.w < qm[KeyOf(e)] then cs.(hasDecrease := true)
    else cs.(edges := cs.edges + {LinkOf(KeyOf(e))})
  }

  function Changes(events: seq<EdgeDelta>, qm: Quality): ChangeSet {
    if events == [] then ChangeSet({}, false)
    else AddChange(Changes(events[..|events| - 1], qm), events[|events| - 1], qm)
  }

  // Dropping a measurement above the default weight makes the edge cheaper.
  ghost predicate HiddenDrop(qm: Quality, events: seq<EdgeDelta>) {
    exists k :: k in qm && qm[k] > DEFAULT_W && k !in ApplyEvents(qm, events)
  }

  // What a batch does to one key: nothing, or a change recorded as a raise or a deletion.
  lemma {:induction false} EventsOnKey(qm: Quality, events: seq<EdgeDelta>, k: QKey)
    requires !Changes(events, qm).hasDecrease
    ensures var after := ApplyEvents(qm, events);
      || (k in after && k in qm && after[k] == qm[k])
      || (k !in after && k !in qm)
      || (LinkOf(k) in Changes(events, qm).edges && (k !in after || (k in qm && qm[k] <= after[k])))
  {
    if events != [] {
      EventsOnKey(qm, events[..|events| - 1], k);
    }
  }

  // Without a decrease, no weight falls, and every weight that rises is recorded.
  lemma WeightsRise(qm: Quality, events: seq<EdgeDelta>, k: QKey)
    requires !Changes(events, qm).hasDecrease && !HiddenDrop(qm, events)
    ensures WeightOf(qm, k.src, k.dst, k.ingress) <= WeightOf(ApplyEvents(qm, events), k.src, k.dst, k.ingress)
    ensures LinkOf(k) in Changes(events, qm).edges
      || WeightOf(qm, k.src, k.dst, k.ingress) == WeightOf(ApplyEvents(qm, events), k.src, k.dst, k.ingress)
  {
    EventsOnKey(qm, events, k);
    assert k == QKey(k.src, k.dst, k.ingress);
  }

  // ---------- one step as a function ----------

  // The pruned sets have the same edges; weights may differ.
  predicate SameEdges(es: seq<PrunedEdge>, fs: seq<PrunedEdge>) {
    |es| == |fs| && forall i :: 0 <= i < |es| ==> Cross(es[i]) == Cross(fs[i])
  }

  // Some cached route of the pair uses a changed link.
  predicate Touches(src: nat, routes: seq<seq<Hop>>, edges: set<Link>) {
    exists i :: 0 <= i < |routes| && exists l :: l in HopLinks(src, routes[i]) && l in edges
  }

  ghost function AllPairs(in0: Input): set<RoutePair> {
    set a, b | a in TransitsIn(in0) && b in TransitsIn(in0) && a != b :: RoutePair(a, b)
  }

  ghost function DirtyPairs(in0: Input, cached: Baseline, cs: ChangeSet): set<RoutePair> {
    if cs.hasDecrease then AllPairs(in0)
    else set p | p in cached && Touches(p.src, cached[p], cs.edges)
  }

  ghost function NewInput(in0: Input, events: seq<EdgeDelta>, version: nat): Input {
    in0.(quality := ApplyEvents(in0.quality, events), version := version)
  }

  function Ratio(dirty: nat, transits: nat): real {
    if transits * (transits - 1) > 0 then dirty as real / (transits * (transits - 1)) as real else 0.0
  }

  // Whether the step falls back to a full recompute.
  ghost predicate GoesFull(in0: Input, cached: Baseline, threshold: real, events: seq<EdgeDelta>) {
    var new0 := NewInput(in0, events, 0);
    || !SameEdges(EdgesIn(new0), EdgesIn(in0))
    || Ratio(|DirtyPairs(in0, cached, Changes(events, in0.quality))|, |SortedKeys(TransitsIn(in0))|) >= threshold
  }

  // Recompute the dirty pairs, keep the others.
  ghost function PatchedBaseline(in1: Input, cached: Baseline, dirty: set<RoutePair>): Baseline {
    map p | p in AllPairs(in1) && (if p in dirty then p in Connected(in1) else p in cached) ::
      if p in dirty then CompressAll(PathsFor(in1, p.src, p.dst)) else cached[p]
  }

  ghost function Step(in0: Input, last: Result, threshold: real, events: seq<EdgeDelta>, version: nat): Result {
    var in1 := NewInput(in0, events, version);
    if GoesFull(in0, last.baseline, threshold, events) then OptimizeOf(in1)
    else OptimizeOf(in1).(baseline := PatchedBaseline(in1, last.baseline,
                            DirtyPairs(in0, last.baseline, Changes(events, in0.quality))))
  }

  // ---------- agreement with the full recompute ----------

  // Roles, neighbours and probe sets as a full recompute gives them, routes for the same
  // pairs, and every route list a valid list of K shortest paths.
  ghost predicate Agrees(in0: Input, r: Result) {
    && r.version == in0.version && r.roles == RolesOf(in0) && r.neighbors == NeighborsIn(in0)
    && r.probeSets == ProbesIn(in0)
    && r.baseline.Keys == Connected(in0)
    && forall p {:trigger ValidRoutes(in0, p.src, p.dst, r.baseline[p])} ::
         p in r.baseline ==> ValidRoutes(in0, p.src, p.dst, r.baseline[p])
  }

  lemma FullAgrees(in0: Input)
    requires InputOk(in0)
    ensures Agrees(in0, OptimizeOf(in0))
  {
    forall p | p in BaselineIn(in0)
      ensures ValidRoutes(in0, p.src, p.dst, BaselineIn(in0)[p])
    {
      BaselineValid(in0, p);
    }
  }

  ghost function RouteWeight(in0: Input, src: nat, hops: seq<Hop>): nat {
    PathWeight(ArcsIn(in0), Expand(src, hops))
  }

  // Agreement fixes the number and the weights of the routes of every pair, and the routes of
  // a pair whose list is untied.
  lemma AgreementFixesRoutes(in0: Input, r: Result, p: RoutePair)
    requires InputOk(in0) && Agrees(in0, r) && p in r.baseline
    ensures p in BaselineIn(in0)
    ensures var mine, full := r.baseline[p], BaselineIn(in0)[p];
      && |mine| == |full|
      && (forall i :: 0 <= i < |mine| ==> RouteWeight(in0, p.src, mine[i]) == RouteWeight(in0, p.src, full[i]))
      && (PairUntied(in0, p) ==> mine == full)
  {
    var a := ArcsIn(in0);
    assert ValidRoutes(in0, p.src, p.dst, r.baseline[p]);
    var ps :| IsKShortest(a, Core(p.src), Core(p.dst), in0.routeK, ps) && r.baseline[p] == CompressAll(ps);
    var qs := PathsFor(in0, p.src, p.dst);
    PathsForValid(in0, p.src, p.dst);
    ListsAgree(a, Core(p.src), Core(p.dst), in0.routeK, ps, qs);
    OnlyList(a, Core(p.src), Core(p.dst), in0.routeK, qs);
    forall i | 0 <= i < |ps|
      ensures RouteWeight(in0, p.src, CompressAll(ps)[i]) == RouteWeight(in0, p.src, CompressAll(qs)[i])
    {
      ListedExpands(in0, p.src, p.dst, ps, i);
      ListedExpands(in0, p.src, p.dst, qs, i);
    }
  }

  lemma ListedExpands(in0: Input, src: nat, dst: nat, ps: seq<Path>, i: nat)
    requires IsKShortest(ArcsIn(in0), Core(src), Core(dst), in0.routeK, ps) && i < |ps|
    ensures Expand(src, Compress(ps[i])) == ps[i]
  {
    GraphInOk(in0);
    assert SimplePath(ArcsIn(in0), Core(src), Core(dst), ps[i]);
    CompressLossless(EdgesIn(in0), ArcsIn(in0), src, dst, ps[i]);
  }

  // No listed path of the pair weighs as much as another of its simple paths.
  ghost predicate PairUntied(in0: Input, p: RoutePair) {
    Untied(ArcsIn(in0), Core(p.src), Core(p.dst), PathsFor(in0, p.src, p.dst))
  }

  lemma SameHopsSamePaths(in0: Input, p: RoutePair, ps: seq<Path>, qs: seq<Path>)
    requires IsKShortest(ArcsIn(in0), Core(p.src), Core(p.dst), in0.routeK, ps)
    requires IsKShortest(ArcsIn(in0), Core(p.src), Core(p.dst), in0.routeK, qs)
    requires CompressAll(ps) == CompressAll(qs)
    ensures ps == qs
  {
    hide IsKShortest, ArcsIn, Compress, Expand;
    forall i | 0 <= i < |ps|
      ensures ps[i] == qs[i]
    {
      ListedExpands(in0, p.src, p.dst, ps, i);
      ListedExpands(in0, p.src, p.dst, qs, i);
      assert CompressAll(ps)[i] == CompressAll(qs)[i];
    }
  }

  // Another list of a tied pair in the full result.
  lemma TiedAlternative(in0: Input, p: RoutePair) returns (r: Result)
    requires InputOk(in0) && p in BaselineIn(in0) && !PairUntied(in0, p)
    ensures Agrees(in0, r) && p in r.baseline && r.baseline[p] != BaselineIn(in0)[p]
  {
    hide InputOk, IsKShortest, Untied, PathsFor, ArcsIn, RolesOf, NeighborsIn, ProbesIn;
    var a, qs := ArcsIn(in0), PathsFor(in0, p.src, p.dst);
    PathsForValid(in0, p.src, p.dst);
    OnlyList(a, Core(p.src), Core(p.dst), in0.routeK, qs);
    var ps :| IsKShortest(a, Core(p.src), Core(p.dst), in0.routeK, ps) && ps != qs;
    if CompressAll(ps) == CompressAll(qs) {
      SameHopsSamePaths(in0, p, ps, qs);
    }
    FullAgrees(in0);
    r := OptimizeOf(in0).(baseline := BaselineIn(in0)[p := CompressAll(ps)]);
    assert ValidRoutes(in0, p.src, p.dst, r.baseline[p]);
    forall o | o in r.baseline
      ensures ValidRoutes(in0, o.src, o.dst, r.baseline[o])
    {
      assert o != p ==> ValidRoutes(in0, o.src, o.dst, OptimizeOf(in0).baseline[o]);
    }
  }

  // Only the full result agrees with an input, field by field, exactly when every pair is untied.
  lemma OnlyFullAgrees(in0: Input)
    requires InputOk(in0)
    ensures (forall p :: p in BaselineIn(in0) ==> PairUntied(in0, p)) <==>
      forall r :: Agrees(in0, r) ==> r == OptimizeOf(in0)
  {
    hide InputOk, Agrees, PairUntied, BaselineIn, RolesOf, NeighborsIn, ProbesIn;
    if forall p :: p in BaselineIn(in0) ==> PairUntied(in0, p) {
      forall r | Agrees(in0, r)
        ensures r == OptimizeOf(in0)
      {
        UntiedIsFull(in0, r);
      }
    } else {
      var p :| p in BaselineIn(in0) && !PairUntied(in0, p);
      var r := TiedAlternative(in0, p);
      assert r != OptimizeOf(in0);
    }
  }

  lemma UntiedIsFull(in0: Input, r: Result)
    requires InputOk(in0) && Agrees(in0, r) && forall p :: p in BaselineIn(in0) ==> PairUntied(in0, p)
    ensures r == OptimizeOf(in0)
  {
    hide InputOk, PairUntied, RolesOf, NeighborsIn, ProbesIn, RouteWeight;
    forall p | p in r.baseline
      ensures p in BaselineIn(in0) && r.baseline[p] == BaselineIn(in0)[p]
    {
      AgreementFixesRoutes(in0, r, p);
    }
    assert r.baseline == BaselineIn(in0);
  }

  // ---------- what a patched step keeps ----------

  lemma SameArcKeys(in0: Input, in1: Input)
    requires SameEdges(EdgesIn(in1), EdgesIn(in0))
    ensures ArcsIn(in0).Keys == ArcsIn(in1).Keys
  {
    ArcsInSplit(in0);
    ArcsInSplit(in1);
    hide IsSplit, EdgesIn, ArcsIn, GraphIn;
    ArcKeysWithin(EdgesIn(in0), ArcsIn(in0), EdgesIn(in1), ArcsIn(in1));
    ArcKeysWithin(EdgesIn(in1), ArcsIn(in1), EdgesIn(in0), ArcsIn(in0));
  }

  lemma ArcKeysWithin(es: seq<PrunedEdge>, a: Arcs, fs: seq<PrunedEdge>, b: Arcs)
    requires IsSplit(es, a) && IsSplit(fs, b) && SameEdges(es, fs)
    ensures a.Keys <= b.Keys
  {
    hide IsSplit, SameEdges;
    forall l | l in a
      ensures l in b
    {
      var e := ArcFrom(es, a, l);
      var f := SameEdge(es, fs, e);
      ArcsOfEdge(fs, b, f);
    }
  }

  lemma ArcFrom(es: seq<PrunedEdge>, a: Arcs, l: Link) returns (e: PrunedEdge)
    requires IsSplit(es, a) && l in a
    ensures e in es && (l == Cross(e) || l == Inner(e))
  {
    e :| e in es && (l == Cross(e) || l == Inner(e));
  }

  lemma SameEdge(es: seq<PrunedEdge>, fs: seq<PrunedEdge>, e: PrunedEdge) returns (f: PrunedEdge)
    requires SameEdges(es, fs) && e in es
    ensures f in fs && Cross(f) == Cross(e)
  {
    var i :| 0 <= i < |es| && es[i] == e;
    f := fs[i];
  }

  lemma ArcsOfEdge(es: seq<PrunedEdge>, a: Arcs, e: PrunedEdge)
    requires IsSplit(es, a) && e in es
    ensures Cross(e) in a && Inner(e) in a
  {
  }

  // A cross arc weighs what the quality matrix says; an inner arc nothing.
  lemma ArcWeight(in0: Input, l: Link)
    requires l in ArcsIn(in0)
    ensures l.from.Core? ==> l.to.Ing? && ArcsIn(in0)[l] == WeightOf(in0.quality, l.from.node, l.to.node, l.to.ingress)
    ensures l.from.Ing? ==> ArcsIn(in0)[l] == 0
  {
    GraphInOk(in0);
    var e :| e in EdgesIn(in0) && (l == Cross(e) || l == Inner(e));
    assert Kept(NetIn(in0), e);
  }

  lemma ArcsRise(in0: Input, in1: Input, events: seq<EdgeDelta>)
    requires in1.quality == ApplyEvents(in0.quality, events)
    requires SameEdges(EdgesIn(in1), EdgesIn(in0))
    requires !Changes(events, in0.quality).hasDecrease && !HiddenDrop(in0.quality, events)
    ensures Raised(ArcsIn(in0), ArcsIn(in1))
    ensures forall l :: l in ArcsIn(in0) && l !in Changes(events, in0.quality).edges ==> ArcsIn(in0)[l] == ArcsIn(in1)[l]
  {
    SameArcKeys(in0, in1);
    forall l | l in ArcsIn(in0)
      ensures ArcsIn(in0)[l] <= ArcsIn(in1)[l]
      ensures l !in Changes(events, in0.quality).edges ==> ArcsIn(in0)[l] == ArcsIn(in1)[l]
    {
      ArcWeight(in0, l);
      ArcWeight(in1, l);
      if l.from.Core? {
        WeightsRise(in0.quality, events, QKey(l.from.node, l.to.node, l.to.ingress));
      }
    }
  }

  // A path none of whose links changed is untouched.
  lemma CleanPathUntouched(in0: Input, in1: Input, edges: set<Link>, src: nat, dst: nat, p: Path)
    requires WalkFromTo(ArcsIn(in0), Core(src), Core(dst), p)
    requires ArcsIn(in0).Keys == ArcsIn(in1).Keys
    requires forall l :: l in ArcsIn(in0) && l !in edges ==> ArcsIn(in0)[l] == ArcsIn(in1)[l]
    requires forall l :: l in HopLinks(src, Compress(p)) ==> l !in edges
    ensures Untouched(ArcsIn(in0), ArcsIn(in1), p)
  {
    GraphInOk(in0);
    CompressLossless(EdgesIn(in0), ArcsIn(in0), src, dst, p);
    forall i | 0 <= i < |p| - 1
      ensures Cost(ArcsIn(in0), p[i], p[i + 1]) == Cost(ArcsIn(in1), p[i], p[i + 1])
    {
      var l := Link(p[i], p[i + 1]);
      assert l in ArcsIn(in0);
      if p[i].Core? {
        CrossIsHopLink(src, Compress(p), i, l);
      } else {
        ArcWeight(in0, l);
        ArcWeight(in1, l);
      }
    }
  }

  ghost predicate CleanStep(in0: Input, in1: Input, events: seq<EdgeDelta>) {
    && in1.quality == ApplyEvents(in0.quality, events) && in1.routeK == in0.routeK
    && SameEdges(EdgesIn(in1), EdgesIn(in0))
    && !Changes(events, in0.quality).hasDecrease && !HiddenDrop(in0.quality, events)
  }

  // A clean pair keeps its list.
  lemma CleanPairStaysValid(in0: Input, in1: Input, events: seq<EdgeDelta>, src: nat, dst: nat, ps: seq<Path>)
    requires CleanStep(in0, in1, events)
    requires IsKShortest(ArcsIn(in0), Core(src), Core(dst), in0.routeK, ps)
    requires !Touches(src, CompressAll(ps), Changes(events, in0.quality).edges)
    ensures IsKShortest(ArcsIn(in1), Core(src), Core(dst), in1.routeK, ps)
  {
    var edges := Changes(events, in0.quality).edges;
    SameArcKeys(in0, in1);
    ArcsRise(in0, in1, events);
    forall i | 0 <= i < |ps|
      ensures Untouched(ArcsIn(in0), ArcsIn(in1), ps[i])
    {
      assert SimplePath(ArcsIn(in0), Core(src), Core(dst), ps[i]);
      assert CompressAll(ps)[i] == Compress(ps[i]);
      CleanPathUntouched(in0, in1, edges, src, dst, ps[i]);
    }
    RaisedKeepsList(ArcsIn(in0), ArcsIn(in1), Core(src), Core(dst), in0.routeK, ps);
  }

  lemma CleanPairAgrees(in0: Input, in1: Input, events: seq<EdgeDelta>, last: Result, p: RoutePair)
    requires InputOk(in0) && InputOk(in1) && CleanStep(in0, in1, events) && Agrees(in0, last)
    requires TransitsIn(in0) == TransitsIn(in1)
    requires p in AllPairs(in1) && p !in DirtyPairs(in0, last.baseline, Changes(events, in0.quality))
    ensures p in last.baseline <==> p in Connected(in1)
    ensures p in last.baseline ==> ValidRoutes(in1, p.src, p.dst, last.baseline[p])
  {
    hide InputOk, Changes, ArcsIn, PathsFor, IsKShortest, RolesOf, NeighborsIn, ProbesIn;
    PathsForValid(in1, p.src, p.dst);
    var qs := PathsFor(in1, p.src, p.dst);
    var ps: seq<Path>;
    if p in last.baseline {
      assert ValidRoutes(in0, p.src, p.dst, last.baseline[p]);
      ps :| IsKShortest(ArcsIn(in0), Core(p.src), Core(p.dst), in0.routeK, ps) && last.baseline[p] == CompressAll(ps);
      PathsForValid(in0, p.src, p.dst);
      ListsAgree(ArcsIn(in0), Core(p.src), Core(p.dst), in0.routeK, ps, PathsFor(in0, p.src, p.dst));
    } else {
      PathsForValid(in0, p.src, p.dst);
      ps := PathsFor(in0, p.src, p.dst);
    }
    CleanPairStaysValid(in0, in1, events, p.src, p.dst, ps);
    ListsAgree(ArcsIn(in1), Core(p.src), Core(p.dst), in1.routeK, ps, qs);
  }

  lemma PatchedAgrees(in0: Input, last: Result, events: seq<EdgeDelta>, version: nat, r: Result)
    requires InputOk(in0) && InputOk(NewInput(in0, events, version)) && Agrees(in0, last)
    requires SameEdges(EdgesIn(NewInput(in0, events, version)), EdgesIn(in0)) && !HiddenDrop(in0.quality, events)
    requires var in1 := NewInput(in0, events, version);
      r == OptimizeOf(in1).(baseline := PatchedBaseline(in1, last.baseline,
             DirtyPairs(in0, last.baseline, Changes(events, in0.quality))))
    ensures Agrees(NewInput(in0, events, version), r)
  {
    hide InputOk, PathsFor, CompressAll, DirtyPairs, EdgesIn, ValidRoutes, HiddenDrop, SameEdges, Connected;
    hide RolesOf, NeighborsIn, ProbesIn, BaselineIn;
    var in1 := NewInput(in0, events, version);
    FullAgrees(in1);
    forall p | p in AllPairs(in1)
      ensures p in r.baseline <==> p in Connected(in1)
      ensures p in r.baseline ==> ValidRoutes(in1, p.src, p.dst, r.baseline[p])
    {
      PatchedPair(in0, last, events, version, p);
    }
    ConnectedWithin(in1);
  }

  lemma ConnectedWithin(in0: Input)
    ensures Connected(in0) <= AllPairs(in0)
  {
  }

  lemma PatchedPair(in0: Input, last: Result, events: seq<EdgeDelta>, version: nat, p: RoutePair)
    requires InputOk(in0) && InputOk(NewInput(in0, events, version)) && Agrees(in0, last)
    requires SameEdges(EdgesIn(NewInput(in0, events, version)), EdgesIn(in0)) && !HiddenDrop(in0.quality, events)
    requires p in AllPairs(NewInput(in0, events, version))
    ensures var in1 := NewInput(in0, events, version);
      var b := PatchedBaseline(in1, last.baseline, DirtyPairs(in0, last.baseline, Changes(events, in0.quality)));
      (p in b <==> p in Connected(in1)) && (p in b ==> ValidRoutes(in1, p.src, p.dst, b[p]))
  {
    var in1 := NewInput(in0, events, version);
    var dirty := DirtyPairs(in0, last.baseline, Changes(events, in0.quality));
    if p in dirty {
      PathsForValid(in1, p.src, p.dst);
    } else {
      assert !Changes(events, in0.quality).hasDecrease;
      CleanPairAgrees(in0, in1, events, last, p);
    }
  }

  // One step of the cache agrees with the full recompute, unless the batch drops a
  // measurement above the default weight.
  lemma StepAgrees(in0: Input, last: Result, threshold: real, events: seq<EdgeDelta>, version: nat)
    requires InputOk(in0) && InputOk(NewInput(in0, events, version)) && Agrees(in0, last)
    requires !HiddenDrop(in0.quality, events)
    ensures Agrees(NewInput(in0, events, version), Step(in0, last, threshold, events, version))
  {
    if GoesFull(in0, last.baseline, threshold, events) {
      FullAgrees(NewInput(in0, events, version));
    } else {
      SameEdgesAnyVersion(in0, events, version);
      PatchedAgrees(in0, last, events, version, Step(in0, last, threshold, events, version));
    }
  }

  // The version plays no part in the pruned edges.
  lemma SameEdgesAnyVersion(in0: Input, events: seq<EdgeDelta>, version: nat)
    ensures EdgesIn(NewInput(in0, events, version)) == EdgesIn(NewInput(in0, events, 0))
  {
    assert NetIn(NewInput(in0, events, version)) == NetIn(NewInput(in0, events, 0));
  }

  // Then the step is the full recompute, field by field, whenever no pair of the new input is tied.
  lemma UntiedStepIsFull(in0: Input, last: Result, threshold: real, events: seq<EdgeDelta>, version: nat)
    requires InputOk(in0) && InputOk(NewInput(in0, events, version)) && Agrees(in0, last)
    requires !HiddenDrop(in0.quality, events)
    requires var in1 := NewInput(in0, events, version); forall p :: p in BaselineIn(in1) ==> PairUntied(in1, p)
    ensures Step(in0, last, threshold, events, version) == OptimizeOf(NewInput(in0, events, version))
  {
    hide InputOk, Agrees, HiddenDrop, PairUntied, BaselineIn, Step, OptimizeOf;
    StepAgrees(in0, last, threshold, events, version);
    OnlyFullAgrees(NewInput(in0, events, version));
  }

  // An empty batch leaves a cached result as it is.
  lemma EmptyStep(in0: Input, last: Result, threshold: real)
    requires Agrees(in0, last) && threshold > 0.0
    ensures Step(in0, last, threshold, [], in0.version) == last
  {
    hide EdgesIn, PathsFor, RolesOf, NeighborsIn, ProbesIn, ValidRoutes, TransitsIn, CompressAll;
    assert NewInput(in0, [], in0.version) == in0;
    SameEdgesAnyVersion(in0, [], in0.version);
    NothingDirty(in0, last.baseline);
    ConnectedWithin(in0);
    assert PatchedBaseline(in0, last.baseline, {}) == last.baseline;
  }

  lemma NothingDirty(in0: Input, cached: Baseline)
    ensures DirtyPairs(in0, cached, Changes([], in0.quality)) == {}
    ensures forall n: nat :: Ratio(0, n) == 0.0
  {
  }

  // Every step from an agreeing cache into an input gives exactly the full recompute, unless a
  // measurement above the default is dropped, if and only if no pair of that input is tied.
  lemma StepsAreFull(in1: Input, threshold: real)
    requires InputOk(in1) && threshold > 0.0
    ensures (forall p :: p in BaselineIn(in1) ==> PairUntied(in1, p)) <==>
      forall in0: Input, last: Result, events: seq<EdgeDelta> {:trigger Step(in0, last, threshold, events, in1.version)} ::
        InputOk(in0) && Agrees(in0, last) && !HiddenDrop(in0.quality, events) && NewInput(in0, events, in1.version) == in1 ==>
          Step(in0, last, threshold, events, in1.version) == OptimizeOf(in1)
  {
    hide InputOk, Agrees, HiddenDrop, PairUntied, Step, OptimizeOf, NewInput;
    if forall p :: p in BaselineIn(in1) ==> PairUntied(in1, p) {
      forall in0: Input, last: Result, events: seq<EdgeDelta> |
        InputOk(in0) && Agrees(in0, last) && !HiddenDrop(in0.quality, events) && NewInput(in0, events, in1.version) == in1
        ensures Step(in0, last, threshold, events, in1.version) == OptimizeOf(in1)
      {
        UntiedStepIsFull(in0, last, threshold, events, in1.version);
      }
    } else {
      OnlyFullAgrees(in1);
      var r :| Agrees(in1, r) && r != OptimizeOf(in1);
      EmptyStep(in1, r, threshold);
      EmptyBatch(in1);
      assert Step(in1, r, threshold, [], in1.version) == r;
    }
  }

  lemma EmptyBatch(in0: Input)
    ensures NewInput(in0, [], in0.version) == in0 && !HiddenDrop(in0.quality, [])
  {
  }

  // ---------- inputs a caller can check ----------

  // A core vertex for every transit and a vertex for each of its reachable ingresses.
  ghost function OverlayVertices(nodes: seq<NodeInput>): set<Vertex> {
    (set v | v in TransitSet(nodes) :: Core(v))
    + (set v, e | v in TransitSet(nodes) && v in Index(nodes) && e in Index(nodes)[v] :: Ing(v, e))
  }

  // Unique identifiers, and no more vertices than sums of sampled weights can bear.
  ghost predicate NodesSound(nodes: seq<NodeInput>) {
    NodesOk(nodes) && |OverlayVertices(nodes)| <= 0x800_0000
  }

  ghost predicate Within(qm: Quality, bound: nat) {
    forall k :: k in qm ==> qm[k] <= bound
  }

  ghost predicate EventsWithin(events: seq<EdgeDelta>, bound: nat) {
    forall e :: e in events ==> e.kind.Down? || e.w <= bound
  }

  lemma {:induction false} WithinStays(qm: Quality, events: seq<EdgeDelta>, bound: nat)
    requires Within(qm, bound) && EventsWithin(events, bound)
    ensures Within(ApplyEvents(qm, events), bound)
  {
    if events != [] {
      WithinStays(qm, events[..|events| - 1], bound);
      assert events[|events| - 1] in events;
    }
  }

  lemma EdgeEnds(in0: Input, e: PrunedEdge)
    requires e in EdgesIn(in0)
    ensures Core(e.src) in OverlayVertices(in0.nodes) && Core(e.dst) in OverlayVertices(in0.nodes)
    ensures Ing(e.dst, e.ingress) in OverlayVertices(in0.nodes)
  {
    hide TransitSet, Index, RanksOf, Earlier, Lighter;
    assert Kept(NetIn(in0), e);
    assert e.ingress in IngOf(NetIn(in0), e.dst);
  }

  lemma SampledWeight(qm: Quality, src: nat, dst: nat, e: nat)
    requires Within(qm, MAX_SAMPLE)
    ensures WeightOf(qm, src, dst, e) <= MAX_SAMPLE
  {
  }

  lemma ArcInOverlay(in0: Input, l: Link)
    requires Within(in0.quality, MAX_SAMPLE) && l in ArcsIn(in0)
    ensures l.from in OverlayVertices(in0.nodes) && l.to in OverlayVertices(in0.nodes) && ArcsIn(in0)[l] <= MAX_SAMPLE
  {
    hide ArcsIn, OverlayVertices, EdgesIn, GraphIn, NetIn, Within, WeightOf, IsSplit;
    ArcsInSplit(in0);
    var e := ArcFrom(EdgesIn(in0), ArcsIn(in0), l);
    EdgeEnds(in0, e);
    ArcWeight(in0, l);
    if l.from.Core? {
      SampledWeight(in0.quality, l.from.node, l.to.node, l.to.ingress);
    }
  }

  // Sampled weights on a sound set of nodes: no sum of weights reaches the sentinel.
  lemma SampledInputOk(in0: Input)
    requires NodesSound(in0.nodes) && Within(in0.quality, MAX_SAMPLE)
    ensures InputOk(in0)
  {
    hide ArcsIn, OverlayVertices, NodesOk, Within, Safe;
    var a := ArcsIn(in0);
    forall l | l in a
      ensures l.from in OverlayVertices(in0.nodes) && l.to in OverlayVertices(in0.nodes) && a[l] <= MAX_SAMPLE
    {
      ArcInOverlay(in0, l);
    }
    SubsetSize(Vertices(a), OverlayVertices(in0.nodes));
    SampledWeightsAreSafe(a);
  }

  // ---------- runs ----------

  datatype Batch = Batch(events: seq<EdgeDelta>, version: nat)

  ghost function InputAfter(in0: Input, run: seq<Batch>): Input {
    if run == [] then in0
    else
      var b := run[|run| - 1];
      NewInput(InputAfter(in0, run[..|run| - 1]), b.events, b.version)
  }

  ghost function ResultAfter(in0: Input, threshold: real, run: seq<Batch>): Result {
    if run == [] then OptimizeOf(in0)
    else
      var b := run[|run| - 1];
      Step(InputAfter(in0, run[..|run| - 1]), ResultAfter(in0, threshold, run[..|run| - 1]), threshold, b.events, b.version)
  }

  lemma NoHiddenDrop(qm: Quality, events: seq<EdgeDelta>)
    requires Within(qm, DEFAULT_W)
    ensures !HiddenDrop(qm, events)
  {
  }

  lemma ModestInputOk(in0: Input)
    requires NodesSound(in0.nodes) && Within(in0.quality, DEFAULT_W)
    ensures InputOk(in0)
  {
    hide NodesSound, InputOk;
    SampledInputOk(in0);
  }

  // Over every run of batches with weights of at most the default, on any sound set of nodes,
  // the cache agrees with the full recompute.
  lemma {:induction false} RunAgrees(in0: Input, threshold: real, run: seq<Batch>)
    requires NodesSound(in0.nodes) && Within(in0.quality, DEFAULT_W)
    requires forall i :: 0 <= i < |run| ==> EventsWithin(run[i].events, DEFAULT_W)
    ensures Agrees(InputAfter(in0, run), ResultAfter(in0, threshold, run))
    ensures InputAfter(in0, run).nodes == in0.nodes && Within(InputAfter(in0, run).quality, DEFAULT_W)
  {
    hide Agrees, InputOk, NodesSound, Step, OptimizeOf, HiddenDrop, Within, EventsWithin;
    if run == [] {
      ModestInputOk(in0);
      FullAgrees(in0);
    } else {
      var n := |run| - 1;
      RunAgrees(in0, threshold, run[..n]);
      var before := InputAfter(in0, run[..n]);
      WithinStays(before.quality, run[n].events, DEFAULT_W);
      ModestInputOk(before);
      ModestInputOk(NewInput(before, run[n].events, run[n].version));
      NoHiddenDrop(before.quality, run[n].events);
      StepAgrees(before, ResultAfter(in0, threshold, run[..n]), threshold, run[n].events, run[n].version);
    }
  }

  // ---------- the optimizer object ----------

  class IncrementalOptimizer {
    var lastInput: Input
    var lastResult: Result
    var threshold: real
    var lastPathFull: bool

    // The cached result agrees with a full recompute of the cached input.
    ghost predicate Valid()
      reads this
    {
      InputOk(lastInput) && Agrees(lastInput, lastResult)
    }

    constructor (in0: Input)
      requires InputOk(in0)
      ensures Valid() && lastInput == in0 && lastResult == OptimizeOf(in0) && threshold == THRESHOLD
    {
      FullAgrees(in0);
      var res := Optimize(in0);
      lastInput := in0;
      lastResult := res;
      threshold := THRESHOLD;
      lastPathFull := false;
    }

    method ApplyEdgeEvents(events: seq<EdgeDelta>, newVersion: nat) returns (res: Result)
      requires InputOk(lastInput) && InputOk(NewInput(lastInput, events, newVersion))
      modifies this
      ensures lastInput == NewInput(old(lastInput), events, newVersion)
      ensures Updates(old(lastInput).quality, events, lastInput.quality)
      ensures lastResult == res == Step(old(lastInput), old(lastResult), threshold, events, newVersion)
      ensures lastPathFull == GoesFull(old(lastInput), old(lastResult).baseline, threshold, events)
      ensures threshold == old(threshold)
      ensures old(Valid()) && !HiddenDrop(old(lastInput).quality, events) ==> Valid()
    {
      hide InputOk, Agrees, Step, GoesFull, HiddenDrop, Updates;
      if Valid() && !HiddenDrop(lastInput.quality, events) {
        StepAgrees(lastInput, lastResult, threshold, events, newVersion);
      }
      res, lastPathFull := NextResult(lastInput, lastResult, threshold, events, newVersion);
      var newQM := ApplyAll(lastInput.quality, events);
      BatchUpdates(lastInput.quality, events);
      lastInput := lastInput.(quality := newQM, version := newVersion);
      lastResult := res;
    }
  }

  // The step itself: prune both qualities, compare, find the dirty pairs, then patch or
  // recompute in full.
  method NextResult(in0: Input, last: Result, threshold: real, events: seq<EdgeDelta>, newVersion: nat)
    returns (res: Result, full: bool)
    requires InputOk(in0) && InputOk(NewInput(in0, events, newVersion))
    ensures res == Step(in0, last, threshold, events, newVersion)
    ensures full == GoesFull(in0, last.baseline, threshold, events)
  {
    SameEdgesAnyVersion(in0, events, newVersion);
    var newQM := ApplyAll(in0.quality, events);
    var newInput := in0.(quality := newQM, version := newVersion);
    var changed, newPruned, transits := StructureChanged(in0, newInput);
    var cs := ChangedEdgeSet(events, in0.quality);
    hide EdgesIn, OptimizeOf, PatchedBaseline, DirtyPairs, InputOk, NodesOk;
    var dirty := FindDirty(in0, transits, last.baseline, cs);
    var ratio := Ratio(|dirty|, |transits|);
    full := changed || ratio >= threshold;
    if full {
      res := Optimize(newInput);
    } else {
      res := Patch(newInput, transits, newPruned, last.baseline, dirty);
    }
  }

  method ApplyAll(qm: Quality, events: seq<EdgeDelta>) returns (newQM: Quality)
    ensures newQM == ApplyEvents(qm, events)
  {
    newQM := qm;
    for i := 0 to |events|
      invariant newQM == ApplyEvents(qm, events[..i])
    {
      assert events[..i + 1][..i] == events[..i];
      var e := events[i];
      match e.kind
      case Down => newQM := newQM - {KeyOf(e)};
      case Degraded => newQM := newQM[KeyOf(e) := e.w];
      case Recovered => newQM := newQM[KeyOf(e) := e.w];
    }
    assert events[..|events|] == events;
  }

  method ChangedEdgeSet(events: seq<EdgeDelta>, oldQM: Quality) returns (cs: ChangeSet)
    ensures cs == Changes(events, oldQM)
  {
    cs := ChangeSet({}, false);
    for i := 0 to |events|
      invariant cs == Changes(events[..i], oldQM)
    {
      assert events[..i + 1][..i] == events[..i];
      cs := AddChange(cs, events[i], oldQM);
    }
    assert events[..|events|] == events;
  }

  // Prune both qualities and compare roles and edges; the nodes are the same, so the roles are.
  method StructureChanged(old0: Input, new0: Input) returns (changed: bool, newPruned: seq<PrunedEdge>, transits: seq<nat>)
    requires NodesOk(old0.nodes) && new0 == old0.(quality := new0.quality, version := new0.version)
    ensures changed == !SameEdges(EdgesIn(new0), EdgesIn(old0))
    ensures newPruned == EdgesIn(new0) && transits == SortedKeys(TransitsIn(new0))
  {
    var idx := BuildIngressIndex(new0.nodes);
    var leaves, oldTransits, oldLeaves, oldPruned;
    transits, leaves := ClassifyNodes(new0.nodes);
    NetOk(new0.nodes, new0.quality, new0.maxPeers, new0.ingressK);
    newPruned := PruneEdges(Net(transits, new0.quality, idx, new0.maxPeers, new0.ingressK));
    oldTransits, oldLeaves := ClassifyNodes(old0.nodes);
    NetOk(old0.nodes, old0.quality, old0.maxPeers, old0.ingressK);
    oldPruned := PruneEdges(Net(oldTransits, old0.quality, idx, old0.maxPeers, old0.ingressK));
    changed := transits != oldTransits || leaves != oldLeaves || !SameEdges(newPruned, oldPruned);
  }

  method FindDirty(in0: Input, transits: seq<nat>, cached: Baseline, cs: ChangeSet) returns (dirty: set<RoutePair>)
    requires transits == SortedKeys(TransitsIn(in0))
    ensures dirty == DirtyPairs(in0, cached, cs)
  {
    if cs.hasDecrease {
      dirty := set a, b | a in transits && b in transits && a != b :: RoutePair(a, b);
      return;
    }
    dirty := {};
    var todo := cached.Keys;
    while todo != {}
      invariant todo <= cached.Keys
      invariant forall p :: p in dirty <==> p in cached && p !in todo && Touches(p.src, cached[p], cs.edges)
      decreases todo
    {
      var pair :| pair in todo;
      if Touches(pair.src, cached[pair], cs.edges) {
        dirty := dirty + {pair};
      }
      todo := todo - {pair};
    }
  }

  // Recompute what is cheap, and the routes of the dirty pairs; reuse the rest.
  method Patch(in1: Input, transits: seq<nat>, es: seq<PrunedEdge>, cached: Baseline, dirty: set<RoutePair>)
    returns (res: Result)
    requires InputOk(in1) && es == EdgesIn(in1) && transits == SortedKeys(TransitsIn(in1))
    ensures res == OptimizeOf(in1).(baseline := PatchedBaseline(in1, cached, dirty))
  {
    var idx := BuildIngressIndex(in1.nodes);
    var transits', leaves := ClassifyNodes(in1.nodes);
    var n := Net(transits, in1.quality, idx, in1.maxPeers, in1.ingressK);
    var roles := RolesFor(in1, transits, leaves);
    var neighbors := AllNeighbors(in1, n, es, transits, leaves);
    var baseline := PatchRoutes(in1, transits, es, cached, dirty);
    var probeSets := Probes(in1, n);
    res := Result(in1.version, roles, neighbors, baseline, probeSets);
  }

  ghost predicate Patched(in1: Input, cached: Baseline, dirty: set<RoutePair>, p: RoutePair, routes: seq<seq<Hop>>) {
    if p in dirty then p in Connected(in1) && routes == CompressAll(PathsFor(in1, p.src, p.dst))
    else p in cached && routes == cached[p]
  }

  ghost predicate HasRoutes(in1: Input, cached: Baseline, dirty: set<RoutePair>, p: RoutePair) {
    p in AllPairs(in1) && if p in dirty then p in Connected(in1) else p in cached
  }

  method PatchRoutes(in1: Input, transits: seq<nat>, es: seq<PrunedEdge>, cached: Baseline, dirty: set<RoutePair>)
    returns (baseline: Baseline)
    requires InputOk(in1) && es == EdgesIn(in1) && transits == SortedKeys(TransitsIn(in1))
    ensures baseline == PatchedBaseline(in1, cached, dirty)
  {
    GraphInOk(in1);
    var g := BuildSplitGraph(es);
    baseline := map[];
    for i := 0 to |transits|
      invariant forall p :: p in baseline <==> HasRoutes(in1, cached, dirty, p) && p.src in transits[..i]
      invariant forall p :: p in baseline ==> Patched(in1, cached, dirty, p, baseline[p])
    {
      assert transits[..i + 1] == transits[..i] + [transits[i]];
      baseline := PatchFrom(in1, g, transits, transits[i], cached, dirty, baseline);
    }
    assert transits[..|transits|] == transits;
    PatchAssembled(in1, cached, dirty, baseline);
  }

  lemma PatchAssembled(in1: Input, cached: Baseline, dirty: set<RoutePair>, baseline: Baseline)
    requires forall p :: p in baseline <==> HasRoutes(in1, cached, dirty, p) && p.src in TransitsIn(in1)
    requires forall p :: p in baseline ==> Patched(in1, cached, dirty, p, baseline[p])
    ensures baseline == PatchedBaseline(in1, cached, dirty)
  {
    hide Connected, PathsFor, CompressAll;
  }

  method PatchFrom(in1: Input, g: Graph, transits: seq<nat>, a: nat, cached: Baseline, dirty: set<RoutePair>, out0: Baseline)
    returns (out: Baseline)
    requires InputOk(in1) && g == GraphIn(in1) && transits == SortedKeys(TransitsIn(in1)) && a in transits
    requires forall p :: p in out0 ==> HasRoutes(in1, cached, dirty, p) && Patched(in1, cached, dirty, p, out0[p])
    ensures forall p :: p in out <==> p in out0 || (HasRoutes(in1, cached, dirty, p) && p.src == a)
    ensures forall p :: p in out ==> Patched(in1, cached, dirty, p, out[p])
  {
    out := out0;
    hide PathsFor, CompressAll, InputOk, Connected;
    for j := 0 to |transits|
      invariant forall p :: p in out <==> p in out0 || (HasRoutes(in1, cached, dirty, p) && p.src == a && p.dst in transits[..j])
      invariant forall p :: p in out ==> Patched(in1, cached, dirty, p, out[p])
    {
      var b := transits[j];
      assert transits[..j + 1] == transits[..j] + [b];
      if a == b {
        continue;
      }
      var pair := RoutePair(a, b);
      ConnectedIff(in1, a, b);
      if pair in dirty {
        var hopSeqs := PairRoutes(in1, g, a, b);
        CompressAllEmpty(PathsFor(in1, a, b));
        if |hopSeqs| == 0 {
          continue;
        }
        out := out[pair := hopSeqs];
      } else if pair in cached {
        out := out[pair := cached[pair]];
      }
    }
    assert transits[..|transits|] == transits;
  }

  lemma CompressAllEmpty(ps: seq<Path>)
    ensures |CompressAll(ps)| == 0 <==> ps == []
  {
  }
}
