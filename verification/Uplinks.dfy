// Leaf uplinks and probe sets (internal/controller/topology/assign.go).
module Uplinks {
  import opened Paths
  import opened Sorting
  import opened SplitGraph
  import opened Nearest
  import opened Prune
  import opened Assign

  // ---------- leaf uplinks ----------

  function LeafDist(n: Net, leaf: nat): nat -> Best {
    (b: nat) => LeastMeasured(n, leaf, b, |IngOf(n, b)|)
  }

  ghost function UplinkSet(n: Net, leaf: nat, limit: int): set<nat> {
    set c | c in TopCands(n.transits, LeafDist(n, leaf), limit) :: c.dst
  }

  function Limit(limit: int): int {
    if limit <= 0 then DEFAULT_LEAF_UPLINKS else limit
  }

  ghost function MeasuredIngresses(n: Net, leaf: nat, b: nat): set<nat> {
    set e | e in IngOf(n, b) && QKey(leaf, b, e) in n.qm
  }

  ghost function Uplink(n: Net, leaf: nat, b: nat): NeighborSpec {
    NeighborSpec(b, SortedKeys(MeasuredIngresses(n, leaf, b)))
  }

  ghost function LeafSpecs(n: Net, leaf: nat, limit: int): (s: seq<NeighborSpec>)
    ensures |s| == |SortedKeys(UplinkSet(n, leaf, limit))|
    ensures forall i :: 0 <= i < |s| ==> s[i] == Uplink(n, leaf, SortedKeys(UplinkSet(n, leaf, limit))[i])
  {
    seq(|SortedKeys(UplinkSet(n, leaf, limit))|, i requires 0 <= i < |SortedKeys(UplinkSet(n, leaf, limit))| =>
      Uplink(n, leaf, SortedKeys(UplinkSet(n, leaf, limit))[i]))
  }

  // Ranked by least measured weight: b is one of the nodes that may be chosen, was measured from
  // src, and fewer than limit of the others precede it by (weight, number).
  ghost predicate AmongNearest(n: Net, nodes: set<nat>, limit: int, src: nat, b: nat) {
    && b in nodes
    && exists w: nat {:trigger MeasuresAt(n, src, b, w)} ::
         MeasuresAt(n, src, b, w) && |set c | c in nodes && Nearer(n, src, c, w, b)| < limit
  }

  lemma RankedNearest(n: Net, nodes: seq<nat>, dist: nat -> Best, may: set<nat>, limit: int, src: nat, b: nat)
    requires may <= set c | c in nodes
    requires forall c :: c in nodes ==> dist(c) == if c in may then LeastMeasured(n, src, c, |IngOf(n, c)|) else Unreachable
    ensures Ranks(nodes, dist, limit, b) <==> AmongNearest(n, may, limit, src, b)
  {
    hide MeasuresAt, Nearer, LeastMeasured;
    if b in may && dist(b).Best? {
      var w := dist(b).w;
      MeasuredDist(n, src, b, w);
      SameRank(n, nodes, dist, may, src, w, b);
      assert MeasuresAt(n, src, b, w);
    }
    if b in may && exists w: nat :: MeasuresAt(n, src, b, w) {
      var w: nat :| MeasuresAt(n, src, b, w);
      MeasuredDist(n, src, b, w);
    }
    if AmongNearest(n, may, limit, src, b) {
      var w: nat :| MeasuresAt(n, src, b, w) && |set c | c in may && Nearer(n, src, c, w, b)| < limit;
      MeasuredDist(n, src, b, w);
      SameRank(n, nodes, dist, may, src, w, b);
    }
  }

  lemma SameRank(n: Net, nodes: seq<nat>, dist: nat -> Best, may: set<nat>, src: nat, w: nat, b: nat)
    requires may <= set c | c in nodes
    requires forall c :: c in nodes ==> dist(c) == if c in may then LeastMeasured(n, src, c, |IngOf(n, c)|) else Unreachable
    ensures (set c | c in nodes && dist(c).Best? && Closer(Cand(c, dist(c).w), Cand(b, w)))
         == (set c | c in may && Nearer(n, src, c, w, b))
  {
    hide MeasuresAt, LeastMeasured;
    forall c
      ensures c in nodes && dist(c).Best? && Closer(Cand(c, dist(c).w), Cand(b, w)) <==> c in may && Nearer(n, src, c, w, b)
    {
      if c in may && Nearer(n, src, c, w, b) {
        var v: nat :| MeasuresAt(n, src, c, v) && (v < w || (v == w && c < b));
        MeasuredDist(n, src, c, v);
      }
      if c in may && dist(c).Best? {
        MeasuredDist(n, src, c, dist(c).w);
      }
    }
  }

  function Transits(n: Net): set<nat> {
    set t | t in n.transits
  }

  // A leaf's uplinks are the transits it measured that fewer than limit others precede by
  // (least measured weight, number).
  lemma UplinksAreNearest(n: Net, leaf: nat, limit: int, b: nat)
    requires Valid(n)
    ensures (exists s :: s in LeafSpecs(n, leaf, limit) && s.node == b) <==>
      AmongNearest(n, Transits(n), limit, leaf, b)
  {
    hide LeastMeasured, AmongNearest;
    var q := SortedKeys(UplinkSet(n, leaf, limit));
    RankedNearest(n, n.transits, LeafDist(n, leaf), Transits(n), limit, leaf, b);
    PicksRank(n.transits, LeafDist(n, leaf), limit, b);
    assert Picks(n.transits, LeafDist(n, leaf), limit, b) <==> b in q;
    if b in q {
      var i :| 0 <= i < |q| && q[i] == b;
      assert LeafSpecs(n, leaf, limit)[i] == Uplink(n, leaf, b);
    }
  }

  // An uplink carries exactly the ingresses of its node that the leaf measured, in order.
  lemma UplinkIngresses(n: Net, leaf: nat, limit: int, i: nat, e: nat)
    requires i < |LeafSpecs(n, leaf, limit)|
    ensures var s := LeafSpecs(n, leaf, limit)[i];
      Sorted(s.ingresses, Less) && (e in s.ingresses <==> e in IngOf(n, s.node) && QKey(leaf, s.node, e) in n.qm)
    ensures forall j :: 0 <= j < i ==> LeafSpecs(n, leaf, limit)[j].node < LeafSpecs(n, leaf, limit)[i].node
  {
    var q := SortedKeys(UplinkSet(n, leaf, limit));
    forall j | 0 <= j < i
      ensures q[j] < q[i]
    {
      assert Less(q[j], q[i]);
    }
  }

  method AssignLeafUplinks(n: Net, leaves: seq<nat>, limit: int) returns (out: map<nat, seq<NeighborSpec>>)
    ensures forall l :: l in out <==> l in leaves && LeafSpecs(n, l, Limit(limit)) != []
    ensures forall l :: l in out ==> out[l] == LeafSpecs(n, l, Limit(limit))
  {
    out := map[];
    for i := 0 to |leaves|
      invariant forall l :: l in out <==> l in leaves[..i] && LeafSpecs(n, l, Limit(limit)) != []
      invariant forall l :: l in out ==> out[l] == LeafSpecs(n, l, Limit(limit))
    {
      var specs := UplinksOf(n, leaves[i], Limit(limit));
      assert leaves[..i + 1] == leaves[..i] + [leaves[i]];
      if |specs| > 0 {
        out := out[leaves[i] := specs];
      }
    }
    assert leaves[..|leaves|] == leaves;
  }

  method UplinksOf(n: Net, leaf: nat, limit: int) returns (specs: seq<NeighborSpec>)
    ensures specs == LeafSpecs(n, leaf, limit)
  {
    var cands := CollectCands(n.transits, LeafDist(n, leaf));
    var top := Take(Sort(cands, Closer), limit);
    assert top == TopCands(n.transits, LeafDist(n, leaf), limit);
    var chosen := set c | c in top :: c.dst;
    assert chosen == UplinkSet(n, leaf, limit);
    var dsts := KeysInOrder(chosen);
    assert dsts == SortedKeys(UplinkSet(n, leaf, limit));
    specs := [];
    for i := 0 to |dsts|
      invariant |specs| == i && forall j :: 0 <= j < i ==> specs[j] == Uplink(n, leaf, dsts[j])
    {
      var ings := KeysInOrder(set e | e in IngOf(n, dsts[i]) && QKey(leaf, dsts[i], e) in n.qm);
      assert ings == SortedKeys(MeasuredIngresses(n, leaf, dsts[i]));
      specs := specs + [NeighborSpec(dsts[i], ings)];
    }
  }

  // ---------- probe sets ----------

  predicate HasIngress(n: Net, id: nat) {
    |IngOf(n, id)| > 0
  }

  function ProbeDist(n: Net, src: nat): nat -> Best {
    (b: nat) => if b == src || !HasIngress(n, b) then Unreachable else LeastMeasured(n, src, b, |IngOf(n, b)|)
  }

  // What src probes of its own accord.
  function Sampled(n: Net, all: seq<nat>, full: bool, limit: int, src: nat): set<nat> {
    if full then set d | d in all && d != src && HasIngress(n, d)
    else set c | c in TopCands(all, ProbeDist(n, src), limit) :: c.dst
  }

  // With the symmetric closure: a node with an ingress is probed back.
  ghost function Targets(n: Net, all: seq<nat>, full: bool, limit: int, x: nat): set<nat> {
    Sampled(n, all, full, limit, x) +
    if full then {} else set y | y in all && HasIngress(n, y) && x in Sampled(n, all, full, limit, y)
  }

  ghost function TargetOf(n: Net, dst: nat): ProbeTarget {
    ProbeTarget(dst, SortedKeys(set e | e in IngOf(n, dst)))
  }

  ghost function TargetSpecs(n: Net, s: set<nat>): (q: seq<ProbeTarget>)
    ensures |q| == |SortedKeys(s)|
    ensures forall i :: 0 <= i < |q| ==> q[i] == TargetOf(n, SortedKeys(s)[i])
  {
    seq(|SortedKeys(s)|, i requires 0 <= i < |SortedKeys(s)| => TargetOf(n, SortedKeys(s)[i]))
  }

  ghost function ProbeSetsOf(n: Net, all: seq<nat>, full: bool, limit: int): map<nat, seq<ProbeTarget>> {
    map src | src in all :: TargetSpecs(n, Targets(n, all, full, limit, src))
  }

  lemma SampledOk(n: Net, all: seq<nat>, full: bool, limit: int, src: nat, d: nat)
    requires d in Sampled(n, all, full, limit, src)
    ensures d in all && d != src && HasIngress(n, d)
  {
    if !full {
      var c :| c in TopCands(all, ProbeDist(n, src), limit) && c.dst == d;
      SortElements(Cands(all, ProbeDist(n, src), |all|), Closer);
      CandsAre(all, ProbeDist(n, src), |all|, c);
      assert all[..|all|] == all;
    }
  }

  // In full mode a node probes every other node that has an ingress; in sampling mode those of
  // them it measured that fewer than limit others precede by (least measured weight, number).
  lemma SampledAre(n: Net, all: seq<nat>, full: bool, limit: int, src: nat, d: nat)
    requires Distinct(all)
    ensures var may := set c | c in all && c != src && |IngOf(n, c)| > 0;
      d in Sampled(n, all, full, limit, src) <==> if full then d in may else AmongNearest(n, may, limit, src, d)
  {
    hide LeastMeasured, AmongNearest;
    if !full {
      var may := set c | c in all && c != src && |IngOf(n, c)| > 0;
      PicksRank(all, ProbeDist(n, src), limit, d);
      RankedNearest(n, all, ProbeDist(n, src), may, limit, src, d);
      assert Picks(all, ProbeDist(n, src), limit, d) <==> d in Sampled(n, all, full, limit, src);
    }
  }

  // A node's targets: what it probes of its own accord and, in sampling mode, every node that
  // probes it and has an ingress; each with all its reachable ingresses, in order.
  lemma TargetsAre(n: Net, all: seq<nat>, full: bool, limit: int, src: nat, d: nat)
    requires Distinct(all) && src in all
    ensures var may := set c | c in all && c != src && |IngOf(n, c)| > 0;
      var back := set c | c in all && c != d && |IngOf(n, c)| > 0;
      && src in ProbeSetsOf(n, all, full, limit)
      && var specs := ProbeSetsOf(n, all, full, limit)[src];
         && ((exists i :: 0 <= i < |specs| && specs[i].node == d) <==>
               if full then d in may
               else AmongNearest(n, may, limit, src, d)
                    || (d in all && |IngOf(n, d)| > 0 && AmongNearest(n, back, limit, d, src)))
         && (forall i, e :: 0 <= i < |specs| ==> (e in specs[i].ingresses <==> e in IngOf(n, specs[i].node)))
         && (forall i :: 0 <= i < |specs| ==> Sorted(specs[i].ingresses, Less))
  {
    hide AmongNearest, Sampled;
    SampledAre(n, all, full, limit, src, d);
    SampledAre(n, all, full, limit, d, src);
    var t := Targets(n, all, full, limit, src);
    var specs := ProbeSetsOf(n, all, full, limit)[src];
    assert specs == TargetSpecs(n, t);
    if d in t {
      var i :| 0 <= i < |SortedKeys(t)| && SortedKeys(t)[i] == d;
      assert specs[i] == TargetOf(n, d);
    }
    assert forall i :: 0 <= i < |specs| ==> specs[i].node in t;
  }

  // Only nodes with an ingress are probed, none probes itself, and probing is mutual wherever
  // the prober can be probed.
  lemma ProbingIsMutual(n: Net, all: seq<nat>, full: bool, limit: int, x: nat, y: nat)
    requires x in all && y in Targets(n, all, full, limit, x)
    ensures y in all && y != x && HasIngress(n, y)
    ensures HasIngress(n, x) ==> x in Targets(n, all, full, limit, y)
  {
    if y in Sampled(n, all, full, limit, x) {
      SampledOk(n, all, full, limit, x, y);
    } else {
      SampledOk(n, all, full, limit, y, x);
    }
  }

  lemma FullTargets(n: Net, all: seq<nat>, limit: int, src: nat)
    ensures Sampled(n, all, true, limit, src) == Targets(n, all, true, limit, src)
  {
  }

  method BuildProbeSets(n: Net, all: seq<nat>, full: bool, limit: int) returns (out: map<nat, seq<ProbeTarget>>)
    ensures out == ProbeSetsOf(n, all, full, limit)
  {
    hide Sampled, Targets, TargetSpecs, TargetOf, HasIngress;
    var targets := map src | src in all :: Sampled(n, all, full, limit, src);
    if !full {
      targets := Close(n, all, limit, targets);
    } else {
      forall src | src in all
        ensures Sampled(n, all, full, limit, src) == Targets(n, all, full, limit, src)
      {
        FullTargets(n, all, limit, src);
      }
    }
    out := map[];
    var todo := targets.Keys;
    while todo != {}
      invariant todo <= targets.Keys && out.Keys == targets.Keys - todo
      invariant forall s :: s in out ==> out[s] == TargetSpecs(n, targets[s])
      decreases todo
    {
      var src :| src in todo;
      var specs := SpecsOfTargets(n, targets[src]);
      out := out[src := specs];
      todo := todo - {src};
    }
    assert forall s :: s in targets ==> targets[s] == Targets(n, all, full, limit, s);
  }

  // The closure is written into the sets being walked, in any order; the order does not show.
  method Close(n: Net, all: seq<nat>, limit: int, targets0: map<nat, set<nat>>) returns (targets: map<nat, set<nat>>)
    requires targets0 == map src | src in all :: Sampled(n, all, false, limit, src)
    ensures targets == map src | src in all :: Targets(n, all, false, limit, src)
  {
    hide HasIngress, Sampled, Targets, Partly;
    targets := targets0;
    ghost var walked: set<nat> := {};
    forall x | x in all
      ensures Partly(n, all, limit, {}, x) == Sampled(n, all, false, limit, x)
    {
      PartlyNone(n, all, limit, x);
    }
    var todo := targets.Keys;
    while todo != {}
      invariant todo <= targets.Keys == targets0.Keys && walked == targets0.Keys - todo
      invariant forall x :: x in targets ==> targets[x] == Partly(n, all, limit, walked, x)
      decreases todo
    {
      var src :| src in todo;
      todo := todo - {src};
      ghost var before := targets;
      if HasIngress(n, src) {
        targets := AddBack(targets, src);
      }
      PartlyStep(n, all, limit, walked, src, before, targets);
      walked := walked + {src};
    }
    forall x | x in targets
      ensures targets[x] == Targets(n, all, false, limit, x)
    {
      PartlyAll(n, all, limit, walked, x);
    }
  }

  ghost function Partly(n: Net, all: seq<nat>, limit: int, walked: set<nat>, x: nat): set<nat> {
    Sampled(n, all, false, limit, x) + set y | y in walked && HasIngress(n, y) && x in Sampled(n, all, false, limit, y)
  }

  lemma PartlyNone(n: Net, all: seq<nat>, limit: int, x: nat)
    ensures Partly(n, all, limit, {}, x) == Sampled(n, all, false, limit, x)
  {
  }

  lemma PartlyAll(n: Net, all: seq<nat>, limit: int, walked: set<nat>, x: nat)
    requires walked == set src | src in all
    ensures Partly(n, all, limit, walked, x) == Targets(n, all, false, limit, x)
  {
  }

  lemma PartlyStep(n: Net, all: seq<nat>, limit: int, walked: set<nat>, src: nat,
                   before: map<nat, set<nat>>, after: map<nat, set<nat>>)
    requires src in before && after.Keys == before.Keys
    requires forall x :: x in before ==> before[x] == Partly(n, all, limit, walked, x)
    requires forall x :: x in after ==>
      after[x] == if HasIngress(n, src) && x in before[src] then before[x] + {src} else before[x]
    ensures forall x :: x in after ==> after[x] == Partly(n, all, limit, walked + {src}, x)
  {
    forall x | x in after
      ensures after[x] == Partly(n, all, limit, walked + {src}, x)
    {
      PartlyOne(n, all, limit, walked, src, x);
    }
  }

  lemma PartlyOne(n: Net, all: seq<nat>, limit: int, walked: set<nat>, src: nat, x: nat)
    ensures Partly(n, all, limit, walked + {src}, x) ==
      if HasIngress(n, src) && x in Partly(n, all, limit, walked, src)
      then Partly(n, all, limit, walked, x) + {src} else Partly(n, all, limit, walked, x)
  {
    var p, q := Partly(n, all, limit, walked, x), Partly(n, all, limit, walked + {src}, x);
    assert q == p + if HasIngress(n, src) && x in Sampled(n, all, false, limit, src) then {src} else {};
  }

  // Let every target of src probe src.
  method AddBack(targets0: map<nat, set<nat>>, src: nat) returns (targets: map<nat, set<nat>>)
    requires src in targets0
    ensures targets.Keys == targets0.Keys
    ensures forall x :: x in targets ==> targets[x] == if x in targets0[src] then targets0[x] + {src} else targets0[x]
  {
    targets := targets0;
    var todo := targets0[src];
    while todo != {}
      invariant todo <= targets0[src] && targets.Keys == targets0.Keys
      invariant forall x :: x in targets ==>
        targets[x] == if x in targets0[src] - todo then targets0[x] + {src} else targets0[x]
      decreases todo
    {
      var dst :| dst in todo;
      if dst in targets {
        targets := targets[dst := targets[dst] + {src}];
      }
      todo := todo - {dst};
    }
  }

  method SpecsOfTargets(n: Net, s: set<nat>) returns (specs: seq<ProbeTarget>)
    ensures specs == TargetSpecs(n, s)
  {
    var dsts := KeysInOrder(s);
    specs := [];
    for i := 0 to |dsts|
      invariant |specs| == i && forall j :: 0 <= j < i ==> specs[j] == TargetOf(n, dsts[j])
    {
      var ids := KeysInOrder(set e | e in IngOf(n, dsts[i]));
      specs := specs + [ProbeTarget(dsts[i], ids)];
    }
  }
}
