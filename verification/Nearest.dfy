// The d nearest of a list of nodes, by measured or assumed distance; ties go to the smaller
// identifier. Pruning, leaf uplinks and probe sampling all choose this way.
module Nearest {
  import opened Paths
  import opened Sorting

  datatype Best = Unreachable | Best(w: nat)

  datatype Cand = Cand(dst: nat, w: nat)

  predicate Closer(x: Cand, y: Cand) {
    if x.w != y.w then x.w < y.w else x.dst < y.dst
  }

  function Take<T>(s: seq<T>, k: int): seq<T> {
    if k <= 0 then [] else if |s| > k then s[..k] else s
  }

  // The reachable ones among the first i nodes.
  function Cands(nodes: seq<nat>, dist: nat -> Best, i: nat): seq<Cand>
    requires i <= |nodes|
  {
    if i == 0 then []
    else
      var b := nodes[i - 1];
      var rest := Cands(nodes, dist, i - 1);
      if dist(b).Best? then rest + [Cand(b, dist(b).w)] else rest
  }

  function TopCands(nodes: seq<nat>, dist: nat -> Best, d: int): seq<Cand> {
    Take(Sort(Cands(nodes, dist, |nodes|), Closer), d)
  }

  // b is among the d nearest.
  predicate Picks(nodes: seq<nat>, dist: nat -> Best, d: int, b: nat) {
    exists c :: c in TopCands(nodes, dist, d) && c.dst == b
  }

  // b is reachable, and fewer than d nodes are nearer.
  ghost predicate Ranks(nodes: seq<nat>, dist: nat -> Best, d: int, b: nat) {
    && b in nodes && dist(b).Best?
    && |set c | c in nodes && dist(c).Best? && Closer(Cand(c, dist(c).w), Cand(b, dist(b).w))| < d
  }

  method CollectCands(nodes: seq<nat>, dist: nat -> Best) returns (cands: seq<Cand>)
    ensures cands == Cands(nodes, dist, |nodes|)
  {
    cands := [];
    for i := 0 to |nodes|
      invariant cands == Cands(nodes, dist, i)
    {
      var best := dist(nodes[i]);
      if best.Best? {
        cands := cands + [Cand(nodes[i], best.w)];
      }
    }
  }

  lemma CloserIsOrder()
    ensures WeakOrder(Closer)
  {
  }

  lemma TakeRank<T(!new)>(s: seq<T>, before: Order<T>, k: int, x: T)
    requires WeakOrder(before) && Separated(s, before)
    ensures x in Take(Sort(s, before), k) <==> x in s && |Earlier(s, x, before)| < k
  {
    SortElements(s, before);
    if x in s && k > 0 {
      if k <= |s| {
        RankPrefix(s, before, k, x);
      } else {
        EarlierBounded(s, x, before);
      }
    }
  }

  lemma EarlierBounded<T(!new)>(s: seq<T>, x: T, before: Order<T>)
    ensures |Earlier(s, x, before)| <= |s|
  {
    SubsetOfSeq(s, Earlier(s, x, before));
  }

  lemma {:induction false} SubsetOfSeq<T>(s: seq<T>, e: set<T>)
    requires forall x :: x in e ==> x in s
    ensures |e| <= |s|
  {
    if s == [] {
      assert e == {};
    } else {
      var n := |s| - 1;
      forall x | x in e - {s[n]}
        ensures x in s[..n]
      {
      }
      SubsetOfSeq(s[..n], e - {s[n]});
      assert |e| <= |e - {s[n]}| + 1;
    }
  }

  lemma {:induction false} CandsAre(nodes: seq<nat>, dist: nat -> Best, i: nat, c: Cand)
    requires i <= |nodes|
    ensures c in Cands(nodes, dist, i) <==>
      c.dst in nodes[..i] && dist(c.dst) == Best(c.w)
  {
    if i > 0 {
      CandsAre(nodes, dist, i - 1, c);
      assert nodes[..i] == nodes[..i - 1] + [nodes[i - 1]];
    }
  }

  lemma {:induction false} CandsSeparated(nodes: seq<nat>, dist: nat -> Best, i: nat)
    requires Distinct(nodes) && i <= |nodes|
    ensures Separated(Cands(nodes, dist, i), Closer)
  {
    if i > 0 {
      CandsSeparated(nodes, dist, i - 1);
      var rest := Cands(nodes, dist, i - 1);
      forall j | 0 <= j < |rest|
        ensures rest[j].dst != nodes[i - 1]
      {
        CandsAre(nodes, dist, i - 1, rest[j]);
      }
    }
  }

  // The neighbours picked are those that fewer than d transits precede.
  lemma PicksRank(nodes: seq<nat>, dist: nat -> Best, d: int, b: nat)
    requires Distinct(nodes)
    ensures Picks(nodes, dist, d, b) <==> Ranks(nodes, dist, d, b)
  {
    var all := Cands(nodes, dist, |nodes|);
    assert nodes[..|nodes|] == nodes;
    CloserIsOrder();
    CandsSeparated(nodes, dist, |nodes|);
    if Picks(nodes, dist, d, b) {
      var c :| c in TopCands(nodes, dist, d) && c.dst == b;
      TakeRank(all, Closer, d, c);
      CandsAre(nodes, dist, |nodes|, c);
      RankSets(nodes, dist, c);
    }
    if Ranks(nodes, dist, d, b) {
      var c := Cand(b, dist(b).w);
      CandsAre(nodes, dist, |nodes|, c);
      RankSets(nodes, dist, c);
      TakeRank(all, Closer, d, c);
    }
  }

  lemma RankSets(nodes: seq<nat>, dist: nat -> Best, c: Cand)
    ensures |Earlier(Cands(nodes, dist, |nodes|), c, Closer)|
         == |set x | x in nodes && dist(x).Best? && Closer(Cand(x, dist(x).w), c)|
  {
    var e := Earlier(Cands(nodes, dist, |nodes|), c, Closer);
    var s := set x | x in nodes && dist(x).Best? && Closer(Cand(x, dist(x).w), c);
    assert nodes[..|nodes|] == nodes;
    forall x | x in e
      ensures x.dst in s && dist(x.dst) == Best(x.w)
    {
      CandsAre(nodes, dist, |nodes|, x);
    }
    forall x | x in s
      ensures Cand(x, dist(x).w) in e
    {
      CandsAre(nodes, dist, |nodes|, Cand(x, dist(x).w));
    }
    SameSize(dist, e, s);
  }

  lemma {:induction false} SameSize(dist: nat -> Best, e: set<Cand>, s: set<nat>)
    requires forall x :: x in e ==> x.dst in s && dist(x.dst) == Best(x.w)
    requires forall x :: x in s ==> dist(x).Best? && Cand(x, dist(x).w) in e
    ensures |e| == |s|
  {
    if e == {} {
      assert forall x :: x in s ==> Cand(x, dist(x).w) in e;
      assert s == {};
    } else {
      var x :| x in e;
      forall y | y in e - {x}
        ensures y.dst in s - {x.dst}
      {
      }
      SameSize(dist, e - {x}, s - {x.dst});
    }
  }
}
