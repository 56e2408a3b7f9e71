// Loop freedom of the forwarding graph (internal/controller/topology/dag.go).
module Dag {
  import opened Paths

  datatype NextHop = NextHop(peer: nat, weight: nat, ingress: nat)

  datatype Entry = Entry(prefix: nat, hops: seq<NextHop>)

  type Fib = map<nat, seq<Entry>>

  // Each node's successors, over all prefixes.
  type Forwards = map<nat, seq<nat>>

  datatype Step = Step(from: nat, to: nat)

  predicate Steps(g: Forwards, a: nat, b: nat) {
    a in g && b in g[a]
  }

  function EdgesOf(g: Forwards): set<Step> {
    set a, b | a in g && b in g[a] :: Step(a, b)
  }

  function NodesOf(g: Forwards): set<nat> {
    g.Keys + set a, b | a in g && b in g[a] :: b
  }

  ghost predicate Chain(g: Forwards, w: seq<nat>) {
    forall i :: 0 <= i < |w| - 1 ==> Steps(g, w[i], w[i + 1])
  }

  ghost predicate Closed(g: Forwards, w: seq<nat>) {
    |w| >= 2 && Chain(g, w) && w[0] == w[|w| - 1]
  }

  ghost predicate Acyclic(g: Forwards) {
    forall w :: !Closed(g, w)
  }

  // A closed walk that meets no node twice before it closes.
  ghost predicate Cycle(g: Forwards, w: seq<nat>) {
    Closed(g, w) && Distinct(w[..|w| - 1])
  }

  lemma CycleIsClosed(g: Forwards, w: seq<nat>)
    requires Cycle(g, w)
    ensures !Acyclic(g) && w != []
  {
  }

  // ---------- finishing order ----------

  // Every successor of a finished node finished before it.
  ghost predicate Finished(g: Forwards, f: seq<nat>) {
    Distinct(f) && forall i, b :: 0 <= i < |f| && Steps(g, f[i], b) ==> b in f[..i]
  }

  lemma {:induction false} Descends(g: Forwards, f: seq<nat>, w: seq<nat>, i: nat, k: nat) returns (j: nat)
    requires Finished(g, f) && Chain(g, w) && i < |f| && k < |w| && w[0] == f[i]
    ensures j + k <= i && f[j] == w[k]
  {
    if k == 0 {
      j := i;
    } else {
      var j0 := Descends(g, f, w, i, k - 1);
      assert Steps(g, w[k - 1], w[k - 1 + 1]);
      assert w[k] in f[..j0];
      j :| 0 <= j < j0 && f[j] == w[k];
    }
  }

  lemma FinishedIsAcyclic(g: Forwards, f: seq<nat>)
    requires Finished(g, f) && forall a :: a in g ==> a in f
    ensures Acyclic(g)
  {
    forall w | Closed(g, w)
      ensures false
    {
      assert Steps(g, w[0], w[0 + 1]);
      var i :| 0 <= i < |f| && f[i] == w[0];
      var j := Descends(g, f, w, i, |w| - 1);
    }
  }

  // On an acyclic graph no walk meets a node twice, so none is longer than the node count.
  lemma WalksAreShort(g: Forwards, w: seq<nat>)
    requires Acyclic(g) && Chain(g, w) && |w| >= 2
    ensures Distinct(w) && |w| <= |NodesOf(g)|
  {
    forall i, j | 0 <= i < j < |w|
      ensures w[i] != w[j]
    {
      var v := w[i..j + 1];
      forall k | 0 <= k < |v| - 1
        ensures Steps(g, v[k], v[k + 1])
      {
        assert Steps(g, w[i + k], w[i + k + 1]);
      }
      assert !Closed(g, v);
    }
    forall i | 0 <= i < |w|
      ensures w[i] in NodesOf(g)
    {
      if i > 0 {
        assert Steps(g, w[i - 1], w[i - 1 + 1]);
      } else {
        assert Steps(g, w[0], w[0 + 1]);
      }
    }
    DistinctFits(w, NodesOf(g));
  }

  // ---------- depth-first search ----------

  datatype Color = White | Gray | Black

  predicate ParentOf(parent: map<nat, nat>, u: nat, v: nat) {
    v in parent && parent[v] == u
  }

  lemma FinishNext(g: Forwards, f: seq<nat>, node: nat)
    requires Finished(g, f) && node !in f && forall b :: Steps(g, node, b) ==> b in f
    ensures Finished(g, f + [node])
  {
    var h := f + [node];
    forall i, b | 0 <= i < |h| && Steps(g, h[i], b)
      ensures b in h[..i]
    {
      assert h[..i] == f[..i];
    }
  }

  lemma ChainFront(g: Forwards, w: seq<nat>)
    requires Chain(g, w) && Distinct(w) && w != []
    ensures Chain(g, w[..|w| - 1]) && Distinct(w[..|w| - 1])
    ensures forall n :: n in w[..|w| - 1] <==> n in w && n != w[|w| - 1]
  {
    var v := w[..|w| - 1];
    forall i | 0 <= i < |v| - 1
      ensures Steps(g, v[i], v[i + 1])
    {
      assert Steps(g, w[i], w[i + 1]);
    }
    assert w == v + [w[|w| - 1]];
  }

  // A walk closed by an edge back into it.
  lemma LoopCloses(g: Forwards, walk: seq<nat>, q: nat)
    requires Chain(g, walk) && Distinct(walk) && q < |walk| && Steps(g, walk[|walk| - 1], walk[q])
    ensures Cycle(g, walk[q..] + [walk[q]])
  {
    var w := walk[q..] + [walk[q]];
    forall i | 0 <= i < |w| - 1
      ensures Steps(g, w[i], w[i + 1])
    {
      if i < |w| - 2 {
        assert Steps(g, walk[q + i], walk[q + i + 1]);
      }
    }
    assert w[..|w| - 1] == walk[q..];
  }

  class Search {
    var color: map<nat, Color>
    var parent: map<nat, nat>
    ghost var stack: seq<nat>
    ghost var finish: seq<nat>

    ghost predicate Marked(g: Forwards)
      reads this`color, this`stack, this`finish
    {
      && color.Keys == NodesOf(g)
      && (forall n :: n in color ==> (color[n] == Gray <==> n in stack))
      && (forall n :: n in color ==> (color[n] == Black <==> n in finish))
      && (forall n :: n in stack || n in finish ==> n in color)
      && Distinct(stack) && Chain(g, stack) && Finished(g, finish)
    }

    ghost predicate Parents()
      reads this`parent, this`stack
    {
      forall i :: 0 <= i < |stack| - 1 ==> ParentOf(parent, stack[i], stack[i + 1])
    }

    ghost function Whites(): set<nat>
      reads this`color
    {
      set n | n in color && color[n] == White
    }

    ghost predicate Enters(g: Forwards, node: nat)
      reads this`color, this`stack, this`finish
    {
      Marked(g) && node in Whites() && (stack != [] ==> Steps(g, stack[|stack| - 1], node))
    }

    // node was visited: the stack is as before, and node and what finished before stay finished.
    twostate predicate Left(g: Forwards, node: nat)
      reads this
    {
      && Marked(g) && stack == old(stack) && old(finish) <= finish && node in finish
      && Whites() <= old(Whites())
    }

    lemma ColorMeans(g: Forwards, a: nat, b: nat)
      requires Marked(g) && Steps(g, a, b)
      ensures b in color
      ensures color[b] == Gray ==> b in stack
      ensures color[b] == White ==> b in Whites() && b !in stack
      ensures color[b] == Black ==> b in finish
    {
    }

    // Between visits a node is unvisited or finished.
    lemma Settled(g: Forwards, node: nat)
      requires Marked(g) && stack == [] && node in g
      ensures node in color && (color[node] == White ==> node in Whites()) && (color[node] != White ==> node in finish)
    {
    }

    lemma AllFinished(g: Forwards)
      requires Marked(g)
      ensures Finished(g, finish)
    {
    }

    constructor (g: Forwards)
      ensures Marked(g) && Parents() && stack == [] && finish == []
      ensures fresh(this)
    {
      color := map n | n in NodesOf(g) :: White;
      parent := map[];
      stack := [];
      finish := [];
    }

    ghost method Push(g: Forwards, node: nat)
      requires stack != [] ==> Steps(g, stack[|stack| - 1], node)
      requires node !in stack && Distinct(stack) && Chain(g, stack)
      modifies this`stack
      ensures stack == old(stack) + [node] && Distinct(stack) && Chain(g, stack)
    {
      stack := stack + [node];
    }

    method Enter(g: Forwards, node: nat)
      requires Enters(g, node)
      modifies this`color, this`stack
      ensures Marked(g) && stack == old(stack) + [node]
      ensures Whites() == old(Whites()) - {node}
      ensures old(Parents()) && (old(stack) != [] ==> ParentOf(parent, old(stack)[|old(stack)| - 1], node)) ==> Parents()
    {
      color := color[node := Gray];
      Push(g, node);
    }

    method Leave(g: Forwards, node: nat)
      requires Marked(g) && stack != [] && node == stack[|stack| - 1]
      requires forall b :: Steps(g, node, b) ==> b in finish
      modifies this`color, this`stack, this`finish
      ensures Marked(g) && stack == old(stack)[..|old(stack)| - 1] && finish == old(finish) + [node]
      ensures Whites() == old(Whites())
      ensures old(Parents()) ==> Parents()
    {
      hide Chain, Finished, Distinct;
      assert node in stack && color[node] == Gray;
      ChainFront(g, stack);
      FinishNext(g, finish, node);
      color := color[node := Black];
      stack := stack[..|stack| - 1];
      finish := finish + [node];
    }

    method SetParent(node: nat, succ: nat)
      requires Parents() && succ !in stack
      modifies this`parent
      ensures Parents() && ParentOf(parent, node, succ)
    {
      parent := parent[succ := node];
    }

    // The path from succ down to the node being visited, closed by the edge back to succ.
    ghost function Loop(succ: nat): (w: seq<nat>)
      requires succ in stack
      reads this
      ensures exists q :: 0 <= q < |stack| && stack[q] == succ && w == stack[q..] + [succ]
    {
      var q :| 0 <= q < |stack| && stack[q] == succ;
      stack[q..] + [succ]
    }

    lemma LoopIsCycle(g: Forwards, succ: nat)
      requires Marked(g) && succ in stack && Steps(g, stack[|stack| - 1], succ)
      ensures Cycle(g, Loop(succ))
      ensures Loop(succ)[|Loop(succ)| - 2] == stack[|stack| - 1]
    {
      hide Finished, Chain, Distinct, Cycle, Steps, NodesOf;
      var w := Loop(succ);
      var q :| 0 <= q < |stack| && stack[q] == succ && w == stack[q..] + [succ];
      LoopCloses(g, stack, q);
    }

    method DfsVisit(g: Forwards, node: nat) returns (hasCycle: bool)
      requires Enters(g, node)
      modifies this
      decreases |Whites()|
      ensures hasCycle ==> !Acyclic(g)
      ensures !hasCycle ==> Left(g, node)
    {
      hide Chain, Finished, Distinct, Cycle, Acyclic, Parents, Marked, Whites, Loop, NodesOf;
      Enter(g, node);
      var succs := if node in g then g[node] else [];
      for i := 0 to |succs|
        invariant Marked(g) && stack == old(stack) + [node] && old(finish) <= finish
        invariant Whites() <= old(Whites()) - {node}
        invariant forall j :: 0 <= j < i ==> succs[j] in finish
      {
        var succ := succs[i];
        assert Steps(g, node, succ);
        ColorMeans(g, node, succ);
        match color[succ]
        case Gray =>
          LoopIsCycle(g, succ);
          CycleIsClosed(g, Loop(succ));
          return true;
        case White =>
          SubsetIsSmaller(Whites(), old(Whites()), node);
          var found := DfsVisit(g, succ);
          if found {
            return true;
          }
        case Black =>
      }
      Leave(g, node);
      return false;
    }

    // A back edge: node's predecessors are followed up to succ.
    method Backtrack(g: Forwards, node: nat, succ: nat) returns (cycle: seq<nat>)
      requires Marked(g) && Parents() && succ in stack && stack[|stack| - 1] == node
      ensures cycle == Loop(succ)
    {
      cycle := [succ, node];
      var cur := node;
      ghost var p := |stack| - 1;
      ghost var q :| 0 <= q < |stack| && stack[q] == succ && Loop(succ) == stack[q..] + [succ];
      while cur != succ
        invariant q <= p < |stack| && stack[p] == cur
        invariant |cycle| == 1 + |stack| - p && cycle[0] == succ
        invariant forall j :: 1 <= j < |cycle| ==> cycle[j] == stack[|stack| - j]
        decreases p
      {
        assert ParentOf(parent, stack[p - 1], stack[p - 1 + 1]);
        cur := parent[cur];
        cycle := cycle + [cur];
        p := p - 1;
      }
      cycle := seq(|cycle|, i requires 0 <= i < |cycle| => cycle[|cycle| - 1 - i]);
      assert cycle == stack[q..] + [succ];
    }

    method CloseLoop(g: Forwards, node: nat, succ: nat) returns (cycle: seq<nat>)
      requires Marked(g) && Parents() && succ in stack && stack[|stack| - 1] == node && Steps(g, node, succ)
      ensures Cycle(g, cycle) && cycle != []
    {
      hide Cycle, Acyclic, Chain, Finished, Distinct, Loop;
      cycle := Backtrack(g, node, succ);
      LoopIsCycle(g, succ);
      CycleIsClosed(g, cycle);
    }

    method DfsFindCycle(g: Forwards, node: nat) returns (cycle: seq<nat>)
      requires Enters(g, node) && Parents()
      requires stack != [] ==> ParentOf(parent, stack[|stack| - 1], node)
      modifies this
      decreases |Whites()|
      ensures cycle != [] ==> Cycle(g, cycle)
      ensures cycle == [] ==> Left(g, node) && Parents()
    {
      hide Chain, Finished, Distinct, Cycle, Acyclic, Parents, Marked, Whites, Loop, NodesOf;
      Enter(g, node);
      var succs := if node in g then g[node] else [];
      for i := 0 to |succs|
        invariant Marked(g) && Parents() && stack == old(stack) + [node] && old(finish) <= finish
        invariant Whites() <= old(Whites()) - {node}
        invariant forall j :: 0 <= j < i ==> succs[j] in finish
      {
        var succ := succs[i];
        assert Steps(g, node, succ);
        ColorMeans(g, node, succ);
        if color[succ] == Gray {
          cycle := CloseLoop(g, node, succ);
          return;
        }
        if color[succ] == White {
          SetParent(node, succ);
          SubsetIsSmaller(Whites(), old(Whites()), node);
          cycle := DfsFindCycle(g, succ);
          if cycle != [] {
            return;
          }
        }
      }
      Leave(g, node);
      return [];
    }
  }

  lemma SubsetIsSmaller(a: set<nat>, b: set<nat>, x: nat)
    requires a <= b - {x} && x in b
    ensures |a| < |b|
  {
    SubsetSize(a, b - {x});
  }

  method FindOneCycle(g: Forwards) returns (cycle: seq<nat>)
    ensures cycle == [] <==> Acyclic(g)
    ensures cycle != [] ==> Cycle(g, cycle)
  {
    hide Chain, Cycle, Acyclic, Distinct, Finished, Steps, Search.Marked;
    var search := new Search(g);
    var rest := g.Keys;
    while rest != {}
      invariant rest <= g.Keys
      invariant search.Marked(g) && search.Parents() && search.stack == []
      invariant forall n :: n in g && n !in rest ==> n in search.finish
      modifies search
    {
      var node :| node in rest;
      rest := rest - {node};
      search.Settled(g, node);
      if search.color[node] != White {
        continue;
      }
      cycle := search.DfsFindCycle(g, node);
      if cycle != [] {
        CycleIsClosed(g, cycle);
        return;
      }
    }
    search.AllFinished(g);
    FinishedIsAcyclic(g, search.finish);
    return [];
  }

  // ok says there was no error; otherwise cycle is what the error names.
  method ValidateDAG(g: Forwards) returns (ok: bool, cycle: seq<nat>)
    ensures ok <==> Acyclic(g)
    ensures !ok ==> Cycle(g, cycle)
  {
    hide Chain, Cycle, Acyclic, Distinct, Finished, Steps, Search.Marked;
    var search := new Search(g);
    var rest := g.Keys;
    while rest != {}
      invariant rest <= g.Keys
      invariant search.Marked(g) && search.stack == []
      invariant forall n :: n in g && n !in rest ==> n in search.finish
      modifies search
    {
      var node :| node in rest;
      rest := rest - {node};
      search.Settled(g, node);
      if search.color[node] == White {
        var hasCycle := search.DfsVisit(g, node);
        if hasCycle {
          cycle := FindOneCycle(g);
          return false, cycle;
        }
      }
    }
    search.AllFinished(g);
    FinishedIsAcyclic(g, search.finish);
    return true, [];
  }

  // ---------- cutting edges ----------

  function Filter<T>(s: seq<T>, keep: T -> bool): seq<T> {
    if s == [] then []
    else Filter(s[..|s| - 1], keep) + if keep(s[|s| - 1]) then [s[|s| - 1]] else []
  }

  lemma {:induction false} FilterIn<T>(s: seq<T>, keep: T -> bool, x: T)
    ensures x in Filter(s, keep) <==> x in s && keep(x)
  {
    if s != [] {
      FilterIn(s[..|s| - 1], keep, x);
      assert s == s[..|s| - 1] + [s[|s| - 1]];
    }
  }

  lemma FilterSnoc<T>(s: seq<T>, x: T, keep: T -> bool)
    ensures Filter(s + [x], keep) == Filter(s, keep) + if keep(x) then [x] else []
  {
    assert (s + [x])[..|s|] == s;
  }

  lemma {:induction false} FilterTwice<T(!new)>(s: seq<T>, p: T -> bool, q: T -> bool, r: T -> bool)
    requires forall x :: r(x) <==> p(x) && q(x)
    ensures Filter(Filter(s, p), q) == Filter(s, r)
  {
    if s != [] {
      var t := Filter(s[..|s| - 1], p);
      FilterTwice(s[..|s| - 1], p, q, r);
      if p(s[|s| - 1]) {
        FilterSnoc(t, s[|s| - 1], q);
      } else {
        assert Filter(s, p) == t;
      }
    }
  }

  lemma {:induction false} FilterAll<T(!new)>(s: seq<T>, p: T -> bool)
    requires forall x :: x in s ==> p(x)
    ensures Filter(s, p) == s
  {
    if s != [] {
      FilterAll(s[..|s| - 1], p);
      assert s == s[..|s| - 1] + [s[|s| - 1]];
    }
  }

  function Spared(a: nat, cut: set<Step>): nat -> bool {
    (b: nat) => Step(a, b) !in cut
  }

  function HopSpared(a: nat, cut: set<Step>): NextHop -> bool {
    (h: NextHop) => Step(a, h.peer) !in cut
  }

  // The entries with their cut next-hops dropped, and without those left empty.
  function Trim(entries: seq<Entry>, a: nat, cut: set<Step>): seq<Entry> {
    if entries == [] then []
    else
      var e := entries[|entries| - 1];
      var hops := Filter(e.hops, HopSpared(a, cut));
      Trim(entries[..|entries| - 1], a, cut) + if hops == [] then [] else [Entry(e.prefix, hops)]
  }

  predicate Touched(a: nat, cut: set<Step>) {
    exists s :: s in cut && s.from == a
  }

  function CutGraph(g: Forwards, cut: set<Step>): Forwards {
    map a | a in g :: Filter(g[a], Spared(a, cut))
  }

  // Sources that lose no edge keep their entries as they are.
  function Cut(fib: Fib, a: nat, cut: set<Step>): seq<Entry>
    requires a in fib
  {
    if Touched(a, cut) then Trim(fib[a], a, cut) else fib[a]
  }

  function CutFib(fib: Fib, cut: set<Step>): Fib {
    map a | a in fib && (Touched(a, cut) ==> Cut(fib, a, cut) != []) :: Cut(fib, a, cut)
  }

  // a sends packets for prefix to h.
  ghost predicate Sends(fib: Fib, a: nat, prefix: nat, h: NextHop) {
    a in fib && exists e :: e in fib[a] && e.prefix == prefix && h in e.hops
  }

  ghost predicate Offers(fib: Fib, a: nat, b: nat) {
    exists prefix, h :: Sends(fib, a, prefix, h) && h.peer == b
  }

  ghost predicate InStep(fib: Fib, g: Forwards) {
    forall a, b :: Steps(g, a, b) <==> Offers(fib, a, b)
  }

  lemma {:induction false} TrimKeeps(entries: seq<Entry>, a: nat, cut: set<Step>, prefix: nat, h: NextHop)
    ensures (exists e :: e in Trim(entries, a, cut) && e.prefix == prefix && h in e.hops) <==>
      (exists e :: e in entries && e.prefix == prefix && h in e.hops) && Step(a, h.peer) !in cut
  {
    if entries != [] {
      var n := |entries| - 1;
      var e := entries[n];
      TrimKeeps(entries[..n], a, cut, prefix, h);
      FilterIn(e.hops, HopSpared(a, cut), h);
      assert entries == entries[..n] + [e];
    }
  }

  // Cutting removes the next-hops of the cut edges, for every prefix, and no other.
  lemma CutSends(fib: Fib, cut: set<Step>, a: nat, prefix: nat, h: NextHop)
    ensures Sends(CutFib(fib, cut), a, prefix, h) <==> Sends(fib, a, prefix, h) && Step(a, h.peer) !in cut
  {
    if a in fib && Touched(a, cut) {
      TrimKeeps(fib[a], a, cut, prefix, h);
    }
  }

  lemma CutInStep(fib: Fib, g: Forwards, cut: set<Step>)
    requires InStep(fib, g)
    ensures InStep(CutFib(fib, cut), CutGraph(g, cut))
  {
    forall a, b
      ensures Steps(CutGraph(g, cut), a, b) <==> Offers(CutFib(fib, cut), a, b)
    {
      CutSteps(g, cut, a, b);
      if Offers(fib, a, b) && Step(a, b) !in cut {
        var prefix, h :| Sends(fib, a, prefix, h) && h.peer == b;
        CutSends(fib, cut, a, prefix, h);
      }
      if Offers(CutFib(fib, cut), a, b) {
        var prefix, h :| Sends(CutFib(fib, cut), a, prefix, h) && h.peer == b;
        CutSends(fib, cut, a, prefix, h);
      }
    }
  }

  lemma CutSteps(g: Forwards, cut: set<Step>, a: nat, b: nat)
    ensures Steps(CutGraph(g, cut), a, b) <==> Steps(g, a, b) && Step(a, b) !in cut
  {
    if a in g {
      FilterIn(g[a], Spared(a, cut), b);
    }
  }

  function TrimOne(e: Entry, a: nat, cut: set<Step>): seq<Entry> {
    var hops := Filter(e.hops, HopSpared(a, cut));
    if hops == [] then [] else [Entry(e.prefix, hops)]
  }

  lemma TrimSnoc(entries: seq<Entry>, e: Entry, a: nat, cut: set<Step>)
    ensures Trim(entries + [e], a, cut) == Trim(entries, a, cut) + TrimOne(e, a, cut)
  {
    assert (entries + [e])[..|entries|] == entries;
  }

  lemma {:induction false} TrimTwice(entries: seq<Entry>, a: nat, cut: set<Step>, more: set<Step>)
    ensures Trim(Trim(entries, a, cut), a, more) == Trim(entries, a, cut + more)
  {
    if entries != [] {
      var n := |entries| - 1;
      var e := entries[n];
      TrimTwice(entries[..n], a, cut, more);
      FilterTwice(e.hops, HopSpared(a, cut), HopSpared(a, more), HopSpared(a, cut + more));
      var t, hops := Trim(entries[..n], a, cut), Filter(e.hops, HopSpared(a, cut));
      assert Trim(entries, a, cut + more) == Trim(entries[..n], a, cut + more) + TrimOne(e, a, cut + more);
      if hops != [] {
        assert Trim(entries, a, cut) == t + [Entry(e.prefix, hops)];
        TrimSnoc(t, Entry(e.prefix, hops), a, more);
      } else {
        assert Trim(entries, a, cut) == t;
      }
    }
  }

  lemma {:induction false} TrimUntouched(entries: seq<Entry>, a: nat, cut: set<Step>, more: set<Step>)
    requires forall b :: Step(a, b) in cut <==> Step(a, b) in more
    ensures Trim(entries, a, cut) == Trim(entries, a, more)
  {
    if entries != [] {
      TrimUntouched(entries[..|entries| - 1], a, cut, more);
      SameFilter(entries[|entries| - 1].hops, HopSpared(a, cut), HopSpared(a, more));
    }
  }

  lemma {:induction false} SameFilter<T(!new)>(s: seq<T>, p: T -> bool, q: T -> bool)
    requires forall x :: p(x) <==> q(x)
    ensures Filter(s, p) == Filter(s, q)
  {
    if s != [] {
      SameFilter(s[..|s| - 1], p, q);
    }
  }

  // An edge that closes a cycle.
  ghost predicate OnCycle(g: Forwards, s: Step) {
    exists w :: Cycle(g, w) && s == Step(w[|w| - 2], w[|w| - 1])
  }

  lemma CutCycle(g: Forwards, cut: set<Step>, w: seq<nat>)
    requires Cycle(CutGraph(g, cut), w)
    ensures Cycle(g, w)
    ensures Step(w[|w| - 2], w[|w| - 1]) in EdgesOf(CutGraph(g, cut))
  {
    forall i | 0 <= i < |w| - 1
      ensures Steps(g, w[i], w[i + 1])
    {
      assert Steps(CutGraph(g, cut), w[i], w[i + 1]);
      CutSteps(g, cut, w[i], w[i + 1]);
    }
    assert Steps(CutGraph(g, cut), w[|w| - 2], w[|w| - 2 + 1]);
  }

  lemma CutGraphMore(g: Forwards, cut: set<Step>, s: Step)
    requires s.from in g
    ensures CutGraph(g, cut)[s.from := Filter(CutGraph(g, cut)[s.from], (b: nat) => b != s.to)] == CutGraph(g, cut + {s})
  {
    hide Filter, Spared;
    var g1 := CutGraph(g, cut + {s});
    forall a | a in g
      ensures g1[a] == if a == s.from then Filter(CutGraph(g, cut)[a], (b: nat) => b != s.to) else CutGraph(g, cut)[a]
    {
      if a == s.from {
        CutAtSource(g[a], cut, s);
      } else {
        KeepElsewhere(g[a], cut, s, a);
      }
    }
  }

  lemma CutAtSource(succs: seq<nat>, cut: set<Step>, s: Step)
    ensures Filter(Filter(succs, Spared(s.from, cut)), (b: nat) => b != s.to) == Filter(succs, Spared(s.from, cut + {s}))
  {
    FilterTwice(succs, Spared(s.from, cut), (b: nat) => b != s.to, Spared(s.from, cut + {s}));
  }

  lemma KeepElsewhere(succs: seq<nat>, cut: set<Step>, s: Step, a: nat)
    requires a != s.from
    ensures Filter(succs, Spared(a, cut + {s})) == Filter(succs, Spared(a, cut))
  {
    SameFilter(succs, Spared(a, cut), Spared(a, cut + {s}));
  }

  // What removeNextHop leaves.
  function Without(fib: Fib, from: nat, to: nat): Fib {
    var kept := if from in fib then Trim(fib[from], from, {Step(from, to)}) else [];
    if kept == [] then fib - {from} else fib[from := kept]
  }

  lemma CutFibMore(fib: Fib, cut: set<Step>, s: Step)
    ensures Without(CutFib(fib, cut), s.from, s.to) == CutFib(fib, cut + {s})
  {
    hide Trim;
    var f1, f2 := Without(CutFib(fib, cut), s.from, s.to), CutFib(fib, cut + {s});
    forall a
      ensures a in f1 <==> a in f2
      ensures a in f1 ==> f1[a] == f2[a]
    {
      if a == s.from {
        CutHere(fib, cut, s);
      } else {
        CutElsewhere(fib, cut, s, a);
      }
    }
  }

  lemma CutElsewhere(fib: Fib, cut: set<Step>, s: Step, a: nat)
    requires a != s.from
    ensures a in CutFib(fib, cut) <==> a in CutFib(fib, cut + {s})
    ensures a in CutFib(fib, cut) ==> CutFib(fib, cut)[a] == CutFib(fib, cut + {s})[a]
  {
    hide Trim;
    if Touched(a, cut) {
      var t :| t in cut && t.from == a;
      assert t in cut + {s};
    }
    assert Touched(a, cut) <==> Touched(a, cut + {s});
    if a in fib {
      TrimUntouched(fib[a], a, cut, cut + {s});
    }
  }

  lemma CutHere(fib: Fib, cut: set<Step>, s: Step)
    ensures var f1, f2 := Without(CutFib(fib, cut), s.from, s.to), CutFib(fib, cut + {s});
            (s.from in f1 <==> s.from in f2) && (s.from in f1 ==> f1[s.from] == f2[s.from])
  {
    hide Trim;
    assert s in cut + {s};
    assert Touched(s.from, cut + {s});
    assert s == Step(s.from, s.to);
    if s.from in fib {
      CutSource(fib, cut, s);
    }
  }

  lemma CutSource(fib: Fib, cut: set<Step>, s: Step)
    requires s.from in fib
    ensures Trim(Cut(fib, s.from, cut), s.from, {s}) == Trim(fib[s.from], s.from, cut + {s})
    ensures Trim([], s.from, {s}) == []
  {
    var a := s.from;
    if Touched(a, cut) {
      TrimTwice(fib[a], a, cut, {s});
    } else {
      TrimUntouched(fib[a], a, {s}, cut + {s});
    }
  }

  lemma CutNothing(fib: Fib, g: Forwards)
    ensures CutFib(fib, {}) == fib && CutGraph(g, {}) == g
  {
    forall a | a in g
      ensures CutGraph(g, {})[a] == g[a]
    {
      FilterAll(g[a], Spared(a, {}));
    }
  }

  lemma CutShrinks(g: Forwards, cut: set<Step>, s: Step)
    requires s in EdgesOf(CutGraph(g, cut))
    ensures EdgesOf(CutGraph(g, cut + {s})) == EdgesOf(CutGraph(g, cut)) - {s}
  {
    EdgesAfterCut(g, cut);
    EdgesAfterCut(g, cut + {s});
  }

  lemma EdgesAfterCut(g: Forwards, cut: set<Step>)
    ensures EdgesOf(CutGraph(g, cut)) == EdgesOf(g) - cut
  {
    forall s: Step
      ensures s in EdgesOf(CutGraph(g, cut)) <==> s in EdgesOf(g) - cut
    {
      CutSteps(g, cut, s.from, s.to);
      assert s == Step(s.from, s.to);
    }
  }

  // ---------- pruning ----------

  // The edges lost between two graphs.
  function Lost(g0: Forwards, g1: Forwards): set<Step> {
    EdgesOf(g0) - EdgesOf(g1)
  }

  class Forwarding {
    var fib: Fib
    var graph: Forwards

    constructor (fib0: Fib, graph0: Forwards)
      ensures fib == fib0 && graph == graph0
    {
      fib, graph := fib0, graph0;
    }

    method RemoveNextHop(from: nat, to: nat)
      modifies this`fib
      ensures fib == Without(old(fib), from, to)
    {
      var entries := if from in fib then fib[from] else [];
      var kept: seq<Entry> := [];
      for i := 0 to |entries|
        invariant kept == Trim(entries[..i], from, {Step(from, to)})
      {
        var nextHops: seq<NextHop> := [];
        for j := 0 to |entries[i].hops|
          invariant nextHops == Filter(entries[i].hops[..j], HopSpared(from, {Step(from, to)}))
        {
          var nh := entries[i].hops[j];
          assert entries[i].hops[..j + 1][..j] == entries[i].hops[..j];
          if nh.peer != to {
            nextHops := nextHops + [nh];
          }
        }
        assert entries[i].hops[..|entries[i].hops|] == entries[i].hops;
        assert entries[..i + 1][..i] == entries[..i];
        if |nextHops| > 0 {
          kept := kept + [Entry(entries[i].prefix, nextHops)];
        }
      }
      assert entries[..|entries|] == entries;
      if |kept| == 0 {
        fib := fib - {from};
      } else {
        fib := fib[from := kept];
      }
    }

    // Ends on every input. The graph and the table lose the same edges, cut one after the other,
    // each while it still closed a cycle of what was left, and no other; and the graph that is
    // left has no cycle.
    method PruneGraphCycles() returns (ghost cuts: seq<Step>)
      modifies this
      ensures Acyclic(graph) && InTurn(old(graph), cuts)
      ensures SetOf(cuts) == Lost(old(graph), graph)
      ensures graph == CutGraph(old(graph), SetOf(cuts)) && fib == CutFib(old(fib), SetOf(cuts))
      ensures cuts == [] <==> Acyclic(old(graph))
    {
      hide Cycle, Acyclic, PartlyCut, EdgesOf, Without, Filter, InTurn;
      cuts := [];
      NothingCut(graph, fib);
      while true
        invariant PartlyCut(old(graph), old(fib), cuts, graph, fib)
        decreases |EdgesOf(graph)|
      {
        var cycle := FindOneCycle(graph);
        if cycle == [] {
          AllCut(old(graph), old(fib), cuts, graph, fib);
          return;
        }
        CutOneMore(old(graph), old(fib), cuts, graph, fib, cycle);
        var n := |cycle|;
        var from, to := cycle[n - 2], cycle[n - 1];
        graph := graph[from := Filter(graph[from], (b: nat) => b != to)];
        RemoveNextHop(from, to);
        cuts := cuts + [Step(from, to)];
      }
    }
  }

  function SetOf(cuts: seq<Step>): set<Step> {
    set s | s in cuts
  }

  // Each edge closed a cycle of what was left when it was cut.
  ghost predicate InTurn(g: Forwards, cuts: seq<Step>) {
    forall i :: 0 <= i < |cuts| ==> OnCycle(CutGraph(g, SetOf(cuts[..i])), cuts[i])
  }

  // Graph and table have lost the edges cut.
  ghost predicate PartlyCut(g0: Forwards, fib0: Fib, cuts: seq<Step>, g: Forwards, fib: Fib) {
    && g == CutGraph(g0, SetOf(cuts)) && fib == CutFib(fib0, SetOf(cuts)) && SetOf(cuts) <= EdgesOf(g0)
    && InTurn(g0, cuts)
  }

  lemma NothingCut(g: Forwards, fib: Fib)
    ensures PartlyCut(g, fib, [], g, fib)
  {
    assert SetOf([]) == {};
    CutNothing(fib, g);
  }

  lemma AllCut(g0: Forwards, fib0: Fib, cuts: seq<Step>, g: Forwards, fib: Fib)
    requires PartlyCut(g0, fib0, cuts, g, fib) && Acyclic(g)
    ensures SetOf(cuts) == Lost(g0, g) && g == CutGraph(g0, SetOf(cuts)) && fib == CutFib(fib0, SetOf(cuts))
    ensures InTurn(g0, cuts) && (cuts == [] <==> Acyclic(g0))
  {
    hide Cycle, Acyclic, CutGraph, CutFib, EdgesOf;
    EdgesAfterCut(g0, SetOf(cuts));
    CutNothing(fib0, g0);
    if cuts == [] {
      assert SetOf(cuts) == {};
    } else {
      assert SetOf(cuts[..0]) == {};
      FirstOnCycle(g0, cuts[0]);
    }
  }

  lemma FirstOnCycle(g: Forwards, s: Step)
    requires OnCycle(g, s)
    ensures !Acyclic(g)
  {
  }

  lemma TurnMore(g: Forwards, cuts: seq<Step>, s: Step)
    requires InTurn(g, cuts) && OnCycle(CutGraph(g, SetOf(cuts)), s)
    ensures InTurn(g, cuts + [s]) && SetOf(cuts + [s]) == SetOf(cuts) + {s}
  {
    hide OnCycle, CutGraph;
    var more := cuts + [s];
    forall i | 0 <= i < |more|
      ensures OnCycle(CutGraph(g, SetOf(more[..i])), more[i])
    {
      assert more[..i] == cuts[..i];
      assert cuts[..|cuts|] == cuts;
    }
  }

  // Cutting the edge that closes a cycle of what is left.
  lemma CutOneMore(g0: Forwards, fib0: Fib, cuts: seq<Step>, g: Forwards, fib: Fib, cycle: seq<nat>)
    requires PartlyCut(g0, fib0, cuts, g, fib) && Cycle(g, cycle)
    ensures |cycle| >= 2 && cycle[|cycle| - 2] in g
    ensures var from, to := cycle[|cycle| - 2], cycle[|cycle| - 1];
      var g1 := g[from := Filter(g[from], (b: nat) => b != to)];
      PartlyCut(g0, fib0, cuts + [Step(from, to)], g1, Without(fib, from, to)) && |EdgesOf(g1)| < |EdgesOf(g)|
  {
    hide Cycle, CutGraph, CutFib, EdgesOf, Without, Filter, InTurn;
    var cut := SetOf(cuts);
    CycleIsLong(g, cycle);
    CutCycle(g0, cut, cycle);
    var s := Step(cycle[|cycle| - 2], cycle[|cycle| - 1]);
    assert OnCycle(g, s);
    TurnMore(g0, cuts, s);
    EdgesAfterCut(g0, cut);
    EdgeSource(g, s);
    EdgeSource(g0, s);
    CutGraphMore(g0, cut, s);
    CutFibMore(fib0, cut, s);
    CutShrinks(g0, cut, s);
    ProperSubsetSize(EdgesOf(CutGraph(g0, cut + {s})), EdgesOf(g));
  }

  lemma CycleIsLong(g: Forwards, w: seq<nat>)
    requires Cycle(g, w)
    ensures |w| >= 2
  {
  }

  lemma EdgeSource(g: Forwards, s: Step)
    requires s in EdgesOf(g)
    ensures s.from in g
  {
  }

  // ---------- forwarding runs ----------

  ghost predicate Hands(fib: Fib, prefix: nat, a: nat, b: nat) {
    exists h :: Sends(fib, a, prefix, h) && h.peer == b
  }

  // A packet for prefix goes from node to node, each free to pick any of its next-hops.
  ghost predicate Forwarded(fib: Fib, prefix: nat, w: seq<nat>) {
    forall i :: 0 <= i < |w| - 1 ==> Hands(fib, prefix, w[i], w[i + 1])
  }

  // After pruning no packet meets a node twice, so it stops within the number of nodes.
  lemma PacketsStop(fib: Fib, g: Forwards, cut: set<Step>, prefix: nat, w: seq<nat>)
    requires InStep(fib, g) && Acyclic(CutGraph(g, cut))
    requires Forwarded(CutFib(fib, cut), prefix, w) && |w| >= 2
    ensures Distinct(w) && |w| <= |NodesOf(g)|
  {
    CutInStep(fib, g, cut);
    var g1 := CutGraph(g, cut);
    forall i | 0 <= i < |w| - 1
      ensures Steps(g1, w[i], w[i + 1])
    {
      assert Hands(CutFib(fib, cut), prefix, w[i], w[i + 1]);
      assert Offers(CutFib(fib, cut), w[i], w[i + 1]);
    }
    WalksAreShort(g1, w);
    forall n | n in NodesOf(g1)
      ensures n in NodesOf(g)
    {
      if n !in g1 {
        var a :| a in g1 && n in g1[a];
        CutSteps(g, cut, a, n);
        assert Steps(g, a, n);
      }
    }
    SubsetSize(NodesOf(g1), NodesOf(g));
  }

  // Loop freedom is asked of the union over all prefixes, so two nodes that route directly to
  // each other cannot both keep doing so.
  lemma MutualNextHopsConflict(fib: Fib, g: Forwards, cut: set<Step>, a: nat, b: nat)
    requires InStep(fib, g) && Acyclic(CutGraph(g, cut)) && Offers(fib, a, b) && Offers(fib, b, a)
    ensures Step(a, b) in cut || Step(b, a) in cut
    ensures !Offers(CutFib(fib, cut), a, b) || !Offers(CutFib(fib, cut), b, a)
  {
    CutInStep(fib, g, cut);
    CutSteps(g, cut, a, b);
    CutSteps(g, cut, b, a);
    assert Steps(g, a, b) && Steps(g, b, a);
    assert !Closed(CutGraph(g, cut), [a, b, a]);
  }

  // ---------- building the graph ----------

  ghost predicate Listed(entries: seq<Entry>, b: nat) {
    exists e, h :: e in entries && h in e.hops && h.peer == b
  }

  method BuildForwardingGraph(fib: Fib) returns (g: Forwards)
    ensures InStep(fib, g)
    ensures g.Keys == fib.Keys && forall a :: a in g ==> Distinct(g[a])
  {
    g := map[];
    var rest := fib.Keys;
    while rest != {}
      invariant rest <= fib.Keys && g.Keys == fib.Keys - rest
      invariant forall a :: a in g ==> Distinct(g[a]) && forall b :: b in g[a] <==> Listed(fib[a], b)
    {
      var src :| src in rest;
      rest := rest - {src};
      var succs := SuccessorsOf(fib[src]);
      g := g[src := succs];
    }
    forall a, b
      ensures Steps(g, a, b) <==> Offers(fib, a, b)
    {
      if a in fib && Listed(fib[a], b) {
        var e, h :| e in fib[a] && h in e.hops && h.peer == b;
        assert Sends(fib, a, e.prefix, h);
      }
    }
  }

  method SuccessorsOf(entries: seq<Entry>) returns (succs: seq<nat>)
    ensures Distinct(succs) && forall b :: b in succs <==> Listed(entries, b)
  {
    succs := [];
    for i := 0 to |entries|
      invariant Distinct(succs) && forall b :: b in succs <==> Listed(entries[..i], b)
    {
      ghost var before := succs;
      var hops := entries[i].hops;
      for j := 0 to |hops|
        invariant Distinct(succs)
        invariant forall b :: b in succs <==> b in before || exists h :: h in hops[..j] && h.peer == b
      {
        assert hops[..j + 1] == hops[..j] + [hops[j]];
        if hops[j].peer !in succs {
          succs := succs + [hops[j].peer];
        }
      }
      assert hops[..|hops|] == hops;
      assert entries[..i + 1] == entries[..i] + [entries[i]];
    }
    assert entries[..|entries|] == entries;
  }
}
