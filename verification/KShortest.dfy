// The K shortest simple paths, by Yen's algorithm over masked Dijkstra searches
// (internal/controller/topology/kpaths.go).
module KShortest {
  import opened Paths
  import opened Dijkstra

  datatype Candidate = Candidate(path: Path, w: nat)

  predicate SeqBefore(p: Path, q: Path) {
    if p == [] then q != []
    else if q == [] then false
    else if p[0] == q[0] then SeqBefore(p[1..], q[1..])
    else Before(p[0], q[0])
  }

  predicate Better(a: Candidate, b: Candidate) {
    if a.w != b.w then a.w < b.w else SeqBefore(a.path, b.path)
  }

  // ---------- what the list promises ----------

  function Bound(k: int): nat {
    if k <= 0 then 0 else k
  }

  // R lists min(K, all) distinct simple paths in nondecreasing weight, and no path left out is
  // cheaper than a listed one.
  ghost predicate IsKShortest(a: Arcs, src: Vertex, dst: Vertex, k: int, r: seq<Path>) {
    && (forall i {:trigger SimplePath(a, src, dst, r[i])} :: 0 <= i < |r| ==> SimplePath(a, src, dst, r[i]))
    && Distinct(r)
    && (forall i, j :: 0 <= i < j < |r| ==> PathWeight(a, r[i]) <= PathWeight(a, r[j]))
    && |r| <= Bound(k)
    && forall q {:trigger SimplePath(a, src, dst, q)} :: SimplePath(a, src, dst, q) && q !in r ==> Beaten(a, k, r, q)
  }

  ghost predicate Beaten(a: Arcs, k: int, r: seq<Path>, q: Path) {
    |r| == Bound(k) && forall i :: 0 <= i < |r| ==> PathWeight(a, r[i]) <= PathWeight(a, q)
  }

  // ---------- the algorithm as functions ----------

  ghost function SpurV(prev: Path, i: nat): set<Vertex>
    requires i <= |prev|
  {
    set v | v in prev[..i]
  }

  // The edges by which the chosen paths leave the root prev[..i + 1].
  ghost function SpurE(result: seq<Path>, prev: Path, i: nat): set<Link>
    requires i < |prev|
  {
    set p | p in result && |p| > i + 1 && p[..i + 1] == prev[..i + 1] :: Link(p[i], p[i + 1])
  }

  ghost predicate Listed(cands: seq<Candidate>, p: Path) {
    exists j :: 0 <= j < |cands| && cands[j].path == p
  }

  ghost function Added(cands: seq<Candidate>, total: Candidate): seq<Candidate> {
    if Listed(cands, total.path) then cands else cands + [total]
  }

  // What to do with the outcome of the search from the spur vertex prev[i].
  ghost function AddFound(a: Arcs, result: seq<Path>, cands: seq<Candidate>, i: nat,
                          found: Found): seq<Candidate>
    requires |result| > 0 && i < |result[|result| - 1]|
  {
    var prev := result[|result| - 1];
    match found
    case NotFound => cands
    case Found(spur, w) =>
      if w >= MAX_W || prev[..i] + spur in result then cands
      else Added(cands, Candidate(prev[..i] + spur, PathWeight(a, prev[..i + 1]) + w))
  }

  ghost function AddSpur(g: Graph, dst: Vertex, result: seq<Path>, cands: seq<Candidate>, i: nat): seq<Candidate>
    requires WellFormed(g) && |result| > 0 && i < |result[|result| - 1]|
  {
    var prev := result[|result| - 1];
    AddFound(ArcsOf(g), result, cands, i, Shortest(g, prev[i], dst, SpurV(prev, i), SpurE(result, prev, i)))
  }

  // The candidates after the first n spur vertices of the last chosen path.
  ghost function Spurs(g: Graph, dst: Vertex, result: seq<Path>, cands: seq<Candidate>, n: nat): seq<Candidate>
    requires WellFormed(g) && |result| > 0 && n <= |result[|result| - 1]|
  {
    if n == 0 then cands
    else AddSpur(g, dst, result, Spurs(g, dst, result, cands, n - 1), n - 1)
  }

  function BestIndex(cands: seq<Candidate>, n: nat): (b: nat)
    requires 0 < n <= |cands|
    ensures b < n
  {
    if n == 1 then 0
    else
      var b := BestIndex(cands, n - 1);
      if Better(cands[n - 1], cands[b]) then n - 1 else b
  }

  // Move the best candidate to the results.
  ghost function Pick(result: seq<Path>, c: seq<Candidate>): (seq<Path>, seq<Candidate>) {
    if c == [] then (result, c)
    else
      var b := BestIndex(c, |c|);
      (result + [c[b].path], c[..b] + c[b + 1..])
  }

  ghost function Rounds(g: Graph, dst: Vertex, k: int, result: seq<Path>, cands: seq<Candidate>): seq<Path>
    requires WellFormed(g) && |result| > 0
    decreases k - |result|
  {
    if |result| >= k || |result[|result| - 1]| == 0 then result
    else
      var c := Spurs(g, dst, result, cands, |result[|result| - 1]| - 1);
      if c == [] then result else Rounds(g, dst, k, Pick(result, c).0, Pick(result, c).1)
  }

  ghost function FromFirst(g: Graph, dst: Vertex, k: int, found: Found): seq<Path>
    requires WellFormed(g)
  {
    match found
    case NotFound => []
    case Found(p, w) => if w >= MAX_W then [] else Rounds(g, dst, k, [p], [])
  }

  ghost function KPaths(g: Graph, src: Vertex, dst: Vertex, k: int): seq<Path>
    requires WellFormed(g)
  {
    if k <= 0 || src == dst then [] else FromFirst(g, dst, k, Shortest(g, src, dst, {}, {}))
  }

  // ---------- the invariant ----------

  ghost predicate CandOk(a: Arcs, src: Vertex, dst: Vertex, result: seq<Path>, c: Candidate) {
    SimplePath(a, src, dst, c.path) && c.w == PathWeight(a, c.path) && c.path !in result
  }

  ghost predicate CandsOk(a: Arcs, src: Vertex, dst: Vertex, result: seq<Path>, cands: seq<Candidate>) {
    && (forall j {:trigger CandOk(a, src, dst, result, cands[j])} :: 0 <= j < |cands| ==> CandOk(a, src, dst, result, cands[j]))
    && forall i, j :: 0 <= i < j < |cands| ==> cands[i].path != cands[j].path
  }

  // Some chosen path follows q for its first n + 1 vertices.
  ghost predicate Taken(result: seq<Path>, q: Path, n: nat)
    requires n < |q|
  {
    exists p :: p in result && |p| > n && p[..n + 1] == q[..n + 1]
  }

  ghost predicate HasPrefix(q: Path, r: Path) {
    |q| > |r| && q[..|r|] == r
  }

  // Candidate c starts with r and weighs at most as much as q.
  ghost predicate Serves(a: Arcs, c: Candidate, r: Path, q: Path) {
    HasPrefix(c.path, r) && c.w <= PathWeight(a, q)
  }

  // Every path that leaves the root r where no chosen path does is matched by a candidate.
  ghost predicate Covers(a: Arcs, src: Vertex, dst: Vertex, result: seq<Path>, cands: seq<Candidate>, r: Path) {
    forall q {:trigger HasPrefix(q, r)} :: SimplePath(a, src, dst, q) && HasPrefix(q, r) && !Taken(result, q, |r|) ==>
      exists j :: 0 <= j < |cands| && Serves(a, cands[j], r, q)
  }

  // All roots are covered, except those of the last path that are longer than n.
  ghost predicate CoversTo(a: Arcs, src: Vertex, dst: Vertex, result: seq<Path>, cands: seq<Candidate>, n: nat)
    requires |result| > 0
  {
    forall p, m {:trigger Covers(a, src, dst, result, cands, p[..m])} ::
      p in result && 0 < m < |p| && (m <= n || !HasPrefix(result[|result| - 1], p[..m])) ==>
        Covers(a, src, dst, result, cands, p[..m])
  }

  ghost predicate AllCovered(a: Arcs, src: Vertex, dst: Vertex, result: seq<Path>, cands: seq<Candidate>) {
    forall p, m {:trigger Covers(a, src, dst, result, cands, p[..m])} ::
      p in result && 0 < m < |p| ==> Covers(a, src, dst, result, cands, p[..m])
  }

  ghost predicate AllSimple(a: Arcs, src: Vertex, dst: Vertex, result: seq<Path>) {
    forall p {:trigger SimplePath(a, src, dst, p)} :: p in result ==> SimplePath(a, src, dst, p)
  }

  ghost predicate Chosen(a: Arcs, src: Vertex, dst: Vertex, result: seq<Path>) {
    && |result| > 0
    && AllSimple(a, src, dst, result)
    && Distinct(result)
    && (forall i, j :: 0 <= i < j < |result| ==> PathWeight(a, result[i]) <= PathWeight(a, result[j]))
    && (forall q {:trigger SimplePath(a, src, dst, q)} :: SimplePath(a, src, dst, q) && q !in result ==> PathWeight(a, result[|result| - 1]) <= PathWeight(a, q))
  }

  // ---------- one spur ----------

  // The rest of a path from its spur vertex is a walk of the masked graph.
  lemma SuffixAllowed(a: Arcs, src: Vertex, dst: Vertex, result: seq<Path>, prev: Path, i: nat, q: Path)
    requires i + 1 < |prev| && SimplePath(a, src, dst, q) && HasPrefix(q, prev[..i + 1]) && !Taken(result, q, i + 1)
    ensures WalkFromTo(Mask(a, SpurV(prev, i), SpurE(result, prev, i)), prev[i], dst, q[i..])
  {
    var m := Mask(a, SpurV(prev, i), SpurE(result, prev, i));
    var s := q[i..];
    assert q[i] == q[..i + 1][i] == prev[i];
    forall j | 0 <= j < |s| - 1
      ensures Link(s[j], s[j + 1]) in m
    {
      assert Link(q[i + j], q[i + j + 1]) in a;
    }
  }

  // Root and spur join to a simple path whose weight is the sum.
  lemma JoinIsSimple(a: Arcs, src: Vertex, dst: Vertex, result: seq<Path>, prev: Path, i: nat, spur: Path)
    requires i + 1 < |prev| && SimplePath(a, src, dst, prev)
    requires SimplePath(Mask(a, SpurV(prev, i), SpurE(result, prev, i)), prev[i], dst, spur)
    ensures SimplePath(a, src, dst, prev[..i] + spur)
    ensures |spur| > 1 && HasPrefix(prev[..i] + spur, prev[..i + 1])
    ensures prev[..i] + spur !in result
  {
    var m := Mask(a, SpurV(prev, i), SpurE(result, prev, i));
    var t := prev[..i] + spur;
    forall j | 0 <= j < |t| - 1
      ensures Link(t[j], t[j + 1]) in a
    {
      if j < i {
        assert Link(prev[j], prev[j + 1]) in a;
      } else {
        assert Link(spur[j - i], spur[j - i + 1]) in m;
      }
    }
    forall x, y | 0 <= x < y < |t|
      ensures t[x] != t[y]
    {
      if x < i && i < y {
        assert Link(spur[y - i - 1], spur[y - i - 1 + 1]) in m;
        assert t[x] == prev[..i][x] && t[x] in SpurV(prev, i);
      }
    }
    assert prev[i] != dst;
    assert t[..i + 1] == prev[..i + 1];
    assert Link(spur[0], spur[0 + 1]) in m;
  }

  lemma JoinWeight(a: Arcs, prev: Path, i: nat, m: Arcs, spur: Path)
    requires i < |prev| && |spur| > 0 && spur[0] == prev[i]
    requires IsWalk(m, spur) && forall e :: e in m ==> e in a && m[e] == a[e]
    ensures PathWeight(a, prev[..i] + spur) == PathWeight(a, prev[..i + 1]) + PathWeight(m, spur)
  {
    var t := prev[..i] + spur;
    WeightSplit(a, t, i);
    assert t[..i + 1] == prev[..i + 1];
    assert t[i..] == spur;
    forall j | 0 <= j < |spur| - 1
      ensures Cost(a, spur[j], spur[j + 1]) == Cost(m, spur[j], spur[j + 1])
    {
      assert Link(spur[j], spur[j + 1]) in m;
    }
    WeightAgrees(a, m, spur);
  }

  lemma MaskIsPart(a: Arcs, rv: set<Vertex>, re: set<Link>)
    ensures forall e :: e in Mask(a, rv, re) ==> e in a && Mask(a, rv, re)[e] == a[e]
  {
  }

  ghost predicate SpurReady(a: Arcs, g: Graph, src: Vertex, dst: Vertex, result: seq<Path>, cands: seq<Candidate>, i: nat) {
    && WellFormed(g) && a == ArcsOf(g) && Safe(a)
    && |result| > 0 && i + 1 < |result[|result| - 1]|
    && AllSimple(a, src, dst, result)
    && CandsOk(a, src, dst, result, cands)
  }

  // What a search from the spur vertex adds is a new simple path, weighed exactly.
  lemma SpurSound(a: Arcs, g: Graph, src: Vertex, dst: Vertex, result: seq<Path>, cands: seq<Candidate>,
                  i: nat, spur: Path, w: nat)
    requires SpurReady(a, g, src, dst, result, cands, i)
    requires var prev := result[|result| - 1];
      IsShortest(Mask(a, SpurV(prev, i), SpurE(result, prev, i)), prev[i], dst, Found(spur, w))
    ensures var prev := result[|result| - 1];
      && w < MAX_W
      && CandOk(a, src, dst, result, Candidate(prev[..i] + spur, PathWeight(a, prev[..i + 1]) + w))
      && HasPrefix(prev[..i] + spur, prev[..i + 1])
  {
    var prev := result[|result| - 1];
    assert SimplePath(a, src, dst, prev);
    var m := Mask(a, SpurV(prev, i), SpurE(result, prev, i));
    JoinIsSimple(a, src, dst, result, prev, i, spur);
    MaskIsPart(a, SpurV(prev, i), SpurE(result, prev, i));
    JoinWeight(a, prev, i, m, spur);
    assert IsWalk(a, prev[..i] + spur);
  }

  // A spur covers its root, keeps the candidates sound and loses none.
  lemma AddSpurKeeps(a: Arcs, g: Graph, src: Vertex, dst: Vertex, result: seq<Path>, cands: seq<Candidate>, i: nat)
    requires SpurReady(a, g, src, dst, result, cands, i)
    ensures var c := AddSpur(g, dst, result, cands, i);
      CandsOk(a, src, dst, result, c) && cands <= c
      && Covers(a, src, dst, result, c, result[|result| - 1][..i + 1])
  {
    var prev := result[|result| - 1];
    assert SimplePath(a, src, dst, prev);
    ShortestIsShortest(g, prev[i], dst, SpurV(prev, i), SpurE(result, prev, i));
    AddFoundKeeps(a, g, src, dst, result, cands, i,
                  Shortest(g, prev[i], dst, SpurV(prev, i), SpurE(result, prev, i)));
  }

  lemma AddFoundKeeps(a: Arcs, g: Graph, src: Vertex, dst: Vertex, result: seq<Path>, cands: seq<Candidate>, i: nat,
                      found: Found)
    requires SpurReady(a, g, src, dst, result, cands, i)
    requires var prev := result[|result| - 1];
      IsShortest(Mask(a, SpurV(prev, i), SpurE(result, prev, i)), prev[i], dst, found)
    ensures var c := AddFound(a, result, cands, i, found);
      CandsOk(a, src, dst, result, c) && cands <= c
      && Covers(a, src, dst, result, c, result[|result| - 1][..i + 1])
  {
    match found
    case Found(spur, w) => FoundKeeps(a, g, src, dst, result, cands, i, spur, w);
    case NotFound => NoSpurCovers(a, src, dst, result, cands, i);
  }

  lemma FoundKeeps(a: Arcs, g: Graph, src: Vertex, dst: Vertex, result: seq<Path>, cands: seq<Candidate>, i: nat,
                   spur: Path, w: nat)
    requires SpurReady(a, g, src, dst, result, cands, i)
    requires var prev := result[|result| - 1];
      IsShortest(Mask(a, SpurV(prev, i), SpurE(result, prev, i)), prev[i], dst, Found(spur, w))
    ensures var c := AddFound(a, result, cands, i, Found(spur, w));
      CandsOk(a, src, dst, result, c) && cands <= c
      && Covers(a, src, dst, result, c, result[|result| - 1][..i + 1])
  {
    hide CandsOk, CandOk, Covers, Mask, SpurV, SpurE, IsShortest, PathWeight, WellFormed, ArcsOf, AllSimple, Added;
    var prev := result[|result| - 1];
    SpurSound(a, g, src, dst, result, cands, i, spur, w);
    NotYetChosen(a, src, dst, result, Candidate(prev[..i] + spur, PathWeight(a, prev[..i + 1]) + w));
    var total := Candidate(prev[..i] + spur, PathWeight(a, prev[..i + 1]) + w);
    assert AddFound(a, result, cands, i, Found(spur, w)) == Added(cands, total);
    AddedOk(a, src, dst, result, cands, total);
    SpurCovers(a, src, dst, result, cands, i, spur, w);
  }

  lemma NotYetChosen(a: Arcs, src: Vertex, dst: Vertex, result: seq<Path>, c: Candidate)
    requires CandOk(a, src, dst, result, c)
    ensures c.path !in result
  {
  }

  lemma AddedOk(a: Arcs, src: Vertex, dst: Vertex, result: seq<Path>, cands: seq<Candidate>, total: Candidate)
    requires CandsOk(a, src, dst, result, cands) && CandOk(a, src, dst, result, total)
    ensures CandsOk(a, src, dst, result, Added(cands, total)) && cands <= Added(cands, total)
  {
    var c := Added(cands, total);
    forall j | 0 <= j < |c|
      ensures CandOk(a, src, dst, result, c[j])
    {
      assert j < |cands| ==> CandOk(a, src, dst, result, cands[j]);
    }
  }

  lemma SpurServes(a: Arcs, src: Vertex, dst: Vertex, result: seq<Path>, i: nat, spur: Path, w: nat, q: Path)
    requires |result| > 0 && i + 1 < |result[|result| - 1]|
    requires var prev := result[|result| - 1];
      && IsShortest(Mask(a, SpurV(prev, i), SpurE(result, prev, i)), prev[i], dst, Found(spur, w))
      && HasPrefix(prev[..i] + spur, prev[..i + 1])
      && SimplePath(a, src, dst, q) && HasPrefix(q, prev[..i + 1]) && !Taken(result, q, i + 1)
    ensures var prev := result[|result| - 1];
      Serves(a, Candidate(prev[..i] + spur, PathWeight(a, prev[..i + 1]) + w), prev[..i + 1], q)
  {
    SuffixWeighs(a, src, dst, result, result[|result| - 1], i, q);
  }

  lemma SpurCovers(a: Arcs, src: Vertex, dst: Vertex, result: seq<Path>, cands: seq<Candidate>,
                   i: nat, spur: Path, w: nat)
    requires |result| > 0 && i + 1 < |result[|result| - 1]| && CandsOk(a, src, dst, result, cands)
    requires var prev := result[|result| - 1];
      && IsShortest(Mask(a, SpurV(prev, i), SpurE(result, prev, i)), prev[i], dst, Found(spur, w))
      && CandOk(a, src, dst, result, Candidate(prev[..i] + spur, PathWeight(a, prev[..i + 1]) + w))
      && HasPrefix(prev[..i] + spur, prev[..i + 1])
    ensures var prev := result[|result| - 1];
      var total := Candidate(prev[..i] + spur, PathWeight(a, prev[..i + 1]) + w);
      Covers(a, src, dst, result, Added(cands, total), prev[..i + 1])
  {
    hide IsShortest, SimplePath;
    var r := result[|result| - 1][..i + 1];
    var total := Candidate(result[|result| - 1][..i] + spur, PathWeight(a, r) + w);
    var c := Added(cands, total);
    var at := SpurIndex(a, src, dst, result, cands, c, total);
    forall q | SimplePath(a, src, dst, q) && HasPrefix(q, r) && !Taken(result, q, |r|)
      ensures exists j :: 0 <= j < |c| && Serves(a, c[j], r, q)
    {
      SpurServes(a, src, dst, result, i, spur, w, q);
      assert Serves(a, c[at], r, q);
    }
  }

  lemma NoSpurCovers(a: Arcs, src: Vertex, dst: Vertex, result: seq<Path>, cands: seq<Candidate>, i: nat)
    requires |result| > 0 && i + 1 < |result[|result| - 1]|
    requires var prev := result[|result| - 1];
      IsShortest(Mask(a, SpurV(prev, i), SpurE(result, prev, i)), prev[i], dst, NotFound)
    ensures Covers(a, src, dst, result, cands, result[|result| - 1][..i + 1])
  {
    var prev := result[|result| - 1];
    forall q | SimplePath(a, src, dst, q) && HasPrefix(q, prev[..i + 1]) && !Taken(result, q, |prev[..i + 1]|)
      ensures false
    {
      SuffixAllowed(a, src, dst, result, prev, i, q);
    }
  }

  // Where the spur path sits among the candidates: appended, or there already.
  lemma SpurIndex(a: Arcs, src: Vertex, dst: Vertex, result: seq<Path>, cands: seq<Candidate>,
                  c: seq<Candidate>, total: Candidate) returns (at: nat)
    requires CandsOk(a, src, dst, result, cands) && total.w == PathWeight(a, total.path)
    requires c == if Listed(cands, total.path) then cands else cands + [total]
    ensures at < |c| && c[at] == total
  {
    if Listed(cands, total.path) {
      at :| 0 <= at < |cands| && cands[at].path == total.path;
      assert CandOk(a, src, dst, result, cands[at]);
    } else {
      at := |cands|;
    }
  }

  // The masked rest of q and the root weigh what q weighs.
  lemma SuffixWeighs(a: Arcs, src: Vertex, dst: Vertex, result: seq<Path>, prev: Path, i: nat, q: Path)
    requires i + 1 < |prev| && SimplePath(a, src, dst, q) && HasPrefix(q, prev[..i + 1]) && !Taken(result, q, i + 1)
    ensures var m := Mask(a, SpurV(prev, i), SpurE(result, prev, i));
      WalkFromTo(m, prev[i], dst, q[i..])
      && PathWeight(a, q) == PathWeight(a, prev[..i + 1]) + PathWeight(m, q[i..])
  {
    var m := Mask(a, SpurV(prev, i), SpurE(result, prev, i));
    SuffixAllowed(a, src, dst, result, prev, i, q);
    MaskIsPart(a, SpurV(prev, i), SpurE(result, prev, i));
    assert q[i] == q[..i + 1][i] == prev[i];
    JoinWeight(a, q, i, m, q[i..]);
    assert q[..i] + q[i..] == q;
  }

  lemma CoversMore(a: Arcs, src: Vertex, dst: Vertex, result: seq<Path>, cands: seq<Candidate>, more: seq<Candidate>, r: Path)
    requires Covers(a, src, dst, result, cands, r) && cands <= more
    ensures Covers(a, src, dst, result, more, r)
  {
    forall q | SimplePath(a, src, dst, q) && HasPrefix(q, r) && !Taken(result, q, |r|)
      ensures exists j :: 0 <= j < |more| && Serves(a, more[j], r, q)
    {
      var j :| 0 <= j < |cands| && Serves(a, cands[j], r, q);
      assert more[j] == cands[j];
    }
  }

  lemma SpurStep(a: Arcs, g: Graph, src: Vertex, dst: Vertex, result: seq<Path>, c0: seq<Candidate>, n: nat)
    requires WellFormed(g) && a == ArcsOf(g) && Safe(a) && Chosen(a, src, dst, result)
    requires 0 < n < |result[|result| - 1]|
    requires CandsOk(a, src, dst, result, c0) && CoversTo(a, src, dst, result, c0, n - 1)
    ensures var c := AddSpur(g, dst, result, c0, n - 1);
      CandsOk(a, src, dst, result, c) && CoversTo(a, src, dst, result, c, n)
  {
    hide Shortest;
    AddSpurKeeps(a, g, src, dst, result, c0, n - 1);
    CoversStep(a, src, dst, result, c0, AddSpur(g, dst, result, c0, n - 1), n);
  }

  // All spurs of the last path together cover every root.
  lemma {:induction false} SpursKeep(a: Arcs, g: Graph, src: Vertex, dst: Vertex,
                                     result: seq<Path>, cands: seq<Candidate>, n: nat)
    requires WellFormed(g) && a == ArcsOf(g) && Safe(a) && Chosen(a, src, dst, result)
    requires CandsOk(a, src, dst, result, cands) && CoversTo(a, src, dst, result, cands, 0)
    requires n < |result[|result| - 1]|
    ensures var c := Spurs(g, dst, result, cands, n);
      CandsOk(a, src, dst, result, c) && CoversTo(a, src, dst, result, c, n)
  {
    hide AddSpur, CandsOk, CoversTo, Safe;
    if n > 0 {
      SpursKeep(a, g, src, dst, result, cands, n - 1);
      SpurStep(a, g, src, dst, result, Spurs(g, dst, result, cands, n - 1), n);
    }
  }

  lemma CoversStep(a: Arcs, src: Vertex, dst: Vertex, result: seq<Path>, c0: seq<Candidate>, c: seq<Candidate>, n: nat)
    requires |result| > 0 && 0 < n < |result[|result| - 1]| && c0 <= c
    requires CoversTo(a, src, dst, result, c0, n - 1)
    requires Covers(a, src, dst, result, c, result[|result| - 1][..n])
    ensures CoversTo(a, src, dst, result, c, n)
  {
    var last := result[|result| - 1];
    forall p, m {:trigger Covers(a, src, dst, result, c, p[..m])} |
      p in result && 0 < m < |p| && (m <= n || !HasPrefix(last, p[..m]))
      ensures Covers(a, src, dst, result, c, p[..m])
    {
      if m == n && HasPrefix(last, p[..m]) {
        assert p[..m] == last[..n];
      } else {
        assert Covers(a, src, dst, result, c0, p[..m]);
        CoversMore(a, src, dst, result, c0, c, p[..m]);
      }
    }
  }

  lemma LastCovered(a: Arcs, src: Vertex, dst: Vertex, result: seq<Path>, cands: seq<Candidate>)
    requires |result| > 0 && |result[|result| - 1]| > 0
    requires CoversTo(a, src, dst, result, cands, |result[|result| - 1]| - 1)
    ensures AllCovered(a, src, dst, result, cands)
  {
  }

  // ---------- choosing the best candidate ----------

  // The longest prefix of q that some chosen path shares.
  lemma LongestShared(a: Arcs, src: Vertex, dst: Vertex, result: seq<Path>, q: Path) returns (n: nat, p: Path)
    requires |result| > 0 && |q| > 0 && q[0] == src
    requires AllSimple(a, src, dst, result)
    ensures p in result && 0 < n <= |p| && n <= |q| && p[..n] == q[..n]
    ensures n < |q| ==> !Taken(result, q, n)
  {
    n, p := 1, result[0];
    assert SimplePath(a, src, dst, p);
    while n < |q| && Taken(result, q, n)
      invariant p in result && 0 < n <= |p| && n <= |q| && p[..n] == q[..n]
      decreases |q| - n
    {
      p :| p in result && |p| > n && p[..n + 1] == q[..n + 1];
      n := n + 1;
    }
  }

  // Two simple paths to dst, one a prefix of the other, are equal.
  lemma PrefixOfSimple(a: Arcs, src: Vertex, dst: Vertex, p: Path, q: Path)
    requires SimplePath(a, src, dst, p) && SimplePath(a, src, dst, q) && |p| <= |q| && q[..|p|] == p
    ensures p == q
  {
    assert q[|p| - 1] == q[..|p|][|p| - 1] == dst;
  }

  // Every path not chosen yet is matched by some candidate.
  lemma CandidatesSuffice(a: Arcs, src: Vertex, dst: Vertex, result: seq<Path>, cands: seq<Candidate>, q: Path)
      returns (j: nat)
    requires Chosen(a, src, dst, result)
    requires AllCovered(a, src, dst, result, cands)
    requires SimplePath(a, src, dst, q) && q !in result
    ensures j < |cands| && cands[j].w <= PathWeight(a, q)
  {
    var n, p := LongestShared(a, src, dst, result, q);
    assert SimplePath(a, src, dst, p);
    if n == |p| {
      PrefixOfSimple(a, src, dst, p, q);
    }
    if n == |q| {
      PrefixOfSimple(a, src, dst, q, p);
    }
    var r := p[..n];
    assert Covers(a, src, dst, result, cands, p[..n]);
    assert HasPrefix(q, r);
    j :| 0 <= j < |cands| && Serves(a, cands[j], r, q);
  }

  lemma {:induction false} BestIsLightest(cands: seq<Candidate>, n: nat)
    requires 0 < n <= |cands|
    ensures forall j :: 0 <= j < n ==> cands[BestIndex(cands, n)].w <= cands[j].w
  {
    if n > 1 {
      BestIsLightest(cands, n - 1);
    }
  }

  lemma {:induction false} SeqTotal(p: Path, q: Path)
    ensures p != q ==> SeqBefore(p, q) || SeqBefore(q, p)
  {
    if p != [] && q != [] && p[0] == q[0] {
      SeqTotal(p[1..], q[1..]);
      assert p == [p[0]] + p[1..] && q == [q[0]] + q[1..];
    }
  }

  lemma {:induction false} SeqTransitive(p: Path, q: Path, r: Path)
    requires SeqBefore(p, q) && SeqBefore(q, r)
    ensures SeqBefore(p, r)
  {
    if p != [] && p[0] == q[0] == r[0] {
      SeqTransitive(p[1..], q[1..], r[1..]);
    }
  }

  lemma BetterTransitive(a: Candidate, b: Candidate, c: Candidate)
    requires Better(a, b) && Better(b, c)
    ensures Better(a, c)
  {
    if a.w == b.w == c.w {
      SeqTransitive(a.path, b.path, c.path);
    }
  }

  // The pick comes before every other candidate, by weight and then by sequence.
  lemma {:induction false} BestIsFirst(cands: seq<Candidate>, n: nat)
    requires 0 < n <= |cands| && forall i, j :: 0 <= i < j < |cands| ==> cands[i].path != cands[j].path
    ensures forall j :: 0 <= j < n && j != BestIndex(cands, n) ==> Better(cands[BestIndex(cands, n)], cands[j])
  {
    if n > 1 {
      BestIsFirst(cands, n - 1);
      var a, b := BestIndex(cands, n - 1), BestIndex(cands, n);
      SeqTotal(cands[a].path, cands[n - 1].path);
      forall j | 0 <= j < n && j != b
        ensures Better(cands[b], cands[j])
      {
        if b == n - 1 && j != a {
          BetterTransitive(cands[b], cands[a], cands[j]);
        }
      }
    }
  }

  // Moving the best candidate to the results keeps the invariant.
  lemma PickKeeps(a: Arcs, src: Vertex, dst: Vertex, result: seq<Path>, cands: seq<Candidate>)
    requires Chosen(a, src, dst, result) && CandsOk(a, src, dst, result, cands) && |cands| > 0
    requires AllCovered(a, src, dst, result, cands)
    ensures var (result1, cands1) := Pick(result, cands);
      Chosen(a, src, dst, result1) && CandsOk(a, src, dst, result1, cands1)
      && CoversTo(a, src, dst, result1, cands1, 0) && |result1| == |result| + 1
  {
    var b := BestIndex(cands, |cands|);
    BestIsLightest(cands, |cands|);
    var best := cands[b];
    assert CandOk(a, src, dst, result, best);
    var result1, cands1 := result + [best.path], cands[..b] + cands[b + 1..];
    PickChosen(a, src, dst, result, cands, b);
    PickCands(a, src, dst, result, cands, b);
    forall p, m {:trigger Covers(a, src, dst, result1, cands1, p[..m])} |
      p in result1 && 0 < m < |p| && (m <= 0 || !HasPrefix(best.path, p[..m]))
      ensures Covers(a, src, dst, result1, cands1, p[..m])
    {
      assert p in result;
      assert Covers(a, src, dst, result, cands, p[..m]);
      CoversAfterPick(a, src, dst, result, cands, b, p[..m]);
    }
  }

  lemma PickCands(a: Arcs, src: Vertex, dst: Vertex, result: seq<Path>, cands: seq<Candidate>, b: nat)
    requires b < |cands| && CandsOk(a, src, dst, result, cands)
    ensures CandsOk(a, src, dst, result + [cands[b].path], cands[..b] + cands[b + 1..])
  {
    var result1, cands1 := result + [cands[b].path], cands[..b] + cands[b + 1..];
    forall j | 0 <= j < |cands1|
      ensures CandOk(a, src, dst, result1, cands1[j])
    {
      var at := if j < b then j else j + 1;
      assert cands1[j] == cands[at] && CandOk(a, src, dst, result, cands[at]);
    }
  }

  lemma PickChosen(a: Arcs, src: Vertex, dst: Vertex, result: seq<Path>, cands: seq<Candidate>, b: nat)
    requires Chosen(a, src, dst, result) && b < |cands| && CandOk(a, src, dst, result, cands[b])
    requires AllCovered(a, src, dst, result, cands)
    requires forall j :: 0 <= j < |cands| ==> cands[b].w <= cands[j].w
    ensures Chosen(a, src, dst, result + [cands[b].path])
  {
    hide SimplePath, PathWeight, AllCovered;
    var result1 := result + [cands[b].path];
    forall q | SimplePath(a, src, dst, q) && q !in result1
      ensures PathWeight(a, cands[b].path) <= PathWeight(a, q)
    {
      var j := CandidatesSuffice(a, src, dst, result, cands, q);
    }
    HeavierLast(a, result, cands[b].path);
    forall i | 0 <= i < |result1|
      ensures SimplePath(a, src, dst, result1[i])
    {
      assert i < |result| ==> SimplePath(a, src, dst, result[i]);
    }
  }

  lemma HeavierLast(a: Arcs, result: seq<Path>, p: Path)
    requires forall i, j :: 0 <= i < j < |result| ==> PathWeight(a, result[i]) <= PathWeight(a, result[j])
    requires |result| > 0 && PathWeight(a, result[|result| - 1]) <= PathWeight(a, p)
    ensures forall i, j :: 0 <= i < j < |result + [p]| ==> PathWeight(a, (result + [p])[i]) <= PathWeight(a, (result + [p])[j])
  {
    hide PathWeight;
    forall i, j | 0 <= i < j < |result + [p]|
      ensures PathWeight(a, (result + [p])[i]) <= PathWeight(a, (result + [p])[j])
    {
      assert i < |result| - 1 ==> PathWeight(a, result[i]) <= PathWeight(a, result[|result| - 1]);
    }
  }

  lemma TakenMore(result: seq<Path>, p: Path, q: Path, n: nat)
    requires n < |q|
    ensures Taken(result, q, n) ==> Taken(result + [p], q, n)
  {
    assert forall x :: x in result ==> x in result + [p];
  }

  lemma CoversAfterPick(a: Arcs, src: Vertex, dst: Vertex, result: seq<Path>, cands: seq<Candidate>, b: nat, r: Path)
    requires b < |cands| && Covers(a, src, dst, result, cands, r) && !HasPrefix(cands[b].path, r)
    ensures Covers(a, src, dst, result + [cands[b].path], cands[..b] + cands[b + 1..], r)
  {
    hide SimplePath, Taken;
    var result1, cands1 := result + [cands[b].path], cands[..b] + cands[b + 1..];
    forall q | SimplePath(a, src, dst, q) && HasPrefix(q, r) && !Taken(result1, q, |r|)
      ensures exists j :: 0 <= j < |cands1| && Serves(a, cands1[j], r, q)
    {
      TakenMore(result, cands[b].path, q, |r|);
      var j :| 0 <= j < |cands| && Serves(a, cands[j], r, q);
      var at := if j < b then j else j - 1;
      assert cands1[at] == cands[j];
    }
  }

  // ---------- the whole search ----------

  lemma FullList(a: Arcs, src: Vertex, dst: Vertex, k: int, result: seq<Path>)
    requires Chosen(a, src, dst, result) && |result| == Bound(k)
    ensures IsKShortest(a, src, dst, k, result)
  {
  }

  lemma ExhaustedList(a: Arcs, src: Vertex, dst: Vertex, k: int, result: seq<Path>)
    requires Chosen(a, src, dst, result) && |result| <= Bound(k) && AllCovered(a, src, dst, result, [])
    ensures IsKShortest(a, src, dst, k, result)
  {
    forall q | SimplePath(a, src, dst, q)
      ensures q in result
    {
      if q !in result {
        var j := CandidatesSuffice(a, src, dst, result, [], q);
      }
    }
  }

  // What holds before every round.
  ghost predicate Round(a: Arcs, src: Vertex, dst: Vertex, k: int, result: seq<Path>, cands: seq<Candidate>) {
    && Chosen(a, src, dst, result) && CandsOk(a, src, dst, result, cands)
    && CoversTo(a, src, dst, result, cands, 0) && |result| <= Bound(k)
  }

  lemma RoundSpurs(a: Arcs, g: Graph, src: Vertex, dst: Vertex, k: int, result: seq<Path>, cands: seq<Candidate>)
    requires WellFormed(g) && a == ArcsOf(g) && Safe(a) && Round(a, src, dst, k, result, cands)
    ensures |result[|result| - 1]| > 0
    ensures var c := Spurs(g, dst, result, cands, |result[|result| - 1]| - 1);
      CandsOk(a, src, dst, result, c) && AllCovered(a, src, dst, result, c)
  {
    var last := result[|result| - 1];
    assert SimplePath(a, src, dst, last);
    SpursKeep(a, g, src, dst, result, cands, |last| - 1);
    LastCovered(a, src, dst, result, Spurs(g, dst, result, cands, |last| - 1));
  }

  lemma {:induction false} RoundsList(a: Arcs, g: Graph, src: Vertex, dst: Vertex, k: int,
                                      result: seq<Path>, cands: seq<Candidate>)
    requires WellFormed(g) && a == ArcsOf(g) && Safe(a) && Round(a, src, dst, k, result, cands)
    ensures IsKShortest(a, src, dst, k, Rounds(g, dst, k, result, cands))
    decreases k - |result|
  {
    if |result| >= k {
      FullList(a, src, dst, k, result);
    } else {
      RoundSpurs(a, g, src, dst, k, result, cands);
      var c := Spurs(g, dst, result, cands, |result[|result| - 1]| - 1);
      if c == [] {
        ExhaustedList(a, src, dst, k, result);
      } else {
        PickKeeps(a, src, dst, result, c);
        RoundsList(a, g, src, dst, k, Pick(result, c).0, Pick(result, c).1);
      }
    }
  }

  lemma FirstChosen(a: Arcs, src: Vertex, dst: Vertex, p: Path, w: nat)
    requires Safe(a) && IsShortest(a, src, dst, Found(p, w))
    ensures w < MAX_W && Chosen(a, src, dst, [p]) && CandsOk(a, src, dst, [p], [])
    ensures CoversTo(a, src, dst, [p], [], 0)
  {
    assert IsWalk(a, p);
  }

  lemma MaskNothing(a: Arcs)
    ensures Mask(a, {}, {}) == a
  {
  }

  lemma FromFirstList(g: Graph, src: Vertex, dst: Vertex, k: int, found: Found)
    requires WellFormed(g) && Safe(ArcsOf(g)) && k > 0 && IsShortest(ArcsOf(g), src, dst, found)
    ensures IsKShortest(ArcsOf(g), src, dst, k, FromFirst(g, dst, k, found))
  {
    match found
    case Found(p, w) =>
      FirstChosen(ArcsOf(g), src, dst, p, w);
      RoundsList(ArcsOf(g), g, src, dst, k, [p], []);
    case NotFound =>
  }

  // KShortest returns the K shortest simple paths.
  lemma KPathsCorrect(g: Graph, src: Vertex, dst: Vertex, k: int)
    requires WellFormed(g) && Safe(ArcsOf(g)) && src != dst
    ensures IsKShortest(ArcsOf(g), src, dst, k, KPaths(g, src, dst, k))
  {
    if k > 0 {
      ShortestIsShortest(g, src, dst, {}, {});
      MaskNothing(ArcsOf(g));
      FromFirstList(g, src, dst, k, Shortest(g, src, dst, {}, {}));
    }
  }

  // ---------- the algorithm as the program runs it ----------

  // The weight of the first i edges of path, one edge lookup at a time.
  method PrefixWeight(g: Graph, path: Path, i: nat) returns (total: nat)
    requires WellFormed(g) && i < |path|
    ensures total == PathWeight(ArcsOf(g), path[..i + 1])
  {
    total := 0;
    for j := 0 to i
      invariant total == PathWeight(ArcsOf(g), path[..j + 1])
    {
      var w := EdgeWeight(g, path[j], path[j + 1]);
      WeightSnoc(ArcsOf(g), path[..j + 1], path[j + 1]);
      assert path[..j + 1] + [path[j + 1]] == path[..j + 2];
      total := total + w;
    }
  }

  method EdgeWeight(g: Graph, u: Vertex, v: Vertex) returns (w: nat)
    requires WellFormed(g)
    ensures w == Cost(ArcsOf(g), u, v)
  {
    var es := if u in g then g[u] else [];
    for i := 0 to |es|
      invariant forall j :: 0 <= j < i ==> es[j].to != v
    {
      if es[i].to == v {
        EdgeIsArc(g, u, i);
        return es[i].w;
      }
    }
    if Link(u, v) in ArcsOf(g) {
      var i := ArcIsEdge(g, u, v);
    }
    return 0;
  }

  // The edges to remove at spur vertex i; the index i + 1 is always in range.
  method RemovedEdges(ghost a: Arcs, ghost src: Vertex, ghost dst: Vertex, result: seq<Path>, prev: Path, i: nat)
    returns (removedE: set<Link>)
    requires AllSimple(a, src, dst, result) && prev in result && i + 1 < |prev|
    ensures removedE == SpurE(result, prev, i)
  {
    removedE := {};
    assert SimplePath(a, src, dst, prev);
    for j := 0 to |result|
      invariant removedE == SpurE(result[..j], prev, i)
    {
      var p := result[j];
      assert SimplePath(a, src, dst, p);
      assert result[..j + 1] == result[..j] + [p];
      if |p| > i && p[..i + 1] == prev[..i + 1] {
        assert p[i] == p[..i + 1][i] == prev[i];
        removedE := removedE + {Link(p[i], p[i + 1])};
      }
    }
    assert result[..|result|] == result;
  }

  ghost predicate PathsOf(cands: seq<Candidate>, seen: set<Path>) {
    forall p :: p in seen <==> Listed(cands, p)
  }

  // One spur: search, join, and file the new candidate unless it is known.
  method TrySpur(ghost a: Arcs, ghost src: Vertex, g: Graph, dst: Vertex, result: seq<Path>, chosen: set<Path>,
                 cands: seq<Candidate>, seen: set<Path>, i: nat)
    returns (cands1: seq<Candidate>, seen1: set<Path>)
    requires SpurReady(a, g, src, dst, result, cands, i)
    requires (forall p :: p in chosen <==> p in result) && PathsOf(cands, seen)
    ensures cands1 == AddSpur(g, dst, result, cands, i) && PathsOf(cands1, seen1)
  {
    var prev := result[|result| - 1];
    var removedV := set v | v in prev[..i];
    var removedE := RemovedEdges(a, src, dst, result, prev, i);
    var spur, w := ShortestPath(g, prev[i], dst, removedV, removedE);
    cands1, seen1 := FileSpur(a, g, result, chosen, cands, seen, i, spur, w);
  }

  method FileSpur(ghost a: Arcs, g: Graph, result: seq<Path>, chosen: set<Path>,
                  cands: seq<Candidate>, seen: set<Path>, i: nat, spur: Path, w: nat)
    returns (cands1: seq<Candidate>, seen1: set<Path>)
    requires WellFormed(g) && a == ArcsOf(g) && |result| > 0 && i < |result[|result| - 1]|
    requires (forall p :: p in chosen <==> p in result) && PathsOf(cands, seen)
    ensures cands1 == AddFound(a, result, cands, i, if spur == [] then NotFound else Found(spur, w))
    ensures PathsOf(cands1, seen1)
  {
    var prev := result[|result| - 1];
    cands1, seen1 := cands, seen;
    if spur == [] || w >= MAX_W {
      return;
    }
    var total := prev[..i] + spur;
    if total in chosen || total in seen {
      return;
    }
    seen1 := seen + {total};
    var root := PrefixWeight(g, prev, i);
    cands1 := cands + [Candidate(total, root + w)];
    SeenGrows(cands, seen, Candidate(total, root + w));
  }

  lemma SeenGrows(cands: seq<Candidate>, seen: set<Path>, c: Candidate)
    requires PathsOf(cands, seen)
    ensures PathsOf(cands + [c], seen + {c.path})
  {
    var more := cands + [c];
    forall p
      ensures p in seen + {c.path} <==> Listed(more, p)
    {
      if p == c.path {
        assert more[|cands|].path == p;
      }
      if Listed(cands, p) {
        var j :| 0 <= j < |cands| && cands[j].path == p;
        assert more[j].path == p;
      }
    }
  }

  lemma SeenShrinks(cands: seq<Candidate>, seen: set<Path>, b: nat)
    requires b < |cands| && PathsOf(cands, seen)
    requires forall i, j :: 0 <= i < j < |cands| ==> cands[i].path != cands[j].path
    ensures PathsOf(cands[..b] + cands[b + 1..], seen - {cands[b].path})
  {
    var less := cands[..b] + cands[b + 1..];
    forall p
      ensures p in seen - {cands[b].path} <==> Listed(less, p)
    {
      if p in seen && p != cands[b].path {
        var j :| 0 <= j < |cands| && cands[j].path == p;
        assert less[if j < b then j else j - 1].path == p;
      }
      if Listed(less, p) {
        var j :| 0 <= j < |less| && less[j].path == p;
        assert cands[if j < b then j else j + 1].path == p;
      }
    }
  }

  method PickBest(cands: seq<Candidate>) returns (b: nat)
    requires |cands| > 0 && forall i, j :: 0 <= i < j < |cands| ==> cands[i].path != cands[j].path
    ensures b == BestIndex(cands, |cands|)
    ensures b < |cands| && forall j :: 0 <= j < |cands| && j != b ==> Better(cands[b], cands[j])
  {
    BestIsFirst(cands, |cands|);
    b := 0;
    for j := 1 to |cands|
      invariant b == BestIndex(cands, j)
    {
      if Better(cands[j], cands[b]) {
        b := j;
      }
    }
  }

  method KShortestPaths(g: Graph, src: Vertex, dst: Vertex, k: int) returns (result: seq<Path>)
    requires WellFormed(g) && Safe(ArcsOf(g))
    ensures result == KPaths(g, src, dst, k)
    ensures src != dst ==> IsKShortest(ArcsOf(g), src, dst, k, result)
  {
    if src != dst {
      KPathsCorrect(g, src, dst, k);
    }
    if k <= 0 || src == dst {
      return [];
    }
    var first, w := ShortestPath(g, src, dst, {}, {});
    ShortestIsShortest(g, src, dst, {}, {});
    MaskNothing(ArcsOf(g));
    if first == [] || w >= MAX_W {
      return [];
    }
    FirstChosen(ArcsOf(g), src, dst, first, w);
    result := MoreRounds(ArcsOf(g), g, src, dst, k, first);
  }

  method MoreRounds(ghost a: Arcs, g: Graph, src: Vertex, dst: Vertex, k: int, first: Path) returns (result: seq<Path>)
    requires WellFormed(g) && a == ArcsOf(g) && Safe(a) && k > 0
    requires Round(a, src, dst, k, [first], [])
    ensures result == Rounds(g, dst, k, [first], [])
  {
    result := [first];
    var chosen := {first};
    var candidates: seq<Candidate> := [];
    var seen: set<Path> := {};
    while |result| < k
      invariant Round(a, src, dst, k, result, candidates)
      invariant forall p :: p in chosen <==> p in result
      invariant PathsOf(candidates, seen)
      invariant Rounds(g, dst, k, result, candidates) == Rounds(g, dst, k, [first], [])
      decreases k - |result|
    {
      RoundSpurs(a, g, src, dst, k, result, candidates);
      candidates, seen := TrySpurs(a, src, g, dst, result, chosen, candidates, seen);
      if |candidates| == 0 {
        return;
      }
      PickKeeps(a, src, dst, result, candidates);
      var b := PickBest(candidates);
      SeenShrinks(candidates, seen, b);
      var best := candidates[b].path;
      candidates, seen := candidates[..b] + candidates[b + 1..], seen - {best};
      result, chosen := result + [best], chosen + {best};
    }
  }

  // All spurs of the last chosen path.
  method TrySpurs(ghost a: Arcs, ghost src: Vertex, g: Graph, dst: Vertex, result: seq<Path>, chosen: set<Path>,
                  cands0: seq<Candidate>, seen0: set<Path>)
    returns (cands: seq<Candidate>, seen: set<Path>)
    requires WellFormed(g) && a == ArcsOf(g) && Safe(a) && Chosen(a, src, dst, result)
    requires CandsOk(a, src, dst, result, cands0) && CoversTo(a, src, dst, result, cands0, 0)
    requires |result[|result| - 1]| > 0
    requires (forall p :: p in chosen <==> p in result) && PathsOf(cands0, seen0)
    ensures cands == Spurs(g, dst, result, cands0, |result[|result| - 1]| - 1) && PathsOf(cands, seen)
  {
    cands, seen := cands0, seen0;
    var prev := result[|result| - 1];
    for i := 0 to |prev| - 1
      invariant cands == Spurs(g, dst, result, cands0, i) && PathsOf(cands, seen)
    {
      SpursKeep(a, g, src, dst, result, cands0, i);
      cands, seen := TrySpur(a, src, g, dst, result, chosen, cands, seen, i);
    }
  }
}
