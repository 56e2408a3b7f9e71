// The relay selector: one current relay, switched with hysteresis
// (internal/nodecore/multirelay/selector.go). Probe results and the clock are inputs of a
// round; reports may arrive between the two locked sections of a round.
module Selector {
  import opened Paths
  import opened Sorting

  datatype Endpoint = Endpoint(id: string, priority: int)

  datatype Config = Config(interval: int, margin: int, switchStreak: int, degradeStreak: int)

  datatype Rtt = Rtt(ms: int, ok: bool)

  // id "" says there is none.
  datatype Best = Best(id: string, ms: int)

  datatype State = State(current: string, probed: bool, lastProbe: int, betterStreak: int, betterID: string,
                         degradeCount: int, primaryFail: int)

  datatype Why = Stayed | Degraded | Better

  // What happened, oldest first: a report, a round without a relay, or a round that found the
  // current relay from with its own probe cur and the best other relay, and left it at to.
  datatype Entry =
    | Report(degraded: bool)
    | Empty(now: int)
    | Round(now: int, from: string, cur: Rtt, best: Best, to: string, why: Why)

  function Defaults(c: Config): Config {
    Config(if c.interval <= 0 then 5000 else c.interval, if c.margin <= 0 then 30 else c.margin,
           if c.switchStreak <= 0 then 3 else c.switchStreak, if c.degradeStreak <= 0 then 2 else c.degradeStreak)
  }

  // ---------- the candidates ----------

  // An endpoint with its place in the configuration, by which a stable sort settles ties.
  datatype Cand = Cand(ep: Endpoint, pos: nat)

  predicate Preferred(x: Cand, y: Cand) {
    x.ep.priority < y.ep.priority || (x.ep.priority == y.ep.priority && x.pos < y.pos)
  }

  function Tagged(eps: seq<Endpoint>): (t: seq<Cand>)
    ensures |t| == |eps| && forall i :: 0 <= i < |eps| ==> t[i] == Cand(eps[i], i)
  {
    seq(|eps|, i requires 0 <= i < |eps| => Cand(eps[i], i))
  }

  function ByPriority(eps: seq<Endpoint>): seq<Cand> {
    Sort(Tagged(eps), Preferred)
  }

  function Initial(cands: seq<Cand>): State {
    State(if |cands| > 0 then cands[0].ep.id else "", false, 0, 0, "", 0, 0)
  }

  ghost predicate FirstLeast(eps: seq<Endpoint>, i: nat) {
    && i < |eps|
    && forall j :: 0 <= j < |eps| ==> eps[i].priority <= eps[j].priority && (j < i ==> eps[i].priority < eps[j].priority)
  }

  // The initial relay is the first configured one of the least priority.
  lemma InitialRelay(eps: seq<Endpoint>)
    requires eps != []
    ensures exists i: nat :: FirstLeast(eps, i) && Initial(ByPriority(eps)).current == eps[i].id
  {
    hide Sort, Tagged, WeakOrder, Separated;
    var t, r := Tagged(eps), ByPriority(eps);
    PreferredIsOrder();
    PlacesDiffer(eps);
    SortSorts(t, Preferred);
    SortElements(t, Preferred);
    assert r[0] in t;
    var i: nat :| i < |t| && t[i] == r[0];
    forall j | 0 <= j < |eps| && j != i
      ensures Preferred(t[i], t[j])
    {
      assert t[j] in r && t[j] != t[i];
      HeadFirst(r, t[j]);
    }
    assert FirstLeast(eps, i);
  }

  lemma HeadFirst(r: seq<Cand>, c: Cand)
    requires Sorted(r, Preferred) && c in r && c != r[0]
    ensures Preferred(r[0], c)
  {
    var k :| 0 <= k < |r| && r[k] == c;
  }

  lemma PreferredIsOrder()
    ensures WeakOrder(Preferred)
  {
  }

  lemma PlacesDiffer(eps: seq<Endpoint>)
    ensures Separated(Tagged(eps), Preferred)
  {
  }

  // ---------- one round ----------

  // The best of the first n candidates but the current one.
  function BestOf(cands: seq<Cand>, cur: string, probes: seq<Rtt>, n: nat): Best
    requires n <= |cands| == |probes|
  {
    if n == 0 then Best("", 0)
    else
      var b := BestOf(cands, cur, probes, n - 1);
      if cands[n - 1].ep.id == cur || !probes[n - 1].ok then b
      else if b.id == "" || probes[n - 1].ms < b.ms then Best(cands[n - 1].ep.id, probes[n - 1].ms)
      else b
  }

  predicate Reachable(cands: seq<Cand>, cur: string, probes: seq<Rtt>, i: nat)
    requires i < |cands| == |probes|
  {
    cands[i].ep.id != cur && probes[i].ok
  }

  ghost predicate Fastest(cands: seq<Cand>, cur: string, probes: seq<Rtt>, n: nat, i: nat)
    requires n <= |cands| == |probes|
  {
    && i < n && Reachable(cands, cur, probes, i)
    && forall j :: 0 <= j < n && Reachable(cands, cur, probes, j) ==>
         probes[i].ms <= probes[j].ms && (j < i ==> probes[i].ms < probes[j].ms)
  }

  ghost predicate SomeReachable(cands: seq<Cand>, cur: string, probes: seq<Rtt>, n: nat)
    requires n <= |cands| == |probes|
  {
    exists i :: 0 <= i < n && Reachable(cands, cur, probes, i)
  }

  lemma {:induction false} FastestExists(cands: seq<Cand>, cur: string, probes: seq<Rtt>, n: nat)
    requires n <= |cands| == |probes|
    ensures SomeReachable(cands, cur, probes, n) <==> exists i: nat :: Fastest(cands, cur, probes, n, i)
  {
    if n > 0 && SomeReachable(cands, cur, probes, n) {
      FastestExists(cands, cur, probes, n - 1);
      if SomeReachable(cands, cur, probes, n - 1) {
        var i: nat :| Fastest(cands, cur, probes, n - 1, i);
        var best: nat := if Reachable(cands, cur, probes, n - 1) && probes[n - 1].ms < probes[i].ms then n - 1 else i;
        assert Fastest(cands, cur, probes, n, best);
      } else {
        assert Reachable(cands, cur, probes, n - 1);
        assert Fastest(cands, cur, probes, n, n - 1);
      }
    }
  }

  // While nothing is reachable there is no best; otherwise what was met so far is not faster
  // than the fastest.
  lemma {:induction false} BestNotFaster(cands: seq<Cand>, cur: string, probes: seq<Rtt>, n: nat)
    requires n <= |cands| == |probes|
    ensures var b := BestOf(cands, cur, probes, n);
      && (b.id != "" ==> exists i :: 0 <= i < n && Reachable(cands, cur, probes, i) && b == Best(cands[i].ep.id, probes[i].ms))
  {
    if n > 0 {
      BestNotFaster(cands, cur, probes, n - 1);
      var a, b := BestOf(cands, cur, probes, n - 1), BestOf(cands, cur, probes, n);
      if b != a {
        assert Reachable(cands, cur, probes, n - 1);
      }
    }
  }

  // A fastest candidate with a name is kept to the end.
  lemma {:induction false} FastestKept(cands: seq<Cand>, cur: string, probes: seq<Rtt>, n: nat, i: nat)
    requires n <= |cands| == |probes| && Fastest(cands, cur, probes, n, i)
    ensures BestOf(cands, cur, probes, i + 1) == Best(cands[i].ep.id, probes[i].ms)
    ensures cands[i].ep.id != "" ==> BestOf(cands, cur, probes, n) == Best(cands[i].ep.id, probes[i].ms)
    decreases n
  {
    if i == n - 1 {
      BestNotFaster(cands, cur, probes, i);
    } else {
      assert Fastest(cands, cur, probes, n - 1, i);
      FastestKept(cands, cur, probes, n - 1, i);
    }
  }

  // Once the best so far has no name, the rest is searched as if from the start.
  lemma {:induction false} UnnamedRestarts(cands: seq<Cand>, cur: string, probes: seq<Rtt>, n: nat, m: nat)
    requires m <= n <= |cands| == |probes| && BestOf(cands, cur, probes, m).id == ""
    ensures var b, rest := BestOf(cands, cur, probes, n), BestOf(cands[m..], cur, probes[m..], n - m);
      b.id == rest.id && (rest.id != "" ==> b == rest)
  {
    if m < n {
      UnnamedRestarts(cands, cur, probes, n - 1, m);
      assert cands[m..][n - 1 - m] == cands[n - 1] && probes[m..][n - 1 - m] == probes[n - 1];
    }
  }

  // There is a best only if some other candidate is reachable, and then it is the first with
  // the least round trip, exactly when that one has a name. If it has none, it is taken for no
  // candidate at all and the best of those after it is returned.
  lemma BestIsLeast(cands: seq<Cand>, cur: string, probes: seq<Rtt>, n: nat)
    requires n <= |cands| == |probes|
    ensures var b := BestOf(cands, cur, probes, n);
      && (SomeReachable(cands, cur, probes, n) <==> exists i: nat :: Fastest(cands, cur, probes, n, i))
      && (b.id != "" ==> SomeReachable(cands, cur, probes, n))
      && (forall i: nat :: Fastest(cands, cur, probes, n, i) ==>
            && (b.id != "" && b == Best(cands[i].ep.id, probes[i].ms) <==> cands[i].ep.id != "")
            && (cands[i].ep.id == "" ==>
                  var rest := BestOf(cands[i + 1..], cur, probes[i + 1..], n - i - 1);
                  b.id == rest.id && (rest.id != "" ==> b == rest)))
  {
    FastestExists(cands, cur, probes, n);
    BestNotFaster(cands, cur, probes, n);
    forall i: nat | Fastest(cands, cur, probes, n, i)
      ensures cands[i].ep.id != "" ==> BestOf(cands, cur, probes, n) == Best(cands[i].ep.id, probes[i].ms)
      ensures cands[i].ep.id == "" ==>
        var b, rest := BestOf(cands, cur, probes, n), BestOf(cands[i + 1..], cur, probes[i + 1..], n - i - 1);
        b.id == rest.id && (rest.id != "" ==> b == rest)
    {
      FastestKept(cands, cur, probes, n, i);
      if cands[i].ep.id == "" {
        UnnamedRestarts(cands, cur, probes, n, i + 1);
      }
    }
  }

  // So an unnamed fastest relay hides a slower one before it for an even slower one after it.
  lemma UnnamedHides(a: Cand, x: Cand, b: Cand, cur: string, fast: int, slow: int, slower: int)
    requires a.ep.id != "" && x.ep.id == "" && b.ep.id != "" && cur !in [a.ep.id, "", b.ep.id] && fast < slow < slower
    ensures BestOf([a, x, b], cur, [Rtt(slow, true), Rtt(fast, true), Rtt(slower, true)], 3) == Best(b.ep.id, slower)
  {
    var cands, probes := [a, x, b], [Rtt(slow, true), Rtt(fast, true), Rtt(slower, true)];
    assert Fastest(cands, cur, probes, 3, 1);
    BestIsLeast(cands, cur, probes, 3);
    assert cands[2..] == [b] && probes[2..] == [Rtt(slower, true)];
    assert BestOf([b], cur, [Rtt(slower, true)], 1) == Best(b.ep.id, slower);
  }

  lemma {:induction false} BestIsCandidate(cands: seq<Cand>, cur: string, probes: seq<Rtt>, n: nat)
    requires n <= |cands| == |probes|
    ensures var b := BestOf(cands, cur, probes, n);
      b.id != "" ==> b.id != cur && exists i :: 0 <= i < n && cands[i].ep.id == b.id
  {
    if n > 0 {
      BestIsCandidate(cands, cur, probes, n - 1);
    }
  }

  function Reported(s: State, degraded: bool): State {
    s.(degradeCount := if degraded then s.degradeCount + 1 else 0)
  }

  function ReportedAll(s: State, reports: seq<bool>): State {
    if reports == [] then s else Reported(ReportedAll(s, reports[..|reports| - 1]), reports[|reports| - 1])
  }

  function Switched(s: State, to: string): State {
    s.(current := to, betterStreak := 0, betterID := "", degradeCount := 0, primaryFail := 0)
  }

  predicate Due(c: Config, s: State, now: int) {
    !s.probed || now - s.lastProbe >= c.interval
  }

  predicate MuchBetter(c: Config, cur: Rtt, best: Best) {
    cur.ok && best.id != "" && cur.ms - best.ms >= c.margin
  }

  datatype Decision = Decision(state: State, why: Why)

  // The second locked section, with what the first one saw.
  function Decide(c: Config, s: State, degraded: bool, cur: Rtt, best: Best): Decision {
    var s1 := s.(primaryFail := if cur.ok then 0 else s.primaryFail + 1);
    var unusable := !cur.ok && s1.primaryFail >= c.degradeStreak;
    if (degraded || s1.degradeCount >= c.degradeStreak || unusable) && best.id != "" then
      Decision(Switched(s1, best.id), Degraded)
    else if MuchBetter(c, cur, best) then
      var s2 := if s1.betterID == best.id then s1.(betterStreak := s1.betterStreak + 1)
                else s1.(betterID := best.id, betterStreak := 1);
      if s2.betterStreak >= c.switchStreak then Decision(Switched(s2, best.id), Better) else Decision(s2, Stayed)
    else Decision(s1.(betterStreak := 0, betterID := ""), Stayed)
  }

  // ---------- runs ----------

  // A round finds its probe results, and reports arrive while it probes.
  datatype Event = Told(degraded: bool) | Tick(now: int, cur: Rtt, probes: seq<Rtt>, during: seq<bool>)

  datatype Sys = Sys(state: State, log: seq<Entry>)

  function Reports(reports: seq<bool>): (l: seq<Entry>)
    ensures |l| == |reports|
  {
    if reports == [] then [] else Reports(reports[..|reports| - 1]) + [Report(reports[|reports| - 1])]
  }

  // What the current relay's probe gives: nothing when it is not a candidate.
  function CurrentProbe(cands: seq<Cand>, cur: string, rtt: Rtt): Rtt {
    if exists i :: 0 <= i < |cands| && cands[i].ep.id == cur then rtt else Rtt(0, false)
  }

  function Act(c: Config, cands: seq<Cand>, y: Sys, e: Event): Sys
    requires e.Tick? ==> |e.probes| == |cands|
  {
    match e
    case Told(degraded) => Sys(Reported(y.state, degraded), y.log + [Report(degraded)])
    case Tick(now, rtt, probes, during) =>
      if !Due(c, y.state, now) then Sys(ReportedAll(y.state, during), y.log + Reports(during))
      else
        var s := y.state.(probed := true, lastProbe := now);
        if s.current == "" then Sys(ReportedAll(s, during), y.log + [Empty(now)] + Reports(during))
        else
          var cur := CurrentProbe(cands, s.current, rtt);
          var best := BestOf(cands, s.current, probes, |cands|);
          var d := Decide(c, ReportedAll(s, during), s.degradeCount >= c.degradeStreak, cur, best);
          Sys(d.state, y.log + Reports(during) + [Round(now, s.current, cur, best, d.state.current, d.why)])
  }

  predicate Fits(cands: seq<Cand>, run: seq<Event>) {
    forall i :: 0 <= i < |run| && run[i].Tick? ==> |run[i].probes| == |cands|
  }

  function Run(c: Config, cands: seq<Cand>, run: seq<Event>): Sys
    requires Fits(cands, run)
  {
    if run == [] then Sys(Initial(cands), [])
    else
      assert run[|run| - 1] in run;
      Act(c, cands, Run(c, cands, run[..|run| - 1]), run[|run| - 1])
  }

  // ---------- what the history says ----------

  predicate Switch(e: Entry) {
    e.Round? && !e.why.Stayed?
  }

  // x was the best reachable candidate, better than a reachable current one by the margin.
  predicate Qualifies(c: Config, e: Entry, x: string)
    requires e.Round?
  {
    MuchBetter(c, e.cur, e.best) && e.best.id == x
  }

  // How many of the last rounds since the last switch all found x much better.
  function BetterRun(c: Config, log: seq<Entry>, x: string): nat {
    if log == [] then 0
    else
      var e, rest := log[|log| - 1], log[..|log| - 1];
      match e
      case Report(_) => BetterRun(c, rest, x)
      case Empty(_) => BetterRun(c, rest, x)
      case Round(_, _, _, _, _, _) => if !Switch(e) && Qualifies(c, e, x) then BetterRun(c, rest, x) + 1 else 0
  }

  // How many of the last rounds since the last switch all failed to reach the current relay.
  function FailRun(log: seq<Entry>): nat {
    if log == [] then 0
    else
      var e, rest := log[|log| - 1], log[..|log| - 1];
      match e
      case Report(_) => FailRun(rest)
      case Empty(_) => FailRun(rest)
      case Round(_, _, _, _, _, _) => if !Switch(e) && !e.cur.ok then FailRun(rest) + 1 else 0
  }

  // How many degrade reports since the last switch and the last healthy report.
  function DegradeRun(log: seq<Entry>): nat {
    if log == [] then 0
    else
      var e, rest := log[|log| - 1], log[..|log| - 1];
      match e
      case Report(degraded) => if degraded then DegradeRun(rest) + 1 else 0
      case Empty(_) => DegradeRun(rest)
      case Round(_, _, _, _, _, _) => if Switch(e) then 0 else DegradeRun(rest)
  }

  // The reports needed came in a row at some point, and no switch came since.
  ghost predicate WasDegraded(c: Config, log: seq<Entry>) {
    exists k :: 0 <= k <= |log| && DegradeRun(log[..k]) >= c.degradeStreak && forall i :: k <= i < |log| ==> !Switch(log[i])
  }

  // Why a switch at entry i was made.
  ghost predicate Justified(c: Config, log: seq<Entry>, i: nat)
    requires i < |log| && Switch(log[i])
  {
    var e := log[i];
    && e.to == e.best.id != ""
    && (e.why.Better? ==> Qualifies(c, e, e.to) && BetterRun(c, log[..i], e.to) + 1 >= c.switchStreak)
    && (e.why.Degraded? ==>
          WasDegraded(c, log[..i]) || (!e.cur.ok && FailRun(log[..i]) + 1 >= c.degradeStreak))
  }

  ghost predicate Candidate(cands: seq<Cand>, id: string) {
    if cands == [] then id == "" else exists i :: 0 <= i < |cands| && cands[i].ep.id == id
  }

  // The counters are what the history says.
  ghost predicate Counts(c: Config, y: Sys) {
    && 0 <= y.state.degradeCount == DegradeRun(y.log)
    && 0 <= y.state.primaryFail == FailRun(y.log)
    && forall x :: BetterRun(c, y.log, x) == if x == y.state.betterID then y.state.betterStreak else 0
  }

  ghost predicate Spaced(c: Config, y: Sys) {
    && (forall i, j :: 0 <= i < j < |y.log| && !y.log[i].Report? && !y.log[j].Report? ==> y.log[j].now - y.log[i].now >= c.interval)
    && (forall i :: 0 <= i < |y.log| && !y.log[i].Report? ==> y.state.probed && y.log[i].now <= y.state.lastProbe)
    && (y.state.probed ==> exists i :: 0 <= i < |y.log| && !y.log[i].Report? && y.log[i].now == y.state.lastProbe)
  }

  ghost predicate Inv(c: Config, cands: seq<Cand>, y: Sys) {
    && Candidate(cands, y.state.current) && Counts(c, y) && Spaced(c, y)
    && forall i :: 0 <= i < |y.log| && Switch(y.log[i]) ==> Justified(c, y.log, i)
  }

  lemma CountsReport(c: Config, y: Sys, degraded: bool)
    requires Counts(c, y)
    ensures Counts(c, Sys(Reported(y.state, degraded), y.log + [Report(degraded)]))
  {
    var log := y.log + [Report(degraded)];
    assert log[..|log| - 1] == y.log;
    forall x
      ensures BetterRun(c, log, x) == BetterRun(c, y.log, x)
    {
    }
  }

  lemma {:induction false} CountsReports(c: Config, y: Sys, reports: seq<bool>)
    requires Counts(c, y)
    ensures Counts(c, Sys(ReportedAll(y.state, reports), y.log + Reports(reports)))
    ensures forall e :: e in Reports(reports) ==> e.Report?
  {
    if reports == [] {
      assert y.log + Reports(reports) == y.log;
    } else {
      var n := |reports| - 1;
      CountsReports(c, y, reports[..n]);
      var y1 := Sys(ReportedAll(y.state, reports[..n]), y.log + Reports(reports[..n]));
      CountsReport(c, y1, reports[n]);
      assert y.log + Reports(reports) == y1.log + [Report(reports[n])];
    }
  }

  lemma JustifiedStays(c: Config, log: seq<Entry>, more: seq<Entry>, i: nat)
    requires i < |log| && Switch(log[i]) && Justified(c, log, i)
    ensures Justified(c, log + more, i)
  {
    assert (log + more)[..i] == log[..i];
  }

  // Entries that switch nothing and are no rounds change neither.
  lemma QuietEntries(c: Config, cands: seq<Cand>, y: Sys, more: seq<Entry>, s: State)
    requires Inv(c, cands, y) && forall e :: e in more ==> e.Report?
    requires Counts(c, Sys(s, y.log + more)) && s.current == y.state.current
    requires s.probed == y.state.probed && s.lastProbe == y.state.lastProbe
    ensures Inv(c, cands, Sys(s, y.log + more))
  {
    hide Counts, Justified;
    var log := y.log + more;
    assert forall i :: |y.log| <= i < |log| ==> log[i] in more;
    if y.state.probed {
      var j :| 0 <= j < |y.log| && !y.log[j].Report? && y.log[j].now == y.state.lastProbe;
      assert log[j] == y.log[j];
    }
    forall i | 0 <= i < |log| && Switch(log[i])
      ensures Justified(c, log, i)
    {
      JustifiedStays(c, y.log, more, i);
    }
  }

  lemma ReportedKeeps(s: State, reports: seq<bool>)
    ensures var t := ReportedAll(s, reports);
      && t == s.(degradeCount := t.degradeCount)
  {
    if reports != [] {
      ReportedKeeps(s, reports[..|reports| - 1]);
    }
  }

  lemma LastRun(c: Config, log: seq<Entry>, e: Entry, x: string)
    requires e.Round?
    ensures BetterRun(c, log + [e], x) == if !Switch(e) && Qualifies(c, e, x) then BetterRun(c, log, x) + 1 else 0
    ensures FailRun(log + [e]) == if !Switch(e) && !e.cur.ok then FailRun(log) + 1 else 0
    ensures DegradeRun(log + [e]) == if Switch(e) then 0 else DegradeRun(log)
  {
    assert (log + [e])[..|log|] == log;
  }

  // What a decision does to the streak of relay x.
  lemma DecideStreak(c: Config, s: State, degraded: bool, now: int, cur: Rtt, best: Best, x: string)
    ensures var d := Decide(c, s, degraded, cur, best);
      var e := Round(now, s.current, cur, best, d.state.current, d.why);
      (if !Switch(e) && Qualifies(c, e, x) then (if x == s.betterID then s.betterStreak else 0) + 1 else 0)
      == if x == d.state.betterID then d.state.betterStreak else 0
  {
  }

  // The counters after a decision say what the history says with the round added.
  lemma DecideCounts(c: Config, s: State, log: seq<Entry>, degraded: bool, now: int, cur: Rtt, best: Best)
    requires Counts(c, Sys(s, log))
    ensures var d := Decide(c, s, degraded, cur, best);
      Counts(c, Sys(d.state, log + [Round(now, s.current, cur, best, d.state.current, d.why)]))
  {
    hide BetterRun, FailRun, DegradeRun, Qualifies;
    var d := Decide(c, s, degraded, cur, best);
    var e := Round(now, s.current, cur, best, d.state.current, d.why);
    LastRun(c, log, e, "");
    forall x
      ensures BetterRun(c, log + [e], x) == if x == d.state.betterID then d.state.betterStreak else 0
    {
      LastRun(c, log, e, x);
      DecideStreak(c, s, degraded, now, cur, best, x);
      assert BetterRun(c, log, x) == if x == s.betterID then s.betterStreak else 0;
    }
  }

  // The reports up to some point, with no switch since, are enough.
  lemma Degrading(c: Config, log: seq<Entry>, more: seq<Entry>)
    requires DegradeRun(log) >= c.degradeStreak && forall e :: e in more ==> e.Report?
    ensures WasDegraded(c, log + more)
  {
    var l := log + more;
    assert l[..|log|] == log;
    forall i | |log| <= i < |l|
      ensures !Switch(l[i])
    {
      assert l[i] in more;
    }
  }

  // A decision to switch has its reason in the history.
  lemma DecideJustified(c: Config, s: State, log: seq<Entry>, degraded: bool, now: int, cur: Rtt, best: Best)
    requires Counts(c, Sys(s, log)) && (degraded ==> WasDegraded(c, log))
    ensures var d := Decide(c, s, degraded, cur, best);
      var e := Round(now, s.current, cur, best, d.state.current, d.why);
      Switch(e) ==> Justified(c, log + [e], |log|)
  {
    var d := Decide(c, s, degraded, cur, best);
    var e := Round(now, s.current, cur, best, d.state.current, d.why);
    assert (log + [e])[..|log|] == log;
    if s.degradeCount >= c.degradeStreak {
      Degrading(c, log, []);
      assert log + [] == log;
    }
    assert BetterRun(c, log, best.id) == if best.id == s.betterID then s.betterStreak else 0;
  }

  lemma RoundKeeps(c: Config, cands: seq<Cand>, y: Sys, s: State, e: Entry)
    requires Inv(c, cands, y) && Counts(c, Sys(s, y.log + [e]))
    requires e.Round? || e.Empty?
    requires s.probed && s.lastProbe == e.now && Candidate(cands, s.current)
    requires y.state.probed ==> e.now - y.state.lastProbe >= c.interval > 0
    requires Switch(e) ==> Justified(c, y.log + [e], |y.log|)
    ensures Inv(c, cands, Sys(s, y.log + [e]))
  {
    hide Counts, Justified;
    var log := y.log + [e];
    assert log[|y.log|] == e;
    forall i | 0 <= i < |log| && Switch(log[i])
      ensures Justified(c, log, i)
    {
      if i < |y.log| {
        JustifiedStays(c, y.log, [e], i);
      }
    }
  }

  // What a round that probes leaves.
  lemma RoundIs(c: Config, cands: seq<Cand>, y: Sys, now: int, rtt: Rtt, probes: seq<Rtt>, during: seq<bool>)
    requires Inv(c, cands, y) && c == Defaults(c) && |probes| == |cands| && Due(c, y.state, now) && y.state.current != ""
    ensures Inv(c, cands, Act(c, cands, y, Tick(now, rtt, probes, during)))
  {
    CountsReports(c, y, during);
    ReportedKeeps(y.state, during);
    QuietEntries(c, cands, y, Reports(during), ReportedAll(y.state, during));
    var s := y.state.(probed := true, lastProbe := now);
    ReportsAlike(y.state, s, during);
    var cur := CurrentProbe(cands, s.current, rtt);
    var best := BestOf(cands, s.current, probes, |cands|);
    var t, l := ReportedAll(s, during), y.log + Reports(during);
    var degraded := s.degradeCount >= c.degradeStreak;
    assert Counts(c, Sys(t, l)) by {
      assert t == ReportedAll(y.state, during).(probed := true, lastProbe := now);
    }
    if degraded {
      Degrading(c, y.log, Reports(during));
    }
    BestIsCandidate(cands, s.current, probes, |cands|);
    hide Counts, Justified, Inv, WasDegraded, BestOf, CurrentProbe, ReportedAll, Reports;
    DecideCounts(c, t, l, degraded, now, cur, best);
    DecideJustified(c, t, l, degraded, now, cur, best);
    DecideKeeps(c, t, degraded, cur, best);
    var d := Decide(c, t, degraded, cur, best);
    EntryKept(c, cands, y, Sys(ReportedAll(y.state, during), l), d.state, Round(now, s.current, cur, best, d.state.current, d.why));
  }

  lemma EntryKept(c: Config, cands: seq<Cand>, y: Sys, y1: Sys, s: State, e: Entry)
    requires Inv(c, cands, y1) && c == Defaults(c) && Counts(c, Sys(s, y1.log + [e])) && (e.Round? || e.Empty?)
    requires y1.state.probed == y.state.probed && y1.state.lastProbe == y.state.lastProbe && Due(c, y.state, e.now)
    requires s.probed && s.lastProbe == e.now && Candidate(cands, s.current)
    requires Switch(e) ==> Justified(c, y1.log + [e], |y1.log|)
    ensures Inv(c, cands, Sys(s, y1.log + [e]))
  {
    hide Counts, Justified, Inv;
    RoundKeeps(c, cands, y1, s, e);
  }

  lemma DecideKeeps(c: Config, s: State, degraded: bool, cur: Rtt, best: Best)
    ensures var d := Decide(c, s, degraded, cur, best);
      && d.state.probed == s.probed && d.state.lastProbe == s.lastProbe
      && (d.state.current == s.current || (d.state.current == best.id && best.id != ""))
  {
  }

  // When the round begins plays no part in what reports do.
  lemma {:induction false} ReportsAlike(s: State, t: State, during: seq<bool>)
    requires t == s.(probed := t.probed, lastProbe := t.lastProbe)
    ensures ReportedAll(t, during) == ReportedAll(s, during).(probed := t.probed, lastProbe := t.lastProbe)
  {
    if during != [] {
      ReportsAlike(s, t, during[..|during| - 1]);
    }
  }

  lemma ActInv(c: Config, cands: seq<Cand>, y: Sys, e: Event)
    requires Inv(c, cands, y) && c == Defaults(c) && (e.Tick? ==> |e.probes| == |cands|)
    ensures Inv(c, cands, Act(c, cands, y, e))
  {
    match e
    case Told(degraded) =>
      CountsReport(c, y, degraded);
      QuietEntries(c, cands, y, [Report(degraded)], Reported(y.state, degraded));
    case Tick(now, rtt, probes, during) =>
      if !Due(c, y.state, now) {
        CountsReports(c, y, during);
        ReportedKeeps(y.state, during);
        QuietEntries(c, cands, y, Reports(during), ReportedAll(y.state, during));
      } else if y.state.current == "" {
        EmptyKeeps(c, cands, y, now, during);
      } else {
        RoundIs(c, cands, y, now, rtt, probes, during);
      }
  }

  lemma EmptyKeeps(c: Config, cands: seq<Cand>, y: Sys, now: int, during: seq<bool>)
    requires Inv(c, cands, y) && c == Defaults(c) && Due(c, y.state, now)
    ensures var s := y.state.(probed := true, lastProbe := now);
      Inv(c, cands, Sys(ReportedAll(s, during), y.log + [Empty(now)] + Reports(during)))
  {
    var s := y.state.(probed := true, lastProbe := now);
    var y1 := Sys(s, y.log + [Empty(now)]);
    assert y1.log[..|y.log|] == y.log;
    assert Counts(c, y1) by {
      forall x
        ensures BetterRun(c, y1.log, x) == BetterRun(c, y.log, x)
      {
      }
    }
    RoundKeeps(c, cands, y, s, Empty(now));
    CountsReports(c, y1, during);
    ReportedKeeps(s, during);
    QuietEntries(c, cands, y1, Reports(during), ReportedAll(s, during));
  }

  lemma InitialInv(c: Config, eps: seq<Endpoint>)
    ensures Inv(c, ByPriority(eps), Sys(Initial(ByPriority(eps)), []))
  {
    var cands := ByPriority(eps);
    if cands != [] {
      assert cands[0].ep.id == Initial(cands).current;
    }
  }

  // Over any run: the current relay is always a candidate; every switch to a better relay ends
  // a streak of rounds, since the switch before, that all found that relay the best and better
  // than a reachable current one by the margin; every other switch follows enough degrade
  // reports in a row or enough failed probes in a row, since the switch before; and rounds are
  // at least the interval apart.
  lemma {:induction false} RunInv(c: Config, eps: seq<Endpoint>, run: seq<Event>)
    requires c == Defaults(c) && Fits(ByPriority(eps), run)
    ensures Inv(c, ByPriority(eps), Run(c, ByPriority(eps), run))
  {
    hide Act, Inv;
    if run == [] {
      InitialInv(c, eps);
    } else {
      var n := |run| - 1;
      RunInv(c, eps, run[..n]);
      ActInv(c, ByPriority(eps), Run(c, ByPriority(eps), run[..n]), run[n]);
    }
  }

  // ---------- when rounds run, and when they switch ----------

  // A round runs exactly when every round before it is at least the interval back.
  lemma DueExactly(c: Config, cands: seq<Cand>, y: Sys, now: int)
    requires Inv(c, cands, y)
    ensures Due(c, y.state, now) <==>
      forall i :: 0 <= i < |y.log| && !y.log[i].Report? ==> now - y.log[i].now >= c.interval
  {
    hide Counts, Justified;
    if y.state.probed {
      var i :| 0 <= i < |y.log| && !y.log[i].Report? && y.log[i].now == y.state.lastProbe;
    }
  }

  // Enough degrade reports in a row, before the round or by its end, or enough failed probes.
  predicate ShouldLeave(c: Config, before: seq<Entry>, heard: seq<Entry>, cur: Rtt) {
    || DegradeRun(before) >= c.degradeStreak || DegradeRun(heard) >= c.degradeStreak
    || (!cur.ok && FailRun(heard) + 1 >= c.degradeStreak)
  }

  // Enough rounds in a row that found the same relay much better, this one included.
  predicate ShouldImprove(c: Config, heard: seq<Entry>, cur: Rtt, best: Best) {
    cur.ok && best.id != "" && cur.ms - best.ms >= c.margin && BetterRun(c, heard, best.id) + 1 >= c.switchStreak
  }

  // A decision switches exactly when the history asks for it and there is a best relay, which
  // is where it goes.
  lemma DecidesExactly(c: Config, s: State, before: seq<Entry>, heard: seq<Entry>, degraded: bool, cur: Rtt, best: Best)
    requires Counts(c, Sys(s, heard)) && (degraded <==> DegradeRun(before) >= c.degradeStreak)
    ensures var d := Decide(c, s, degraded, cur, best);
      && (d.why.Degraded? <==> best.id != "" && ShouldLeave(c, before, heard, cur))
      && (d.why.Better? <==> !ShouldLeave(c, before, heard, cur) && ShouldImprove(c, heard, cur, best))
      && d.state.current == if d.why.Stayed? then s.current else best.id
  {
    hide BetterRun, FailRun, DegradeRun;
    assert BetterRun(c, heard, best.id) == if best.id == s.betterID then s.betterStreak else 0;
  }

  // In every reachable state: a tick runs a round exactly when it is due; a round with a
  // current relay is logged with what it found, and switches to the best other relay exactly
  // when there is one and the relay is to be left or can be improved on.
  lemma SwitchesExactly(c: Config, eps: seq<Endpoint>, run: seq<Event>, now: int, rtt: Rtt, probes: seq<Rtt>, during: seq<bool>)
    requires c == Defaults(c) && Fits(ByPriority(eps), run) && |probes| == |ByPriority(eps)|
    ensures var cands := ByPriority(eps);
      var y := Run(c, cands, run);
      var z := Act(c, cands, y, Tick(now, rtt, probes, during));
      var heard := y.log + Reports(during);
      var cur, best := CurrentProbe(cands, y.state.current, rtt), BestOf(cands, y.state.current, probes, |cands|);
      var due := forall i :: 0 <= i < |y.log| && !y.log[i].Report? ==> now - y.log[i].now >= c.interval;
      && (!due ==> z.log == heard && z.state.current == y.state.current)
      && (due && y.state.current != "" ==>
            var leave, improve := ShouldLeave(c, y.log, heard, cur), ShouldImprove(c, heard, cur, best);
            var to := if best.id != "" && (leave || improve) then best.id else y.state.current;
            && z.state.current == to
            && z.log == heard + [Round(now, y.state.current, cur, best, to,
                                       if best.id != "" && leave then Degraded else if improve then Better else Stayed)])
  {
    hide Inv, Decide, BestOf, CurrentProbe, ShouldLeave, ShouldImprove, Reports, Run, Counts;
    var cands := ByPriority(eps);
    var y := Run(c, cands, run);
    RunInv(c, eps, run);
    DueExactly(c, cands, y, now);
    ReportedKeeps(y.state, during);
    if Due(c, y.state, now) && y.state.current != "" {
      var s := y.state.(probed := true, lastProbe := now);
      ReportsAlike(y.state, s, during);
      ReportedKeeps(s, during);
      CountsHeard(c, cands, y, s, during);
      DecidesExactly(c, ReportedAll(s, during), y.log, y.log + Reports(during), s.degradeCount >= c.degradeStreak,
                     CurrentProbe(cands, s.current, rtt), BestOf(cands, s.current, probes, |cands|));
      ImproveNamed(c, y.log + Reports(during), CurrentProbe(cands, s.current, rtt), BestOf(cands, s.current, probes, |cands|));
    }
  }

  lemma ImproveNamed(c: Config, heard: seq<Entry>, cur: Rtt, best: Best)
    ensures ShouldImprove(c, heard, cur, best) ==> best.id != ""
  {
  }

  lemma CountsHeard(c: Config, cands: seq<Cand>, y: Sys, s: State, during: seq<bool>)
    requires Inv(c, cands, y) && s == y.state.(probed := s.probed, lastProbe := s.lastProbe)
    ensures Counts(c, Sys(ReportedAll(s, during), y.log + Reports(during)))
    ensures s.degradeCount == DegradeRun(y.log)
  {
    hide BetterRun, FailRun, DegradeRun, Reports, Spaced, Justified;
    CountsReports(c, y, during);
    ReportsAlike(y.state, s, during);
  }

  // ---------- the selector object ----------

  class RelaySelector {
    const config: Config
    const candidates: seq<Cand>
    var current: string
    var probed: bool
    var lastProbe: int
    var betterStreak: int
    var betterID: string
    var degradeCount: int
    var primaryFail: int
    ghost var log: seq<Entry>

    ghost function Abs(): Sys
      reads this
    {
      Sys(State(current, probed, lastProbe, betterStreak, betterID, degradeCount, primaryFail), log)
    }

    constructor (config0: Config, eps: seq<Endpoint>)
      ensures config == Defaults(config0) && candidates == ByPriority(eps)
      ensures Abs() == Sys(Initial(candidates), []) && Inv(config, candidates, Abs())
    {
      InitialInv(Defaults(config0), eps);
      var cands := ByPriority(eps);
      config := Defaults(config0);
      candidates := cands;
      current := if |cands| > 0 then cands[0].ep.id else "";
      probed, lastProbe := false, 0;
      betterStreak, betterID := 0, "";
      degradeCount, primaryFail := 0, 0;
      log := [];
    }

    method ReportPrimaryDegraded()
      modifies this`degradeCount, this`log
      ensures Abs() == Act(config, candidates, old(Abs()), Told(true))
    {
      degradeCount := degradeCount + 1;
      log := log + [Report(true)];
    }

    method ReportPrimaryHealthy()
      modifies this`degradeCount, this`log
      ensures Abs() == Act(config, candidates, old(Abs()), Told(false))
    {
      degradeCount := 0;
      log := log + [Report(false)];
    }

    // The reports that come in while the round probes.
    method HearAll(reports: seq<bool>)
      modifies this`degradeCount, this`log
      ensures Abs() == Sys(ReportedAll(old(Abs()).state, reports), old(Abs()).log + Reports(reports))
    {
      for i := 0 to |reports|
        invariant Abs() == Sys(ReportedAll(old(Abs()).state, reports[..i]), old(Abs()).log + Reports(reports[..i]))
      {
        assert reports[..i + 1][..i] == reports[..i];
        if reports[i] {
          ReportPrimaryDegraded();
        } else {
          ReportPrimaryHealthy();
        }
      }
      assert reports[..|reports|] == reports;
    }

    method CandidateByID(id: string) returns (found: bool)
      ensures found <==> exists i :: 0 <= i < |candidates| && candidates[i].ep.id == id
    {
      for i := 0 to |candidates|
        invariant forall j :: 0 <= j < i ==> candidates[j].ep.id != id
      {
        if candidates[i].ep.id == id {
          return true;
        }
      }
      return false;
    }

    method FindBest(cur: string, probes: seq<Rtt>) returns (best: Best)
      requires |probes| == |candidates|
      ensures best == BestOf(candidates, cur, probes, |candidates|)
    {
      best := Best("", 0);
      for i := 0 to |candidates|
        invariant best == BestOf(candidates, cur, probes, i)
      {
        var id := candidates[i].ep.id;
        if id == cur || !probes[i].ok {
          continue;
        }
        if best.id == "" || probes[i].ms < best.ms {
          best := Best(id, probes[i].ms);
        }
      }
    }

    method SwitchLocked(newID: string)
      modifies this`current, this`betterStreak, this`betterID, this`degradeCount, this`primaryFail
      ensures Abs() == Sys(Switched(old(Abs()).state, newID), old(Abs()).log)
    {
      current := newID;
      betterStreak := 0;
      betterID := "";
      degradeCount := 0;
      primaryFail := 0;
    }

    // The second locked section.
    method DecideLocked(degraded0: bool, cur: Rtt, best: Best) returns (why: Why)
      modifies this`current, this`betterStreak, this`betterID, this`degradeCount, this`primaryFail
      ensures Decision(Abs().state, why) == Decide(config, old(Abs()).state, degraded0, cur, best)
    {
      if !cur.ok {
        primaryFail := primaryFail + 1;
      } else {
        primaryFail := 0;
      }
      var primaryUnusable := !cur.ok && primaryFail >= config.degradeStreak;
      var degraded := degraded0 || degradeCount >= config.degradeStreak;
      if (degraded || primaryUnusable) && best.id != "" {
        SwitchLocked(best.id);
        return Degraded;
      }
      if cur.ok && best.id != "" && cur.ms - best.ms >= config.margin {
        if betterID == best.id {
          betterStreak := betterStreak + 1;
        } else {
          betterID := best.id;
          betterStreak := 1;
        }
        if betterStreak >= config.switchStreak {
          SwitchLocked(best.id);
          return Better;
        }
      } else {
        betterStreak := 0;
        betterID := "";
      }
      return Stayed;
    }

    method DoTick(now: int, rtt: Rtt, probes: seq<Rtt>, during: seq<bool>) returns (ran: bool)
      requires |probes| == |candidates| && config == Defaults(config) && Inv(config, candidates, Abs())
      modifies this
      ensures Abs() == Act(config, candidates, old(Abs()), Tick(now, rtt, probes, during))
      ensures Inv(config, candidates, Abs()) && ran == Due(config, old(Abs()).state, now)
    {
      hide Inv, Decide, BestOf, Reports, ReportedAll;
      ActInv(config, candidates, Abs(), Tick(now, rtt, probes, during));
      if probed && now - lastProbe < config.interval {
        HearAll(during);
        return false;
      }
      probed := true;
      lastProbe := now;
      var cur := current;
      var degraded := degradeCount >= config.degradeStreak;
      if cur == "" {
        log := log + [Empty(now)];
        HearAll(during);
        return true;
      }
      var isCandidate := CandidateByID(cur);
      var curProbe := if isCandidate then rtt else Rtt(0, false);
      var best := FindBest(cur, probes);
      HearAll(during);
      var why := DecideLocked(degraded, curProbe, best);
      log := log + [Round(now, cur, curProbe, best, current, why)];
      return true;
    }
  }
}
