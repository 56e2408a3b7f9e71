// The damped, versioned shell around the optimiser (internal/controller/topology/service.go).
// The clock, the snapshot and the outcome of a save are inputs of a call; the assignments
// handed out are identified with the result they are built from.
module Service {
  import opened Paths
  import opened Prune
  import opened Assign
  import opened Optimizer
  import opened Incremental

  datatype Params = Params(maxPeers: int, ingressK: int, routeK: int, leafUplinks: int, probeFull: bool,
                           probeLimit: int, minInterval: int)

  // What one call finds: the time when damping is checked, the time stamped on an applied
  // result, the snapshot, and whether a save succeeds.
  datatype Env = Env(check: int, stamp: int, nodes: seq<NodeInput>, qm: Quality, saveOk: bool)

  datatype Inc = NoInc | Inc(input: Input, result: Result)

  datatype Last = NoResult | Last(result: Result)

  datatype State = State(inc: Inc, served: Last, version: nat, lastRecompute: int, hasRecomputed: bool,
                         pendingTrigger: bool, pendingEvents: seq<EdgeDelta>, lastResult: Last)

  // The state after a call, and the result it saved, if any.
  datatype Outcome = Outcome(state: State, saved: Last)

  const FRESH := State(NoInc, NoResult, 0, 0, false, false, [], NoResult)

  predicate CanRecompute(p: Params, s: State, now: int) {
    p.minInterval <= 0 || !s.hasRecomputed || now - s.lastRecompute >= p.minInterval
  }

  predicate SameContent(a: Result, b: Result) {
    a.roles == b.roles && a.neighbors == b.neighbors && a.baseline == b.baseline && a.probeSets == b.probeSets
  }

  function SnapshotInput(p: Params, version: nat, env: Env): Input {
    Input(version, env.nodes, env.qm, p.maxPeers, p.ingressK, p.routeK, p.leafUplinks, p.probeFull, p.probeLimit)
  }

  predicate Unchanged(s: State, r: Result) {
    s.lastResult.Last? && SameContent(s.lastResult.result, r)
  }

  function Drained(s: State): State {
    s.(pendingTrigger := false, pendingEvents := [])
  }

  function Applied(s: State, r: Result, env: Env): State {
    s.(served := Last(r), lastRecompute := env.stamp, hasRecomputed := true,
       version := if r.version > s.version then r.version else s.version, lastResult := Last(r))
  }

  // Events are folded into the baseline when there are some and there is a baseline.
  predicate Folds(s: State) {
    s.pendingEvents != [] && s.inc.Inc?
  }

  // The baseline a flush goes on with.
  ghost function NextInc(p: Params, s: State, env: Env): (inc: Inc)
    ensures inc.Inc?
  {
    if Folds(s) then
      Inc(NewInput(s.inc.input, s.pendingEvents, s.version + 1),
          Step(s.inc.input, s.inc.result, THRESHOLD, s.pendingEvents, s.version + 1))
    else
      var in0 := SnapshotInput(p, s.version + 1, env);
      Inc(in0, OptimizeOf(in0))
  }

  ghost function Flush(p: Params, s: State, env: Env): Outcome {
    var inc := NextInc(p, s, env);
    if Unchanged(s, inc.result) then Outcome(Drained(s.(inc := inc)), NoResult)
    else
      var s1 := s.(inc := inc, version := s.version + 1);
      if env.saveOk then Outcome(Drained(Applied(s1, inc.result, env)), Last(inc.result))
      else Outcome(s1.(inc := if Folds(s) then NoInc else inc, pendingTrigger := true), NoResult)
  }

  ghost function AfterTick(p: Params, s: State, env: Env): Outcome {
    if CanRecompute(p, s, env.check) then Flush(p, s, env) else Outcome(s.(pendingTrigger := true), NoResult)
  }

  function Queued(s: State, e: EdgeDelta): State {
    s.(pendingEvents := s.pendingEvents + [e])
  }

  ghost function AfterEvent(p: Params, s: State, e: EdgeDelta, env: Env): Outcome {
    if CanRecompute(p, s, env.check) then Flush(p, Queued(s, e), env) else Outcome(Queued(s, e), NoResult)
  }

  ghost function AfterRecompute(p: Params, s: State, version: nat, env: Env): Outcome {
    var in0 := SnapshotInput(p, version, env);
    var s1 := s.(inc := Inc(in0, OptimizeOf(in0)));
    if env.saveOk then Outcome(Applied(s1, OptimizeOf(in0), env), Last(OptimizeOf(in0))) else Outcome(s1, NoResult)
  }

  function AfterLoad(s: State, latest: Last): State {
    if latest.NoResult? then s
    else s.(served := latest, lastResult := latest,
            version := if latest.result.version > s.version then latest.result.version else s.version)
  }

  // ---------- runs ----------

  datatype Call = Tick(env: Env) | OnEvent(event: EdgeDelta, env: Env) | Load(ok: bool) | Recompute(version: nat, env: Env)

  // The service with its store, which keeps one result a version, and the history of the run:
  // results saved, times of the results applied, events received, how many of them have left
  // the queue, and for the baseline the quality of the snapshot it started from, how many
  // events had been received by then, and from which event on events were folded into it;
  // and whether the last flush had a result it could not save.
  datatype Sys = Sys(state: State, store: map<nat, Result>, saved: seq<Result>, stamps: seq<int>,
                     received: seq<EdgeDelta>, drained: nat, base: Quality, taken: nat, from: nat, unsaved: bool)

  ghost predicate IsLatest(store: map<nat, Result>, v: nat) {
    v in store && forall w :: w in store ==> w <= v
  }

  lemma LatestExists(store: map<nat, Result>)
    requires store != map[]
    ensures exists v :: IsLatest(store, v)
  {
    var v :| v in store;
    var v1 := LeastAbove(store, v);
  }

  lemma {:induction false} LeastAbove(store: map<nat, Result>, v: nat) returns (m: nat)
    requires v in store
    ensures IsLatest(store, m)
    decreases |store|
  {
    var rest := store - {v};
    if rest == map[] {
      assert forall w :: w in store && w != v ==> w in rest;
      m := v;
    } else {
      var u :| u in rest;
      var n := LeastAbove(rest, u);
      assert forall w :: w in store && w != v ==> w in rest;
      m := if n > v then n else v;
    }
  }

  ghost function Latest(store: map<nat, Result>): (l: Last)
    ensures l.NoResult? <==> store == map[]
    ensures l.Last? ==> exists v :: IsLatest(store, v) && l == Last(store[v])
  {
    if store == map[] then NoResult
    else
      LatestExists(store);
      var v :| IsLatest(store, v);
      Last(store[v])
  }

  function Fresh(store: map<nat, Result>): Sys {
    Sys(FRESH, store, [], [], [], 0, map[], 0, 0, false)
  }

  function Saved(y: Sys, saved: Last, stamp: int): Sys {
    if saved.NoResult? then y
    else y.(store := y.store[saved.result.version := saved.result], saved := y.saved + [saved.result], stamps := y.stamps + [stamp])
  }

  // A call that took a snapshot starts the baseline anew.
  function Retaken(y: Sys, env: Env): Sys {
    y.(base := env.qm, taken := |y.received|, from := y.drained)
  }

  function Settle(y: Sys, s: State): Sys {
    y.(state := s, drained := if |s.pendingEvents| <= |y.received| then |y.received| - |s.pendingEvents| else 0)
  }

  ghost function Flushed(p: Params, y: Sys, env: Env): Sys {
    var o := Flush(p, y.state, env);
    var y1 := Saved(Settle(y, o.state), o.saved, env.stamp).(unsaved := o.state.pendingTrigger);
    if Folds(y.state) then y1 else Retaken(y1, env)
  }

  ghost function Act(p: Params, y: Sys, c: Call): Sys {
    match c
    case Tick(env) =>
      if CanRecompute(p, y.state, env.check) then Flushed(p, y, env)
      else y.(state := y.state.(pendingTrigger := true))
    case OnEvent(e, env) =>
      var y1 := y.(state := Queued(y.state, e), received := y.received + [e]);
      if CanRecompute(p, y.state, env.check) then Flushed(p, y1, env) else y1
    case Load(ok) =>
      if ok then y.(state := AfterLoad(y.state, Latest(y.store))) else y
    case Recompute(v, env) =>
      var o := AfterRecompute(p, y.state, v, env);
      Retaken(Saved(y.(state := o.state, unsaved := !env.saveOk), o.saved, env.stamp), env)
  }

  ghost predicate FlushedTo(p: Params, y: Sys, env: Env, inc: Inc, z: Sys)
    requires inc.Inc?
  {
    if Unchanged(y.state, inc.result) then
      z.state == Drained(y.state.(inc := inc)) && z.store == y.store && z.saved == y.saved && z.stamps == y.stamps && !z.unsaved
    else if env.saveOk then
      && z.state == Drained(Applied(y.state.(inc := inc, version := y.state.version + 1), inc.result, env))
      && z.store == y.store[inc.result.version := inc.result] && z.saved == y.saved + [inc.result]
      && z.stamps == y.stamps + [env.stamp] && !z.unsaved
    else
      && z.state == y.state.(inc := if Folds(y.state) then NoInc else inc, version := y.state.version + 1, pendingTrigger := true)
      && z.store == y.store && z.saved == y.saved && z.stamps == y.stamps && z.unsaved
  }

  // The three ways a flush ends.
  lemma FlushEnds(p: Params, y: Sys, env: Env)
    ensures FlushedTo(p, y, env, NextInc(p, y.state, env), Flushed(p, y, env))
  {
    hide NextInc;
  }

  // The state a call leaves and what it saves, as the methods of the object give them.
  ghost function OutcomeOf(p: Params, y: Sys, c: Call): Outcome {
    match c
    case Tick(env) => AfterTick(p, y.state, env)
    case OnEvent(e, env) => AfterEvent(p, y.state, e, env)
    case Load(ok) => Outcome(if ok then AfterLoad(y.state, Latest(y.store)) else y.state, NoResult)
    case Recompute(v, env) => AfterRecompute(p, y.state, v, env)
  }

  // A step of a run is a call of the object: the state it leaves, the row it writes into the
  // store, what it adds to the history of saved results and the time it stamps on them.
  lemma ActIsCall(p: Params, y: Sys, c: Call)
    ensures var o, z := OutcomeOf(p, y, c), Act(p, y, c);
      && z.state == o.state
      && z.store == (if o.saved.Last? then y.store[o.saved.result.version := o.saved.result] else y.store)
      && z.saved == y.saved + (if o.saved.Last? then [o.saved.result] else [])
      && z.stamps == y.stamps + (if o.saved.Last? then [c.env.stamp] else [])
      && z.received == y.received + (if c.OnEvent? then [c.event] else [])
      && (o.saved.Last? ==> !c.Load? && o.state.lastResult == o.saved && o.state.lastRecompute == c.env.stamp)
  {
    hide NextInc, OptimizeOf, Latest;
    match c
    case Tick(env) => FlushIsOutcome(p, y, env);
    case OnEvent(e, env) => FlushIsOutcome(p, y.(state := Queued(y.state, e), received := y.received + [e]), env);
    case Load(ok) =>
    case Recompute(v, env) =>
  }

  lemma FlushIsOutcome(p: Params, y: Sys, env: Env)
    ensures var o, z := Flush(p, y.state, env), Flushed(p, y, env);
      && z.state == o.state && z.received == y.received
      && z.store == (if o.saved.Last? then y.store[o.saved.result.version := o.saved.result] else y.store)
      && z.saved == y.saved + (if o.saved.Last? then [o.saved.result] else [])
      && z.stamps == y.stamps + (if o.saved.Last? then [env.stamp] else [])
      && (o.saved.Last? ==> o.state.lastResult == o.saved && o.state.lastRecompute == env.stamp)
  {
    hide NextInc;
  }

  ghost function Run(p: Params, y: Sys, calls: seq<Call>): Sys {
    if calls == [] then y else Act(p, Run(p, y, calls[..|calls| - 1]), calls[|calls| - 1])
  }

  // The program's own calls: explicit versions are given by tests only.
  predicate Routine(calls: seq<Call>) {
    forall i :: 0 <= i < |calls| ==> !calls[i].Recompute?
  }

  // ---------- versions ----------

  ghost predicate Keyed(store: map<nat, Result>) {
    forall v :: v in store ==> store[v].version == v
  }

  // The store knows no version beyond the counter, and its latest result is the one served.
  ghost predicate Stored(y: Sys) {
    && Keyed(y.store)
    && (forall v :: v in y.store ==> v <= y.state.version)
    && y.state.served == y.state.lastResult == Latest(y.store)
  }

  ghost predicate Increasing(saved: seq<Result>) {
    forall i, j :: 0 <= i < j < |saved| ==> saved[i].version < saved[j].version
  }

  ghost predicate Versions(y: Sys) {
    Increasing(y.saved) && forall r :: r in y.saved ==> r.version <= y.state.version && r.version in y.store
  }

  lemma SavedIsLatest(store: map<nat, Result>, r: Result)
    requires forall v :: v in store ==> v < r.version
    ensures Latest(store[r.version := r]) == Last(r)
  {
    var t := store[r.version := r];
    assert r.version in t;
    var v :| IsLatest(t, v) && Latest(t) == Last(t[v]);
  }

  lemma OptimizedVersion(p: Params, s: State, env: Env)
    ensures NextInc(p, s, env).result.version == s.version + 1
  {
  }

  // A routine call saves nothing, or a result with a version beyond all stored ones.
  lemma ActVersions(p: Params, y: Sys, c: Call)
    requires Stored(y) && Versions(y) && !c.Recompute?
    ensures Stored(Act(p, y, c)) && Versions(Act(p, y, c))
    ensures y.saved <= Act(p, y, c).saved
    ensures forall r :: r in Act(p, y, c).saved[|y.saved|..] ==> forall v :: v in y.store ==> v < r.version
  {
    match c
    case Tick(env) =>
      if CanRecompute(p, y.state, env.check) {
        FlushVersions(p, y, env);
      }
    case OnEvent(e, env) =>
      var y1 := y.(state := Queued(y.state, e), received := y.received + [e]);
      if CanRecompute(p, y.state, env.check) {
        FlushVersions(p, y1, env);
      }
    case Load(ok) =>
  }

  lemma FlushVersions(p: Params, y: Sys, env: Env)
    requires Stored(y) && Versions(y)
    ensures Stored(Flushed(p, y, env)) && Versions(Flushed(p, y, env))
    ensures y.saved <= Flushed(p, y, env).saved
    ensures forall r :: r in Flushed(p, y, env).saved[|y.saved|..] ==> forall v :: v in y.store ==> v < r.version
  {
    hide NextInc, Stored, Versions, Folds, Latest, Flushed;
    OptimizedVersion(p, y.state, env);
    FlushEnds(p, y, env);
    var inc, z := NextInc(p, y.state, env), Flushed(p, y, env);
    if !Unchanged(y.state, inc.result) && env.saveOk {
      SaveVersions(y, z, inc.result);
    } else {
      QuietVersions(y, z);
    }
  }

  lemma QuietVersions(y: Sys, z: Sys)
    requires Stored(y) && Versions(y)
    requires z.store == y.store && z.saved == y.saved && z.state.version >= y.state.version
    requires z.state.served == y.state.served && z.state.lastResult == y.state.lastResult
    ensures Stored(z) && Versions(z) && z.saved[|y.saved|..] == []
  {
    hide Latest;
  }

  lemma SaveVersions(y: Sys, z: Sys, r: Result)
    requires Stored(y) && Versions(y)
    requires z.store == y.store[r.version := r] && z.saved == y.saved + [r]
    requires r.version == z.state.version > y.state.version
    requires z.state.served == z.state.lastResult == Last(r)
    ensures Stored(z) && Versions(z) && z.saved[|y.saved|..] == [r]
    ensures forall v :: v in y.store ==> v < r.version
  {
    SavedIsLatest(y.store, r);
    hide Latest;
    forall i, j | 0 <= i < j < |z.saved|
      ensures z.saved[i].version < z.saved[j].version
    {
      assert y.saved[i] in y.saved;
    }
  }

  lemma {:induction false} RunVersions(p: Params, y: Sys, calls: seq<Call>)
    requires Stored(y) && Versions(y) && Routine(calls)
    ensures Stored(Run(p, y, calls)) && Versions(Run(p, y, calls))
  {
    if calls != [] {
      var n := |calls| - 1;
      RunVersions(p, y, calls[..n]);
      ActVersions(p, Run(p, y, calls[..n]), calls[n]);
    }
  }

  // Once loaded at start, whatever was stored: saved versions strictly increase and lie beyond
  // the stored ones, and what is served is always the latest stored result.
  lemma LoadedRun(p: Params, store: map<nat, Result>, calls: seq<Call>)
    requires Keyed(store) && Routine(calls)
    ensures var y := Run(p, Act(p, Fresh(store), Load(true)), calls);
            && Increasing(y.saved) && y.state.served == Latest(y.store)
            && forall r :: r in y.saved ==> forall v :: v in store ==> v < r.version
  {
    var y0 := Act(p, Fresh(store), Load(true));
    RunVersions(p, y0, calls);
    RunBeyond(p, y0, calls);
  }

  lemma {:induction false} RunBeyond(p: Params, y: Sys, calls: seq<Call>)
    requires Stored(y) && Versions(y) && Routine(calls) && y.saved == []
    ensures y.store.Keys <= Run(p, y, calls).store.Keys
    ensures forall r :: r in Run(p, y, calls).saved ==> forall v :: v in y.store ==> v < r.version
  {
    hide Act, Stored, Versions;
    if calls != [] {
      var n := |calls| - 1;
      RunBeyond(p, y, calls[..n]);
      RunVersions(p, y, calls[..n]);
      var y1 := Run(p, y, calls[..n]);
      var y2 := Act(p, y1, calls[n]);
      ActVersions(p, y1, calls[n]);
      StoreGrows(p, y1, calls[n]);
      assert y2.saved == y1.saved + y2.saved[|y1.saved|..];
    }
  }

  lemma StoreGrows(p: Params, y: Sys, c: Call)
    ensures y.store.Keys <= Act(p, y, c).store.Keys
  {
    hide Flushed, NextInc, OptimizeOf;
    if !c.Load? {
      FlushEnds(p, y, c.env);
      if c.OnEvent? {
        FlushEnds(p, y.(state := Queued(y.state, c.event), received := y.received + [c.event]), c.env);
      }
    }
  }

  // ---------- damping ----------

  ghost predicate Spaced(p: Params, stamps: seq<int>) {
    p.minInterval > 0 ==> forall i, j :: 0 <= i && j == i + 1 && j < |stamps| ==> stamps[j] - stamps[i] >= p.minInterval
  }

  ghost predicate Timed(p: Params, y: Sys) {
    && (y.state.hasRecomputed <==> y.stamps != [])
    && (y.stamps != [] ==> y.state.lastRecompute == y.stamps[|y.stamps| - 1])
    && Spaced(p, y.stamps)
  }

  predicate Forward(c: Call) {
    !c.Load? ==> c.env.check <= c.env.stamp
  }

  lemma ActTimed(p: Params, y: Sys, c: Call)
    requires Timed(p, y) && !c.Recompute? && Forward(c)
    ensures Timed(p, Act(p, y, c))
  {
    hide NextInc, Latest;
    match c
    case Tick(env) =>
      if CanRecompute(p, y.state, env.check) {
        FlushTimed(p, y, env);
      }
    case OnEvent(e, env) =>
      if CanRecompute(p, y.state, env.check) {
        FlushTimed(p, y.(state := Queued(y.state, e), received := y.received + [e]), env);
      }
    case Load(ok) =>
  }

  lemma FlushTimed(p: Params, y: Sys, env: Env)
    requires Timed(p, y) && CanRecompute(p, y.state, env.check) && env.check <= env.stamp
    ensures Timed(p, Flushed(p, y, env))
  {
    hide NextInc, Flushed;
    FlushEnds(p, y, env);
  }

  // Successful applies are at least the minimum interval apart, as long as the clock does not
  // go backwards within a call.
  lemma {:induction false} RunTimed(p: Params, store: map<nat, Result>, calls: seq<Call>)
    requires Routine(calls) && forall i :: 0 <= i < |calls| ==> Forward(calls[i])
    ensures Timed(p, Run(p, Fresh(store), calls))
  {
    hide Act;
    if calls != [] {
      var n := |calls| - 1;
      RunTimed(p, store, calls[..n]);
      ActTimed(p, Run(p, Fresh(store), calls[..n]), calls[n]);
    }
  }

  // ---------- when a call saves, and what ----------

  // When a result was applied last.
  ghost predicate Stamped(y: Sys) {
    && (y.state.hasRecomputed <==> y.stamps != [])
    && (y.stamps != [] ==> y.state.lastRecompute == y.stamps[|y.stamps| - 1])
  }

  lemma FlushStamped(p: Params, y: Sys, env: Env)
    requires Stamped(y)
    ensures Stamped(Flushed(p, y, env))
  {
    hide NextInc, Flushed;
    FlushEnds(p, y, env);
  }

  lemma ActStamped(p: Params, y: Sys, c: Call)
    requires Stamped(y)
    ensures Stamped(Act(p, y, c))
  {
    hide NextInc, Latest, Flushed, OptimizeOf;
    match c
    case Tick(env) => FlushStamped(p, y, env);
    case OnEvent(e, env) => FlushStamped(p, y.(state := Queued(y.state, e), received := y.received + [e]), env);
    case Load(ok) =>
    case Recompute(v, env) =>
  }

  lemma {:induction false} RunStamped(p: Params, store: map<nat, Result>, calls: seq<Call>)
    ensures Stamped(Run(p, Fresh(store), calls))
  {
    hide Act;
    if calls != [] {
      var n := |calls| - 1;
      RunStamped(p, store, calls[..n]);
      ActStamped(p, Run(p, Fresh(store), calls[..n]), calls[n]);
    }
  }

  // Nothing was applied for the interval.
  ghost predicate Rested(p: Params, y: Sys, now: int) {
    p.minInterval <= 0 || y.stamps == [] || now - y.stamps[|y.stamps| - 1] >= p.minInterval
  }

  // The next result: the queued events folded into the baseline, if there are both, and
  // otherwise a full recompute of the snapshot under the configured caps.
  ghost function NextResultOf(p: Params, y: Sys, events: seq<EdgeDelta>, env: Env): Result {
    if events != [] && y.state.inc.Inc? then Step(y.state.inc.input, y.state.inc.result, 0.20, events, y.state.version + 1)
    else OptimizeOf(Input(version := y.state.version + 1, nodes := env.nodes, quality := env.qm, maxPeers := p.maxPeers,
                          ingressK := p.ingressK, routeK := p.routeK, leafUplinks := p.leafUplinks,
                          probeFull := p.probeFull, probeLimit := p.probeLimit))
  }

  // Some part of the topology is not what was applied last.
  ghost predicate News(last: Last, r: Result) {
    last.NoResult? || last.result.roles != r.roles || last.result.neighbors != r.neighbors
    || last.result.baseline != r.baseline || last.result.probeSets != r.probeSets
  }

  // In every reachable state: a tick or an event within the interval only queues; past it the
  // next result is worked out, and saved, served and counted exactly when it is news and the
  // store takes it; the queue empties unless a save failed.
  lemma CallSaves(p: Params, store: map<nat, Result>, calls: seq<Call>, c: Call)
    requires c.Tick? || c.OnEvent?
    ensures var y := Run(p, Fresh(store), calls);
            var z, events, r := Act(p, y, c), Pending(y, c), NextResultOf(p, y, Pending(y, c), c.env);
            if !Rested(p, y, c.env.check) then
              && z.saved == y.saved && z.store == y.store && z.state.pendingEvents == events
              && z.state.inc == y.state.inc && z.state.served == y.state.served && z.state.version == y.state.version
            else if !News(y.state.lastResult, r) then
              && z.saved == y.saved && z.store == y.store && z.state.pendingEvents == [] && z.state.version == y.state.version
              && z.state.inc.Inc? && z.state.inc.result == r
            else if !c.env.saveOk then
              z.saved == y.saved && z.store == y.store && z.state.pendingEvents == events && z.state.served == y.state.served
            else
              && z.saved == y.saved + [r] && z.store == y.store[r.version := r] && z.state.pendingEvents == []
              && z.state.served == Last(r) && z.state.version == r.version == y.state.version + 1
              && z.state.inc.Inc? && z.state.inc.result == r
  {
    hide Run, OptimizeOf, Step, Flushed, NextInc;
    RunStamped(p, store, calls);
    var y := Run(p, Fresh(store), calls);
    var y1 := if c.OnEvent? then y.(state := Queued(y.state, c.event), received := y.received + [c.event]) else y;
    FlushEnds(p, y1, c.env);
    OptimizedVersion(p, y1.state, c.env);
    NextIncResult(p, y1, c.env);
  }

  lemma NextIncResult(p: Params, y: Sys, env: Env)
    ensures NextInc(p, y.state, env).result == NextResultOf(p, y, y.state.pendingEvents, env)
  {
    hide OptimizeOf, Step;
  }

  // ---------- events ----------

  ghost predicate Queue(y: Sys) {
    y.drained <= |y.received| && y.state.pendingEvents == y.received[y.drained..]
  }

  // The baseline's quality is a snapshot's with the events from some point on folded in, up
  // to those that left the queue; the events before that point arrived before the snapshot.
  ghost predicate Based(y: Sys) {
    y.state.inc.Inc? ==>
      && y.from <= y.drained <= |y.received| && y.from <= y.taken <= |y.received|
      && y.state.inc.input.quality == ApplyEvents(y.base, y.received[y.from..y.drained])
  }

  // Events that arrived before the snapshot are still queued, to be folded in after it.
  predicate Stale(y: Sys) {
    y.state.inc.Inc? && y.from < y.taken
  }

  lemma {:induction false} ApplyMore(qm: Quality, a: seq<EdgeDelta>, b: seq<EdgeDelta>)
    ensures ApplyEvents(qm, a + b) == ApplyEvents(ApplyEvents(qm, a), b)
  {
    if b == [] {
      assert a + b == a;
    } else {
      var n := |b| - 1;
      ApplyMore(qm, a, b[..n]);
      assert (a + b)[..|a + b| - 1] == a + b[..n];
    }
  }

  // The history beside a flush.
  lemma FlushHistory(p: Params, y: Sys, env: Env)
    requires Queue(y)
    ensures var z := Flushed(p, y, env);
            && z.received == y.received
            && z.drained == (if z.state.pendingEvents == [] then |y.received| else y.drained)
            && (z.state.pendingEvents == [] || z.state.pendingEvents == y.state.pendingEvents)
            && (if Folds(y.state) then z.base == y.base && z.taken == y.taken && z.from == y.from
                else z.base == env.qm && z.taken == |y.received| && z.from == z.drained)
  {
    hide NextInc, Unchanged, Folds;
  }

  lemma NextIncInput(p: Params, s: State, env: Env)
    ensures NextInc(p, s, env).input.quality == if Folds(s) then ApplyEvents(s.inc.input.quality, s.pendingEvents) else env.qm
  {
    hide Step, OptimizeOf;
  }

  lemma FlushEvents(p: Params, y: Sys, env: Env)
    requires Queue(y) && Based(y)
    ensures Queue(Flushed(p, y, env)) && Based(Flushed(p, y, env))
    ensures Flushed(p, y, env).drained > y.drained ==> Flushed(p, y, env).state.inc.Inc?
    ensures !Folds(y.state) ==> (Stale(Flushed(p, y, env)) <==>
              y.state.pendingEvents != [] && !Unchanged(y.state, NextInc(p, y.state, env).result) && !env.saveOk)
    ensures Folds(y.state) && Stale(Flushed(p, y, env)) ==> Stale(y)
  {
    hide Flushed, NextInc, Unchanged, ApplyEvents;
    FlushEnds(p, y, env);
    FlushHistory(p, y, env);
    NextIncInput(p, y.state, env);
    if Folds(y.state) {
      FoldedOn(y.base, y.received, y.from, y.drained);
    } else {
      NothingFolded(env.qm, y.received, |y.received|);
      NothingFolded(env.qm, y.received, y.drained);
    }
  }

  lemma FoldedOn(base: Quality, received: seq<EdgeDelta>, from: nat, drained: nat)
    requires from <= drained <= |received|
    ensures ApplyEvents(ApplyEvents(base, received[from..drained]), received[drained..]) ==
      ApplyEvents(base, received[from..|received|])
  {
    hide ApplyEvents;
    ApplyMore(base, received[from..drained], received[drained..]);
    assert received[from..drained] + received[drained..] == received[from..|received|];
  }

  lemma NothingFolded(qm: Quality, received: seq<EdgeDelta>, i: nat)
    requires i <= |received|
    ensures ApplyEvents(qm, received[i..i]) == qm
  {
    assert received[i..i] == [];
  }

  // An event leaves the queue only into the baseline, or into a snapshot taken after it
  // arrived.
  lemma ActEvents(p: Params, y: Sys, c: Call)
    requires Queue(y) && Based(y)
    ensures Queue(Act(p, y, c)) && Based(Act(p, y, c)) && y.received <= Act(p, y, c).received
    ensures y.drained <= Act(p, y, c).drained
    ensures Act(p, y, c).drained > y.drained ==> Act(p, y, c).state.inc.Inc?
  {
    hide Flushed, NextInc, OptimizeOf;
    match c
    case Tick(env) =>
      FlushEvents(p, y, env);
      FlushKeeps(p, y, env);
    case OnEvent(e, env) =>
      var y1 := y.(state := Queued(y.state, e), received := y.received + [e]);
      QueuedEvents(y, e);
      FlushEvents(p, y1, env);
      FlushKeeps(p, y1, env);
    case Load(ok) =>
    case Recompute(v, env) =>
      assert y.received[y.drained..y.drained] == [];
      RecomputeInput(p, y.state, v, env);
  }

  lemma RecomputeInput(p: Params, s: State, v: nat, env: Env)
    ensures var t := AfterRecompute(p, s, v, env).state;
            t.inc.Inc? && t.inc.input.quality == env.qm && t.pendingEvents == s.pendingEvents
  {
  }

  lemma QueuedEvents(y: Sys, e: EdgeDelta)
    requires Queue(y) && Based(y)
    ensures var y1 := y.(state := Queued(y.state, e), received := y.received + [e]); Queue(y1) && Based(y1)
  {
    var r := y.received + [e];
    assert r[y.drained..] == y.received[y.drained..] + [e];
    if y.state.inc.Inc? {
      assert r[y.from..y.drained] == y.received[y.from..y.drained];
    }
  }

  lemma FlushKeeps(p: Params, y: Sys, env: Env)
    requires Queue(y)
    ensures Flushed(p, y, env).received == y.received && Flushed(p, y, env).drained >= y.drained
  {
    hide NextInc;
  }

  lemma {:induction false} RunEvents(p: Params, store: map<nat, Result>, calls: seq<Call>)
    ensures Queue(Run(p, Fresh(store), calls)) && Based(Run(p, Fresh(store), calls))
  {
    hide Act;
    if calls != [] {
      var n := |calls| - 1;
      RunEvents(p, store, calls[..n]);
      ActEvents(p, Run(p, Fresh(store), calls[..n]), calls[n]);
    }
  }

  predicate Flushes(p: Params, y: Sys, c: Call) {
    (c.Tick? || c.OnEvent?) && CanRecompute(p, y.state, c.env.check)
  }

  function Pending(y: Sys, c: Call): seq<EdgeDelta> {
    if c.OnEvent? then y.state.pendingEvents + [c.event] else y.state.pendingEvents
  }

  // Exactly when events older than the snapshot stay queued beside the baseline taken from
  // it: a full recompute with events queued whose changed result cannot be saved, or an
  // explicit recompute with events queued. The next flush folds them into the newer snapshot.
  lemma StaleExactly(p: Params, y: Sys, c: Call)
    requires Queue(y) && Based(y) && !Stale(y)
    ensures Stale(Act(p, y, c)) <==>
      || (c.Recompute? && y.state.pendingEvents != [])
      || (Flushes(p, y, c) && y.state.inc.NoInc? && Pending(y, c) != [] && !c.env.saveOk &&
          !Unchanged(y.state, NextInc(p, y.state, c.env).result))
  {
    hide Flushed, NextInc, OptimizeOf;
    match c
    case Tick(env) =>
      FlushEvents(p, y, env);
    case OnEvent(e, env) =>
      var y1 := y.(state := Queued(y.state, e), received := y.received + [e]);
      QueuedEvents(y, e);
      FlushEvents(p, y1, env);
      if y.state.inc.NoInc? {
        SameSnapshot(p, y.state, e, env);
      }
    case Load(ok) =>
    case Recompute(v, env) =>
      RecomputeInput(p, y.state, v, env);
  }

  lemma SameSnapshot(p: Params, s: State, e: EdgeDelta, env: Env)
    requires s.inc.NoInc?
    ensures NextInc(p, Queued(s, e), env) == NextInc(p, s, env)
  {
  }

  // A down event, then a snapshot that measures the edge again, then a failed save: the next
  // tick deletes the measurement although no event came after it.
  lemma StaleReplay(p: Params, k: QKey, nodes: seq<NodeInput>)
    ensures var down := EdgeDelta(k.src, k.dst, k.ingress, Down, 0);
            var y := Run(p, Fresh(map[]), [OnEvent(down, Env(0, 0, nodes, map[k := 5], false)),
                                          Tick(Env(1, 1, nodes, map[k := 5], true))]);
            && y.taken == |y.received| == 1 && y.base == map[k := 5]
            && y.state.inc.Inc? && y.state.inc.input.quality == map[]
  {
    hide OptimizeOf, Step, Latest;
    var down := EdgeDelta(k.src, k.dst, k.ingress, Down, 0);
    var e1, e2 := Env(0, 0, nodes, map[k := 5], false), Env(1, 1, nodes, map[k := 5], true);
    var calls := [OnEvent(down, e1), Tick(e2)];
    assert calls[..1] == [OnEvent(down, e1)] && calls[..1][..0] == [];
    var y1 := Act(p, Fresh(map[]), OnEvent(down, e1));
    assert Run(p, Fresh(map[]), calls[..1]) == y1;
    assert y1.state.inc.Inc? && y1.state.pendingEvents == [down] && !y1.state.hasRecomputed;
    assert ApplyEvents(map[k := 5], [down]) == map[] by {
      assert [down][..0] == [];
    }
  }

  // ---------- what is served ----------

  // The snapshot and the event of a call measure nothing above the default weight.
  ghost predicate CallOk(c: Call) {
    && (!c.Load? ==> NodesSound(c.env.nodes) && Within(c.env.qm, DEFAULT_W))
    && (c.OnEvent? ==> EventsWithin([c.event], DEFAULT_W))
  }

  ghost predicate IncOk(inc: Inc) {
    inc.Inc? ==> NodesSound(inc.input.nodes) && Within(inc.input.quality, DEFAULT_W) && Agrees(inc.input, inc.result)
  }

  // The baseline agrees with a full recompute, and so does what was applied last, unless it
  // could not be saved.
  ghost predicate Current(y: Sys) {
    IncOk(y.state.inc) && EventsWithin(y.state.pendingEvents, DEFAULT_W) && (y.state.inc.Inc? && !y.unsaved ==> Unchanged(y.state, y.state.inc.result))
  }

  lemma NextIncOk(p: Params, s: State, env: Env)
    requires IncOk(s.inc) && EventsWithin(s.pendingEvents, DEFAULT_W)
    requires NodesSound(env.nodes) && Within(env.qm, DEFAULT_W)
    ensures IncOk(NextInc(p, s, env))
  {
    hide InputOk, Agrees, Step, OptimizeOf, NodesSound, Within, EventsWithin, HiddenDrop;
    if Folds(s) {
      ModestInputOk(s.inc.input);
      WithinStays(s.inc.input.quality, s.pendingEvents, DEFAULT_W);
      ModestInputOk(NewInput(s.inc.input, s.pendingEvents, s.version + 1));
      NoHiddenDrop(s.inc.input.quality, s.pendingEvents);
      StepAgrees(s.inc.input, s.inc.result, THRESHOLD, s.pendingEvents, s.version + 1);
    } else {
      ModestInputOk(SnapshotInput(p, s.version + 1, env));
      FullAgrees(SnapshotInput(p, s.version + 1, env));
    }
  }

  lemma FlushCurrent(p: Params, y: Sys, env: Env)
    requires Current(y) && NodesSound(env.nodes) && Within(env.qm, DEFAULT_W)
    ensures Current(Flushed(p, y, env))
  {
    hide NextInc, IncOk, NodesSound, Flushed, Within;
    NextIncOk(p, y.state, env);
    NoIncOk();
    FlushEnds(p, y, env);
  }

  lemma NoIncOk()
    ensures IncOk(NoInc)
  {
  }

  lemma ActCurrent(p: Params, y: Sys, c: Call)
    requires Current(y) && Stored(y) && !c.Recompute? && CallOk(c)
    ensures Current(Act(p, y, c))
  {
    hide Flushed, IncOk, NodesSound, Within, Latest;
    match c
    case Tick(env) =>
      if CanRecompute(p, y.state, env.check) {
        FlushCurrent(p, y, env);
      }
    case OnEvent(e, env) =>
      var y1 := y.(state := Queued(y.state, e), received := y.received + [e]);
      if CanRecompute(p, y.state, env.check) {
        FlushCurrent(p, y1, env);
      }
    case Load(ok) =>
  }

  ghost predicate Admitted(calls: seq<Call>) {
    forall i :: 0 <= i < |calls| ==> CallOk(calls[i])
  }

  lemma {:induction false} RunCurrent(p: Params, y: Sys, calls: seq<Call>)
    requires Current(y) && Stored(y) && Versions(y) && Routine(calls) && Admitted(calls)
    ensures Current(Run(p, y, calls))
  {
    hide Act, CallOk, Stored, Versions, Current;
    if calls != [] {
      var n := |calls| - 1;
      RunCurrent(p, y, calls[..n]);
      RunVersions(p, y, calls[..n]);
      ActCurrent(p, Run(p, y, calls[..n]), calls[n]);
    }
  }

  lemma AgreesAnyVersion(in0: Input, r: Result, r1: Result)
    requires Agrees(in0, r) && SameContent(r, r1)
    ensures Agrees(in0.(version := r1.version), r1)
  {
    var in1 := in0.(version := r1.version);
    SameRoutes(in0, in1);
    assert RolesOf(in1) == RolesOf(in0) && NeighborsIn(in1) == NeighborsIn(in0) && ProbesIn(in1) == ProbesIn(in0);
    forall p | p in r1.baseline
      ensures ValidRoutes(in1, p.src, p.dst, r1.baseline[p])
    {
      assert ValidRoutes(in0, p.src, p.dst, r.baseline[p]);
    }
  }

  lemma SameRoutes(in0: Input, in1: Input)
    requires in1 == in0.(version := in1.version)
    ensures Connected(in1) == Connected(in0) && ArcsIn(in1) == ArcsIn(in0)
  {
    assert GraphIn(in0) == GraphIn(in1);
    forall a, b
      ensures PathsFor(in1, a, b) == PathsFor(in0, a, b)
    {
    }
  }

  // After any run on sound nodes and measured weights within the default, what is served has the roles,
  // neighbours and probe sets of a full recompute of the baseline's input, and a valid list
  // of K shortest routes for each of its pairs, unless the last result could not be saved.
  lemma ServedAgrees(p: Params, store: map<nat, Result>, calls: seq<Call>)
    requires Keyed(store) && Routine(calls) && Admitted(calls)
    ensures var y := Run(p, Act(p, Fresh(store), Load(true)), calls);
            y.state.inc.Inc? && !y.unsaved ==>
              && y.state.served.Last?
              && Agrees(y.state.inc.input.(version := y.state.served.result.version), y.state.served.result)
  {
    var y0 := Act(p, Fresh(store), Load(true));
    NoIncOk();
    hide Agrees, NodesSound, Within, IncOk;
    RunCurrent(p, y0, calls);
    RunVersions(p, y0, calls);
    hide Run;
    var y := Run(p, y0, calls);
    if y.state.inc.Inc? && !y.unsaved {
      IncAgrees(y.state.inc);
      AgreesAnyVersion(y.state.inc.input, y.state.inc.result, y.state.served.result);
    }
  }

  lemma IncAgrees(inc: Inc)
    requires IncOk(inc) && inc.Inc?
    ensures Agrees(inc.input, inc.result)
  {
  }

  // ---------- explicit versions, and starting without loading ----------

  // A caller's own version keeps the served result the latest stored one exactly when no
  // stored version lies beyond it.
  lemma RecomputeIsLatest(p: Params, y: Sys, version: nat, env: Env)
    requires Stored(y) && env.saveOk
    ensures var z := Act(p, y, Recompute(version, env));
            z.state.served == Latest(z.store) <==> forall w :: w in y.store ==> w <= version
  {
    LatestAfter(y.store, OptimizeOf(SnapshotInput(p, version, env)));
    hide Latest;
  }

  lemma LatestKey(t: map<nat, Result>) returns (v: nat)
    requires t != map[]
    ensures IsLatest(t, v) && Latest(t) == Last(t[v])
  {
    assert Latest(t).Last?;
    v :| IsLatest(t, v) && Latest(t) == Last(t[v]);
  }

  lemma LatestAfter(store: map<nat, Result>, r: Result)
    requires Keyed(store)
    ensures Latest(store[r.version := r]) == Last(r) <==> forall w :: w in store ==> w <= r.version
  {
    var t := store[r.version := r];
    assert r.version in t && t[r.version] == r;
    var v := LatestKey(t);
    if w: nat :| w in store && w > r.version {
      assert w in t;
      assert v != r.version && t[v].version == v;
    }
  }

  lemma RunOne(p: Params, y: Sys, c: Call)
    ensures Run(p, y, [c]) == Act(p, y, c)
  {
    assert [c][..0] == [];
    assert Run(p, y, []) == y;
  }

  // If the stored result could not be loaded, the counter starts over and a later load finds
  // the old result, not the one saved.
  lemma UnloadedStart(p: Params, r: Result, env: Env)
    requires r.version > 1 && env.saveOk
    ensures var y := Run(p, Fresh(map[r.version := r]), [Tick(env)]);
            && y.state.served.Last? && y.state.served.result.version == 1
            && Latest(y.store) == Last(r)
  {
    var y0 := Fresh(map[r.version := r]);
    var y := Act(p, y0, Tick(env));
    RunOne(p, y0, Tick(env));
    OptimizedVersion(p, FRESH, env);
    FlushEnds(p, y0, env);
    hide NextInc, Flushed;
    assert y.store.Keys == {1, r.version} && y.store[r.version] == r;
    var v: nat :| IsLatest(y.store, v) && Latest(y.store) == Last(y.store[v]);
    assert r.version in y.store;
  }

  // ---------- the service object ----------

  // What a snapshot looks like: sound nodes, and weights the quality reports can produce.
  ghost predicate EnvOk(env: Env) {
    NodesSound(env.nodes) && Within(env.qm, MAX_SAMPLE)
  }

  lemma NoEventsWithin(bound: nat)
    ensures EventsWithin([], bound)
  {
  }

  class TopoService {
    const params: Params
    var inc: IncrementalOptimizer?
    var served: Last
    var version: nat
    var lastRecompute: int
    var hasRecomputed: bool
    var pendingTrigger: bool
    var pendingEvents: seq<EdgeDelta>
    var lastResult: Last

    ghost predicate Valid()
      reads this, inc
    {
      && EventsWithin(pendingEvents, MAX_SAMPLE)
      && (inc != null ==>
            inc.threshold == THRESHOLD && NodesSound(inc.lastInput.nodes) && Within(inc.lastInput.quality, MAX_SAMPLE))
    }

    ghost function Abs(): State
      reads this, inc
    {
      State(if inc == null then NoInc else Inc(inc.lastInput, inc.lastResult), served, version, lastRecompute,
            hasRecomputed, pendingTrigger, pendingEvents, lastResult)
    }

    constructor (p: Params)
      ensures Valid() && Abs() == FRESH && params == p && inc == null
    {
      params := p;
      inc := null;
      served, lastResult := NoResult, NoResult;
      version, lastRecompute, hasRecomputed := 0, 0, false;
      pendingTrigger, pendingEvents := false, [];
    }

    method CanRecomputeNow(now: int) returns (can: bool)
      ensures can == CanRecompute(params, Abs(), now)
    {
      if params.minInterval <= 0 || !hasRecomputed {
        return true;
      }
      return now - lastRecompute >= params.minInterval;
    }

    // saved is the result when the save succeeded; the source returns an error otherwise.
    method ApplyResultLocked(res: Result, env: Env) returns (saved: Last)
      modifies this
      ensures inc == old(inc)
      ensures saved == if env.saveOk then Last(res) else NoResult
      ensures Abs() == if env.saveOk then Applied(old(Abs()), res, env) else old(Abs())
    {
      if !env.saveOk {
        return NoResult;
      }
      served := Last(res);
      lastRecompute := env.stamp;
      hasRecomputed := true;
      if res.version > version {
        version := res.version;
      }
      lastResult := Last(res);
      return Last(res);
    }

    method FlushLocked(env: Env) returns (saved: Last)
      requires Valid() && EnvOk(env)
      modifies this, inc
      ensures Valid() && (inc == null || inc == old(inc) || fresh(inc))
      ensures Outcome(Abs(), saved) == Flush(params, old(Abs()), env)
    {
      hide InputOk, OptimizeOf, Step, Agrees, GoesFull, HiddenDrop, NodesSound, Within, EventsWithin;
      NoEventsWithin(MAX_SAMPLE);
      var tentative := version + 1;
      if |pendingEvents| > 0 && inc != null {
        SampledInputOk(inc.lastInput);
        WithinStays(inc.lastInput.quality, pendingEvents, MAX_SAMPLE);
        SampledInputOk(NewInput(inc.lastInput, pendingEvents, tentative));
        var res := inc.ApplyEdgeEvents(pendingEvents, tentative);
        if lastResult.Last? && SameContent(lastResult.result, res) {
          pendingTrigger := false;
          pendingEvents := [];
          return NoResult;
        }
        version := tentative;
        saved := ApplyResultLocked(res, env);
        if saved.NoResult? {
          inc := null;
          pendingTrigger := true;
          return;
        }
        pendingTrigger := false;
        pendingEvents := [];
        return;
      }
      SampledInputOk(SnapshotInput(params, tentative, env));
      var newInc := new IncrementalOptimizer(SnapshotInput(params, tentative, env));
      var res := newInc.lastResult;
      if lastResult.Last? && SameContent(lastResult.result, res) {
        inc := newInc;
        pendingTrigger := false;
        pendingEvents := [];
        return NoResult;
      }
      version := tentative;
      inc := newInc;
      saved := ApplyResultLocked(res, env);
      if saved.NoResult? {
        pendingTrigger := true;
        return;
      }
      pendingTrigger := false;
      pendingEvents := [];
    }

    method Tick(env: Env) returns (saved: Last)
      requires Valid() && EnvOk(env)
      modifies this, inc
      ensures Valid() && (inc == null || inc == old(inc) || fresh(inc))
      ensures Outcome(Abs(), saved) == AfterTick(params, old(Abs()), env)
    {
      hide InputOk, Flush;
      var can := CanRecomputeNow(env.check);
      if !can {
        pendingTrigger := true;
        return NoResult;
      }
      saved := FlushLocked(env);
    }

    method OnEvent(e: EdgeDelta, env: Env) returns (saved: Last)
      requires Valid() && EnvOk(env) && EventsWithin([e], MAX_SAMPLE)
      modifies this, inc
      ensures Valid() && (inc == null || inc == old(inc) || fresh(inc))
      ensures Outcome(Abs(), saved) == AfterEvent(params, old(Abs()), e, env)
    {
      hide InputOk, Flush;
      pendingEvents := pendingEvents + [e];
      var can := CanRecomputeNow(env.check);
      if !can {
        return NoResult;
      }
      saved := FlushLocked(env);
    }

    method Recompute(version: nat, env: Env) returns (saved: Last)
      requires Valid() && EnvOk(env)
      modifies this
      ensures Valid() && inc != null && fresh(inc)
      ensures Outcome(Abs(), saved) == AfterRecompute(params, old(Abs()), version, env)
    {
      hide InputOk, OptimizeOf, Agrees, NodesSound, Within, EventsWithin;
      SampledInputOk(SnapshotInput(params, version, env));
      inc := new IncrementalOptimizer(SnapshotInput(params, version, env));
      saved := ApplyResultLocked(inc.lastResult, env);
    }

    // latest is what the store returns.
    method Load(latest: Last) returns (loaded: bool)
      requires Valid()
      modifies this
      ensures Valid() && inc == old(inc) && loaded == latest.Last?
      ensures Abs() == AfterLoad(old(Abs()), latest)
    {
      if latest.NoResult? {
        return false;
      }
      served := latest;
      if latest.result.version > version {
        version := latest.result.version;
      }
      lastResult := latest;
      return true;
    }
  }
}
