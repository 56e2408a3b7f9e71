// Change notification (internal/controller/configsvc/notify.go): subscriptions, one coalescing
// worker a node, and an orderly shutdown. Each section under the locks, each channel operation
// and each store call is one atomic step; the steps of any number of callers, workers and
// consumers interleave in any order.
module Notify {
  import opened Paths

  const CAP := 4

  // A subscription's channel: what is buffered, and everything that was ever sent on it.
  datatype Chan = Chan(node: nat, open: bool, queue: seq<nat>, sent: seq<nat>)

  // Subscription table, channels, and the closed flag, which stands for the done channel too.
  datatype Pub = Pub(subs: map<nat, set<nat>>, chans: map<nat, Chan>, closed: bool, nextSub: nat)

  datatype Pc = Idle | Bumping | Delivering(gen: nat) | Exited

  datatype Worker = Worker(node: nat, pc: Pc)

  // triggers says whether a token is buffered; wg is the wait group's counter.
  datatype Work = Work(triggers: map<nat, bool>, workers: map<nat, Worker>, wg: int, nextWorker: nat)

  // A finished RecomputeAndNotify of a node, with how many bumps had been started before.
  datatype Recompute = Recompute(node: nat, started: nat)

  // gens is the store's. started counts the tokens taken, each of which starts a bump attempt.
  datatype Hist = Hist(gens: map<nat, nat>, started: map<nat, nat>, calls: seq<Recompute>)

  // panicked: a send on or a close of a closed channel, or a wait-group counter added to after
  // closing or below zero.
  datatype Sys = Sys(pub: Pub, work: Work, hist: Hist, panicked: bool)

  datatype Event =
    | Subscribe(node: nat) | EnsureWorker(node: nat) | Unsubscribe(node: nat, id: nat)
    | Trigger(node: nat) | Close | Receive(id: nat) | BumpElsewhere(node: nat) | CreateNode(node: nat)
    | Stop(worker: nat) | Take(worker: nat) | Bump(worker: nat, fails: bool) | Deliver(worker: nat)

  function Fresh(gens: map<nat, nat>): Sys {
    Sys(Pub(map[], map[], false, 0), Work(map[], map[], 0, 0), Hist(gens, map[], []), false)
  }

  function SubsOf(p: Pub, node: nat): set<nat> {
    if node in p.subs then p.subs[node] else {}
  }

  function AllSubs(p: Pub): set<nat> {
    set n, id | n in p.subs && id in p.subs[n] :: id
  }

  function Started(h: Hist, node: nat): nat {
    if node in h.started then h.started[node] else 0
  }

  // ---------- sections on the subscription table ----------

  function Subscribed(p: Pub, node: nat): Pub {
    var c := p.(chans := p.chans[p.nextSub := Chan(node, true, [], [])], nextSub := p.nextSub + 1);
    if p.closed then c else c.(subs := p.subs[node := SubsOf(p, node) + {p.nextSub}])
  }

  predicate AllOpen(p: Pub, ids: set<nat>) {
    forall id :: id in ids ==> id in p.chans && p.chans[id].open
  }

  function Shut(chans: map<nat, Chan>, ids: set<nat>): map<nat, Chan> {
    map id | id in chans :: if id in ids then chans[id].(open := false) else chans[id]
  }

  function Unsubscribed(p: Pub, node: nat, id: nat): Pub {
    if p.closed || id !in SubsOf(p, node) then p
    else
      var rest := SubsOf(p, node) - {id};
      p.(chans := Shut(p.chans, {id}), subs := if rest == {} then p.subs - {node} else p.subs[node := rest])
  }

  function ClosedDown(p: Pub): Pub {
    if p.closed then p else p.(closed := true, chans := Shut(p.chans, AllSubs(p)), subs := map[])
  }

  function Sent(c: Chan, gen: nat): Chan {
    if |c.queue| < CAP then c.(queue := c.queue + [gen], sent := c.sent + [gen]) else c
  }

  function Delivered(p: Pub, node: nat, gen: nat): Pub {
    p.(chans := map id | id in p.chans :: if id in SubsOf(p, node) then Sent(p.chans[id], gen) else p.chans[id])
  }

  function Received(p: Pub, id: nat): Pub {
    if id in p.chans && p.chans[id].queue != [] then p.(chans := p.chans[id := p.chans[id].(queue := p.chans[id].queue[1..])]) else p
  }

  // ---------- sections on the workers ----------

  function Ensured(w: Work, closed: bool, node: nat): Work {
    if closed || node in w.triggers then w
    else Work(w.triggers[node := false], w.workers[w.nextWorker := Worker(node, Idle)], w.wg + 1, w.nextWorker + 1)
  }

  function Triggered(w: Work, node: nat): Work {
    if node in w.triggers then w.(triggers := w.triggers[node := true]) else w
  }

  predicate At(w: Work, k: nat, pc: Pc) {
    k in w.workers && w.workers[k].pc == pc
  }

  function Goto(w: Work, k: nat, pc: Pc): Work
    requires k in w.workers
  {
    w.(workers := w.workers[k := w.workers[k].(pc := pc)])
  }

  function Gone(w: Work, k: nat): Work
    requires k in w.workers
  {
    Goto(w, k, Exited).(wg := w.wg - 1)
  }

  predicate CanTake(w: Work, k: nat) {
    At(w, k, Idle) && w.workers[k].node in w.triggers && w.triggers[w.workers[k].node]
  }

  function Taken(w: Work, k: nat): Work
    requires CanTake(w, k)
  {
    Goto(w, k, Bumping).(triggers := w.triggers[w.workers[k].node := false])
  }

  predicate Delivers(w: Work, k: nat) {
    k in w.workers && w.workers[k].pc.Delivering?
  }

  // ---------- steps ----------

  // A bump fails when the node has no row, or when the store does. A row starts at generation 0.
  function Act(y: Sys, e: Event): Sys {
    var p, w, h := y.pub, y.work, y.hist;
    match e
    case Subscribe(node) => y.(pub := Subscribed(p, node))
    case EnsureWorker(node) =>
      var w1 := Ensured(w, p.closed, node);
      y.(work := w1, panicked := y.panicked || (p.closed && w1.wg > w.wg))
    case Unsubscribe(node, id) =>
      y.(pub := Unsubscribed(p, node, id),
         panicked := y.panicked || (!p.closed && id in SubsOf(p, node) && !AllOpen(p, {id})))
    case Trigger(node) =>
      if node in w.triggers then
        y.(work := Triggered(w, node), hist := h.(calls := h.calls + [Recompute(node, Started(h, node))]))
      else y
    case Close => y.(pub := ClosedDown(p), panicked := y.panicked || (!p.closed && !AllOpen(p, AllSubs(p))))
    case Receive(id) => y.(pub := Received(p, id))
    case BumpElsewhere(node) => if node in h.gens then y.(hist := h.(gens := h.gens[node := h.gens[node] + 1])) else y
    case CreateNode(node) => if node in h.gens then y else y.(hist := h.(gens := h.gens[node := 0]))
    case Stop(k) =>
      if At(w, k, Idle) && p.closed then y.(work := Gone(w, k), panicked := y.panicked || w.wg <= 0) else y
    case Take(k) =>
      if CanTake(w, k) then
        var n := w.workers[k].node;
        y.(work := Taken(w, k), hist := h.(started := h.started[n := Started(h, n) + 1]))
      else y
    case Bump(k, fails) =>
      if !At(w, k, Bumping) then y
      else if fails || w.workers[k].node !in h.gens then y.(work := Goto(w, k, Idle))
      else
        var n := w.workers[k].node;
        y.(work := Goto(w, k, Delivering(h.gens[n] + 1)), hist := h.(gens := h.gens[n := h.gens[n] + 1]))
    case Deliver(k) =>
      if !Delivers(w, k) then y
      else if p.closed then y.(work := Gone(w, k), panicked := y.panicked || w.wg <= 0)
      else
        var n := w.workers[k].node;
        y.(pub := Delivered(p, n, w.workers[k].pc.gen), work := Goto(w, k, Idle),
           panicked := y.panicked || !AllOpen(p, SubsOf(p, n)))
  }

  function Run(y: Sys, run: seq<Event>): Sys {
    if run == [] then y else Act(Run(y, run[..|run| - 1]), run[|run| - 1])
  }

  // ---------- invariants ----------

  // Registered channels are open and belong to their node; none is registered once closed, and
  // before that every open channel is.
  ghost predicate PubOk(p: Pub) {
    && (forall n, id :: n in p.subs && id in p.subs[n] ==> id in p.chans && p.chans[id].open && p.chans[id].node == n)
    && (!p.closed ==> forall id :: id in p.chans && p.chans[id].open ==> id in SubsOf(p, p.chans[id].node))
    && (p.closed ==> p.subs == map[])
    && (forall id :: id in p.chans ==> id < p.nextSub)
  }

  function Live(w: Work): set<nat> {
    set k | k in w.workers && !w.workers[k].pc.Exited?
  }

  // One live worker a node, counted by the wait group.
  ghost predicate CountOk(w: Work) {
    && (forall k :: k in w.workers ==> k < w.nextWorker && w.workers[k].node in w.triggers)
    && (forall k, l :: k in Live(w) && l in Live(w) && w.workers[k].node == w.workers[l].node ==> k == l)
    && w.wg == |Live(w)|
  }

  ghost predicate HasWorker(w: Work, node: nat) {
    exists k :: k in w.workers && !w.workers[k].pc.Exited? && w.workers[k].node == node
  }

  ghost predicate Staffed(w: Work) {
    forall n :: n in w.triggers ==> HasWorker(w, n)
  }

  // Before closing every node with a trigger has its worker.
  ghost predicate WorkOk(w: Work, closed: bool) {
    CountOk(w) && (!closed ==> Staffed(w))
  }

  ghost predicate Increasing(s: seq<nat>) {
    forall i, j :: 0 <= i < j < |s| ==> s[i] < s[j]
  }

  predicate Beyond(w: Worker, c: Chan)
    requires w.pc.Delivering?
  {
    c.node == w.node ==> forall g :: g in c.sent ==> g < w.pc.gen
  }

  // What was sent on a channel grows strictly, up to the store's generation, and a worker
  // about to deliver has a generation beyond all that was sent to its node.
  ghost predicate GensOk(y: Sys) {
    && (forall id :: id in y.pub.chans ==> Increasing(y.pub.chans[id].sent))
    && (forall id, g :: id in y.pub.chans && g in y.pub.chans[id].sent ==>
          var n := y.pub.chans[id].node; n in y.hist.gens && g <= y.hist.gens[n])
    && (forall k :: k in y.work.workers && y.work.workers[k].pc.Delivering? ==>
          var n := y.work.workers[k].node; n in y.hist.gens && y.work.workers[k].pc.gen <= y.hist.gens[n])
    && (forall k, id :: k in y.work.workers && y.work.workers[k].pc.Delivering? && id in y.pub.chans ==>
          Beyond(y.work.workers[k], y.pub.chans[id]))
  }

  // A finished recompute still has its token, or a bump was started after it.
  ghost predicate Owed(y: Sys) {
    forall i :: 0 <= i < |y.hist.calls| ==>
      var c := y.hist.calls[i];
      && c.node in y.work.triggers && Started(y.hist, c.node) >= c.started
      && (y.work.triggers[c.node] || Started(y.hist, c.node) > c.started)
  }

  ghost predicate Inv(y: Sys) {
    !y.panicked && PubOk(y.pub) && WorkOk(y.work, y.pub.closed) && GensOk(y) && Owed(y)
  }

  // ---------- the subscription table ----------

  lemma SubscribeKeeps(p: Pub, node: nat)
    requires PubOk(p)
    ensures PubOk(Subscribed(p, node))
  {
    var q := Subscribed(p, node);
    forall n, id | n in p.subs && id in p.subs[n]
      ensures id != p.nextSub
    {
      assert id in p.chans;
    }
    forall n, id | n in q.subs && id in q.subs[n]
      ensures id in q.chans && q.chans[id].open && q.chans[id].node == n
    {
      if id != p.nextSub {
        assert n in p.subs && id in p.subs[n];
      }
    }
  }

  lemma UnsubscribeKeeps(p: Pub, node: nat, id: nat)
    requires PubOk(p)
    ensures PubOk(Unsubscribed(p, node, id)) && (!p.closed && id in SubsOf(p, node) ==> AllOpen(p, {id}))
  {
  }

  lemma CloseKeeps(p: Pub)
    requires PubOk(p)
    ensures PubOk(ClosedDown(p)) && (!p.closed ==> AllOpen(p, AllSubs(p)))
  {
  }

  lemma DeliverKeeps(p: Pub, node: nat, gen: nat)
    requires PubOk(p)
    ensures PubOk(Delivered(p, node, gen)) && AllOpen(p, SubsOf(p, node))
  {
  }

  lemma ReceiveKeeps(p: Pub, id: nat)
    requires PubOk(p)
    ensures PubOk(Received(p, id))
  {
  }

  // ---------- the workers ----------

  lemma Works(w: Work, k: nat)
    requires k in w.workers && !w.workers[k].pc.Exited?
    ensures HasWorker(w, w.workers[k].node)
  {
  }

  lemma EnsureCounts(w: Work, closed: bool, node: nat)
    requires CountOk(w)
    ensures CountOk(Ensured(w, closed, node)) && forall k :: k in w.workers ==> k < w.nextWorker
  {
    var w1 := Ensured(w, closed, node);
    if w1 != w {
      assert Live(w1) == Live(w) + {w.nextWorker};
    }
  }

  lemma EnsureKeeps(w: Work, closed: bool, node: nat)
    requires WorkOk(w, closed)
    ensures WorkOk(Ensured(w, closed, node), closed)
    ensures closed ==> Ensured(w, closed, node) == w
  {
    hide HasWorker, CountOk;
    EnsureCounts(w, closed, node);
    var w1 := Ensured(w, closed, node);
    if w1 != w {
      forall n | n in w1.triggers
        ensures HasWorker(w1, n)
      {
        if n == node {
          Works(w1, w.nextWorker);
        } else {
          Survives(w, w1, n);
        }
      }
    }
  }

  lemma Survives(w: Work, w1: Work, node: nat)
    requires HasWorker(w, node)
    requires forall k :: k in w.workers && !w.workers[k].pc.Exited? ==>
      k in w1.workers && w1.workers[k].node == w.workers[k].node && !w1.workers[k].pc.Exited?
    ensures HasWorker(w1, node)
  {
    var k :| k in w.workers && !w.workers[k].pc.Exited? && w.workers[k].node == node;
    assert w1.workers[k].node == node;
  }

  // Nobody comes or goes.
  lemma SameStaff(w: Work, w1: Work, closed: bool)
    requires WorkOk(w, closed) && w1.wg == w.wg && w1.nextWorker == w.nextWorker
    requires w1.triggers.Keys == w.triggers.Keys && w1.workers.Keys == w.workers.Keys
    requires forall k :: k in w.workers ==>
      w1.workers[k].node == w.workers[k].node && (w1.workers[k].pc.Exited? <==> w.workers[k].pc.Exited?)
    ensures WorkOk(w1, closed)
  {
    assert Live(w1) == Live(w);
    forall n | !closed && n in w1.triggers
      ensures HasWorker(w1, n)
    {
      Survives(w, w1, n);
    }
  }

  lemma GoneKeeps(w: Work, k: nat)
    requires WorkOk(w, true) && k in Live(w)
    ensures WorkOk(Gone(w, k), true) && w.wg > 0
  {
    assert Live(Gone(w, k)) == Live(w) - {k};
  }

  // ---------- generations ----------

  // Nothing is sent, and no generation falls, and no worker has one to deliver that it had not.
  lemma GensQuiet(y: Sys, z: Sys)
    requires GensOk(y)
    requires forall id :: id in z.pub.chans ==>
      if id in y.pub.chans then z.pub.chans[id].sent == y.pub.chans[id].sent && z.pub.chans[id].node == y.pub.chans[id].node
      else z.pub.chans[id].sent == []
    requires forall n :: n in y.hist.gens ==> n in z.hist.gens && y.hist.gens[n] <= z.hist.gens[n]
    requires forall k :: k in z.work.workers && z.work.workers[k].pc.Delivering? ==>
      k in y.work.workers && z.work.workers[k] == y.work.workers[k]
    ensures GensOk(z)
  {
  }

  lemma BumpGens(y: Sys, k: nat, fails: bool)
    requires GensOk(y) && At(y.work, k, Bumping)
    ensures GensOk(Act(y, Bump(k, fails)))
  {
    hide Increasing;
  }

  lemma SendGens(c: Chan, gen: nat)
    requires Increasing(c.sent) && forall g :: g in c.sent ==> g < gen
    ensures Increasing(Sent(c, gen).sent) && forall g :: g in Sent(c, gen).sent ==> g in c.sent || g == gen
  {
    var s := c.sent + [gen];
    forall i, j | 0 <= i < j < |s|
      ensures s[i] < s[j]
    {
      assert s[i] == c.sent[i] && c.sent[i] in c.sent;
    }
  }

  lemma OfNode(p: Pub, node: nat, id: nat)
    requires PubOk(p) && id in SubsOf(p, node)
    ensures id in p.chans && p.chans[id].node == node
  {
  }

  lemma DeliverActs(y: Sys, k: nat)
    requires Delivers(y.work, k) && !y.pub.closed
    ensures var w, z := y.work.workers[k], Act(y, Deliver(k));
      z.pub == Delivered(y.pub, w.node, w.pc.gen) && z.work == Goto(y.work, k, Idle) && z.hist == y.hist
  {
  }

  // The one worker of a node delivers: no other has a generation for that node in hand.
  lemma DeliverGens(y: Sys, k: nat)
    requires GensOk(y) && WorkOk(y.work, y.pub.closed) && PubOk(y.pub) && Delivers(y.work, k) && !y.pub.closed
    ensures GensOk(Act(y, Deliver(k)))
  {
    hide Increasing, Act, PubOk, SubsOf, WorkOk;
    var z := Act(y, Deliver(k));
    DeliverActs(y, k);
    var n, gen := y.work.workers[k].node, y.work.workers[k].pc.gen;
    forall id | id in y.pub.chans
      ensures Increasing(z.pub.chans[id].sent) && z.pub.chans[id].node == y.pub.chans[id].node
      ensures forall g :: g in z.pub.chans[id].sent ==>
                g in y.pub.chans[id].sent || (g == gen && y.pub.chans[id].node == n)
    {
      if id in SubsOf(y.pub, n) {
        OfNode(y.pub, n, id);
        SendGens(y.pub.chans[id], gen);
      }
    }
    forall l | l in z.work.workers && z.work.workers[l].pc.Delivering?
      ensures l in y.work.workers && z.work.workers[l] == y.work.workers[l] && y.work.workers[l].node != n
    {
      OtherNode(y.work, y.pub.closed, k, l);
    }
  }

  lemma OtherNode(w: Work, closed: bool, k: nat, l: nat)
    requires WorkOk(w, closed) && k in w.workers && l in w.workers && k != l
    requires !w.workers[k].pc.Exited? && !w.workers[l].pc.Exited?
    ensures w.workers[k].node != w.workers[l].node
  {
    assert k in Live(w) && l in Live(w);
  }

  // ---------- steps keep the invariant ----------

  lemma ActPub(y: Sys, e: Event)
    requires Inv(y)
    ensures PubOk(Act(y, e).pub) && !Act(y, e).panicked
  {
    var p, w := y.pub, y.work;
    match e {
      case Subscribe(node) => SubscribeKeeps(p, node);
      case EnsureWorker(node) => EnsureKeeps(w, p.closed, node);
      case Unsubscribe(node, id) => UnsubscribeKeeps(p, node, id);
      case Trigger(node) =>
      case Close => CloseKeeps(p);
      case Receive(id) => ReceiveKeeps(p, id);
      case BumpElsewhere(node) =>
      case CreateNode(node) =>
      case Stop(k) =>
        if At(w, k, Idle) && p.closed {
          GoneKeeps(w, k);
        }
      case Take(k) =>
      case Bump(k, fails) =>
      case Deliver(k) =>
        if Delivers(w, k) {
          if p.closed {
            GoneKeeps(w, k);
          } else {
            DeliverKeeps(p, w.workers[k].node, w.workers[k].pc.gen);
          }
        }
    }
    hide PubOk, WorkOk, GensOk, Owed, Subscribed, Unsubscribed, ClosedDown, Delivered, Received;
  }

  lemma GotoKeeps(w: Work, closed: bool, k: nat, pc: Pc)
    requires WorkOk(w, closed) && k in w.workers && !w.workers[k].pc.Exited? && !pc.Exited?
    ensures WorkOk(Goto(w, k, pc), closed)
  {
    hide WorkOk;
    SameStaff(w, Goto(w, k, pc), closed);
  }

  lemma TokenKeeps(w: Work, closed: bool, node: nat, token: bool)
    requires WorkOk(w, closed) && node in w.triggers
    ensures WorkOk(w.(triggers := w.triggers[node := token]), closed)
  {
    hide WorkOk;
    SameStaff(w, w.(triggers := w.triggers[node := token]), closed);
  }

  lemma ActWork(y: Sys, e: Event)
    requires WorkOk(y.work, y.pub.closed)
    ensures WorkOk(Act(y, e).work, Act(y, e).pub.closed)
  {
    hide WorkOk, CountOk, Live, Subscribed, Unsubscribed, Delivered, Received, AllOpen, AllSubs, Started, Shut;
    var w, closed := y.work, y.pub.closed;
    PubClosed(y.pub);
    match e
    case Subscribe(node) =>
    case Unsubscribe(node, id) =>
    case Receive(id) =>
    case BumpElsewhere(node) =>
    case CreateNode(node) =>
    case EnsureWorker(node) => EnsureKeeps(w, closed, node);
    case Trigger(node) =>
      if node in w.triggers {
        TokenKeeps(w, closed, node, true);
      }
    case Close => ClosingKeeps(w, closed);
    case Stop(k) =>
      if At(w, k, Idle) && closed {
        LiveAt(w, k);
        GoneKeeps(w, k);
      }
    case Take(k) =>
      if CanTake(w, k) {
        GotoKeeps(w, closed, k, Bumping);
        TokenKeeps(Goto(w, k, Bumping), closed, w.workers[k].node, false);
      }
    case Bump(k, fails) =>
      if At(w, k, Bumping) {
        var n := w.workers[k].node;
        GotoKeeps(w, closed, k, if !fails && n in y.hist.gens then Delivering(y.hist.gens[n] + 1) else Idle);
      }
    case Deliver(k) =>
      if Delivers(w, k) {
        if closed {
          LiveAt(w, k);
          GoneKeeps(w, k);
        } else {
          GotoKeeps(w, closed, k, Idle);
        }
      }
  }

  lemma LiveAt(w: Work, k: nat)
    requires k in w.workers && !w.workers[k].pc.Exited?
    ensures k in Live(w)
  {
  }

  lemma PubClosed(p: Pub)
    ensures forall node :: Subscribed(p, node).closed == p.closed
    ensures forall node, id :: Unsubscribed(p, node, id).closed == p.closed
    ensures forall id :: Received(p, id).closed == p.closed
    ensures forall node, gen :: Delivered(p, node, gen).closed == p.closed
  {
  }

  lemma ClosingKeeps(w: Work, closed: bool)
    requires WorkOk(w, closed)
    ensures WorkOk(w, true)
  {
  }

  lemma ActGens(y: Sys, e: Event)
    requires Inv(y)
    ensures GensOk(Act(y, e))
  {
    if e.Bump? && At(y.work, e.worker, Bumping) {
      BumpGens(y, e.worker, e.fails);
    } else if e.Deliver? && Delivers(y.work, e.worker) && !y.pub.closed {
      DeliverGens(y, e.worker);
    } else {
      assert forall id :: id in y.pub.chans ==> id < y.pub.nextSub;
      hide PubOk, WorkOk, GensOk, Owed, AllOpen, AllSubs, Started;
      SameSent(y, e);
      SameHands(y, e);
      hide Act;
      GensQuiet(y, Act(y, e));
    }
  }

  // Only a delivery sends.
  lemma SameSent(y: Sys, e: Event)
    requires forall id :: id in y.pub.chans ==> id < y.pub.nextSub
    requires !e.Deliver? || !Delivers(y.work, e.worker) || y.pub.closed
    ensures forall id :: id in Act(y, e).pub.chans ==>
      if id in y.pub.chans then
        Act(y, e).pub.chans[id].sent == y.pub.chans[id].sent && Act(y, e).pub.chans[id].node == y.pub.chans[id].node
      else Act(y, e).pub.chans[id].sent == []
  {
    hide Ensured, Triggered, Goto, Gone, Taken, AllOpen, AllSubs, SubsOf, Started;
  }

  // Only a bump puts a generation in a worker's hands.
  lemma SameHands(y: Sys, e: Event)
    requires !e.Bump? || !At(y.work, e.worker, Bumping)
    ensures var z := Act(y, e);
      && (forall n :: n in y.hist.gens ==> n in z.hist.gens && y.hist.gens[n] <= z.hist.gens[n])
      && (forall k :: k in z.work.workers && z.work.workers[k].pc.Delivering? ==>
            k in y.work.workers && z.work.workers[k] == y.work.workers[k])
  {
    hide Subscribed, Unsubscribed, ClosedDown, Delivered, Received, AllOpen, AllSubs, Started;
  }

  // A token is taken only by a bump that starts.
  lemma ActOwed(y: Sys, e: Event)
    requires Owed(y)
    ensures Owed(Act(y, e))
  {
    hide Subscribed, Unsubscribed, ClosedDown, Delivered, Received, AllOpen, AllSubs;
    var z := Act(y, e);
    forall i | 0 <= i < |z.hist.calls|
      ensures var c := z.hist.calls[i];
        && c.node in z.work.triggers && Started(z.hist, c.node) >= c.started
        && (z.work.triggers[c.node] || Started(z.hist, c.node) > c.started)
    {
      if i < |y.hist.calls| {
        assert z.hist.calls[i] == y.hist.calls[i];
      }
    }
  }

  lemma ActInv(y: Sys, e: Event)
    requires Inv(y)
    ensures Inv(Act(y, e))
  {
    hide Act;
    ActPub(y, e);
    ActWork(y, e);
    ActGens(y, e);
    ActOwed(y, e);
  }

  lemma {:induction false} RunInv(gens: map<nat, nat>, run: seq<Event>)
    ensures Inv(Run(Fresh(gens), run))
  {
    hide Act;
    if run != [] {
      RunInv(gens, run[..|run| - 1]);
      hide Inv;
      ActInv(Run(Fresh(gens), run[..|run| - 1]), run[|run| - 1]);
    } else {
      assert Live(Fresh(gens).work) == {};
    }
  }

  // ---------- what runs guarantee ----------

  // Under every interleaving: no channel is sent on or closed after it was closed and the wait
  // group is never added to after closing; no node has two live workers, and the wait group
  // counts them; every subscription sees strictly increasing generations of its node.
  lemma Orderly(gens: map<nat, nat>, run: seq<Event>)
    ensures var y := Run(Fresh(gens), run);
      && !y.panicked
      && (forall k, l :: k in Live(y.work) && l in Live(y.work) && y.work.workers[k].node == y.work.workers[l].node ==> k == l)
      && y.work.wg == |Live(y.work)|
      && (forall id :: id in y.pub.chans ==> Increasing(y.pub.chans[id].sent))
      && (forall id, g :: id in y.pub.chans && g in y.pub.chans[id].sent ==>
            y.pub.chans[id].node in y.hist.gens && g <= y.hist.gens[y.pub.chans[id].node])
  {
    RunInv(gens, run);
  }

  // A finished recompute has its token waiting, with a worker to take it unless closed, or a
  // bump was started after it: since the call finished one token more was taken.
  lemma RecomputeForcesBump(gens: map<nat, nat>, run: seq<Event>, i: nat)
    ensures var y := Run(Fresh(gens), run);
      i < |y.hist.calls| ==>
        var c := y.hist.calls[i];
        && c.node in y.work.triggers
        && (Started(y.hist, c.node) > c.started
            || (y.work.triggers[c.node] && (!y.pub.closed ==> HasWorker(y.work, c.node))))
  {
    RunInv(gens, run);
  }

  lemma TriggersStay(y: Sys, e: Event)
    ensures y.work.triggers.Keys <= Act(y, e).work.triggers.Keys
  {
    hide Subscribed, Unsubscribed, ClosedDown, Delivered, Received, AllOpen, AllSubs, Started;
  }

  lemma {:induction false} RunTriggers(y: Sys, run: seq<Event>)
    ensures y.work.triggers.Keys <= Run(y, run).work.triggers.Keys
  {
    hide Act;
    if run != [] {
      RunTriggers(y, run[..|run| - 1]);
      TriggersStay(Run(y, run[..|run| - 1]), run[|run| - 1]);
    }
  }

  // A recompute that begins before closing is one of those calls, whatever happens between its
  // two steps, closing included.
  lemma RecomputeCounts(y: Sys, node: nat, between: seq<Event>)
    requires !y.pub.closed
    ensures var z := Run(Act(y, EnsureWorker(node)), between);
      Act(z, Trigger(node)).hist.calls == z.hist.calls + [Recompute(node, Started(z.hist, node))]
  {
    RunTriggers(Act(y, EnsureWorker(node)), between);
    assert node in Act(y, EnsureWorker(node)).work.triggers;
  }

  // Once closed: the wait group only falls and no channel changes but for what is read from it.
  lemma ActClosed(y: Sys, e: Event)
    requires Inv(y) && y.pub.closed
    ensures var z := Act(y, e);
      && z.pub.closed && z.work.wg <= y.work.wg
      && forall id :: id in y.pub.chans ==>
            (id in z.pub.chans && z.pub.chans[id].sent == y.pub.chans[id].sent && z.pub.chans[id].open == y.pub.chans[id].open)
  {
    hide WorkOk, GensOk, Owed, Started, AllOpen;
  }

  lemma {:induction false} RunClosed(y: Sys, run: seq<Event>)
    requires Inv(y) && y.pub.closed
    ensures var z := Run(y, run);
      && Inv(z) && z.pub.closed && z.work.wg <= y.work.wg
      && forall id :: id in y.pub.chans ==>
            (id in z.pub.chans && z.pub.chans[id].sent == y.pub.chans[id].sent && z.pub.chans[id].open == y.pub.chans[id].open)
  {
    hide Act, Inv;
    if run != [] {
      RunClosed(y, run[..|run| - 1]);
      ActClosed(Run(y, run[..|run| - 1]), run[|run| - 1]);
      ActInv(Run(y, run[..|run| - 1]), run[|run| - 1]);
    }
  }

  // A subscription made after closing is neither served nor closed, ever.
  lemma LateSubscriber(gens: map<nat, nat>, before: seq<Event>, node: nat, after: seq<Event>)
    requires Run(Fresh(gens), before).pub.closed
    ensures var y := Run(Fresh(gens), before);
      var id := y.pub.nextSub;
      var z := Run(Act(y, Subscribe(node)), after);
      id in z.pub.chans && z.pub.chans[id].open && z.pub.chans[id].sent == []
  {
    var y := Run(Fresh(gens), before);
    RunInv(gens, before);
    ActInv(y, Subscribe(node));
    var z := Act(y, Subscribe(node));
    assert z.pub.chans[y.pub.nextSub] == Chan(node, true, [], []);
    hide Act, Inv;
    RunClosed(z, after);
  }

  // A delivery before closing: each open channel of the node with fewer than four signals waiting
  // gets the generation as its last signal, and a full one and every other channel stays as it is.
  ghost predicate Reaches(p: Pub, node: nat, gen: nat, q: Pub) {
    && q.chans.Keys == p.chans.Keys && q.subs == p.subs
    && forall id :: id in p.chans ==>
         var c, d := p.chans[id], q.chans[id];
         if c.open && c.node == node && |c.queue| < 4 then
           d.queue == c.queue + [gen] && d.sent == c.sent + [gen] && d.open && d.node == node
         else d == c
  }

  lemma DeliveredReaches(p: Pub, node: nat, gen: nat)
    requires PubOk(p) && !p.closed
    ensures Reaches(p, node, gen, Delivered(p, node, gen))
  {
    forall id | id in p.chans
      ensures p.chans[id].open && p.chans[id].node == node <==> id in SubsOf(p, node)
    {
      if id in SubsOf(p, node) {
        OfNode(p, node, id);
      }
    }
  }

  // In every reachable state: a bump that succeeds raises the node's generation by one, and the
  // delivery of it reaches every subscription of the node that has room.
  lemma DeliveryReaches(gens: map<nat, nat>, run: seq<Event>, k: nat)
    requires var y := Run(Fresh(gens), run); !y.pub.closed && k in y.work.workers
    ensures var y := Run(Fresh(gens), run);
      var w := y.work.workers[k];
      && (w.pc.Delivering? ==>
            var z := Act(y, Deliver(k));
            Reaches(y.pub, w.node, w.pc.gen, z.pub) && z.work.workers[k].pc.Idle?)
      && (w.pc.Bumping? && w.node in y.hist.gens ==>
            var z := Act(y, Bump(k, false));
            && z.hist.gens == y.hist.gens[w.node := y.hist.gens[w.node] + 1]
            && z.work.workers[k].pc == Delivering(y.hist.gens[w.node] + 1))
      && (w.pc.Bumping? ==> Act(y, Bump(k, true)).hist.gens == y.hist.gens && Act(y, Bump(k, true)).work.workers[k].pc.Idle?)
      && (w.pc.Idle? && w.node in y.work.triggers && y.work.triggers[w.node] ==>
            var z := Act(y, Take(k)); z.work.workers[k].pc.Bumping? && !z.work.triggers[w.node])
  {
    hide Run, Inv, Delivered, Reaches, PubOk;
    var y := Run(Fresh(gens), run);
    RunInv(gens, run);
    InvPub(y);
    if y.work.workers[k].pc.Delivering? {
      DeliveredReaches(y.pub, y.work.workers[k].node, y.work.workers[k].pc.gen);
    }
  }

  lemma InvPub(y: Sys)
    requires Inv(y)
    ensures PubOk(y.pub)
  {
  }

  // Unsubscribing before closing closes the channel and takes it off the table, and touches no
  // other; a consumer takes the signals in the order in which they were sent.
  lemma UnsubscribeCloses(gens: map<nat, nat>, run: seq<Event>, id: nat)
    requires var y := Run(Fresh(gens), run); !y.pub.closed && id in y.pub.chans && y.pub.chans[id].open
    ensures var p := Run(Fresh(gens), run).pub;
      var q := Unsubscribed(p, p.chans[id].node, id);
      && q.chans == p.chans[id := p.chans[id].(open := false)]
      && (forall n, i :: i in SubsOf(q, n) <==> i in SubsOf(p, n) && i != id)
      && (p.chans[id].queue != [] ==> Received(p, id).chans == p.chans[id := p.chans[id].(queue := p.chans[id].queue[1..])])
  {
    hide Run, Inv;
    RunInv(gens, run);
    InvPub(Run(Fresh(gens), run));
    var p := Run(Fresh(gens), run).pub;
    var q := Unsubscribed(p, p.chans[id].node, id);
    assert id in SubsOf(p, p.chans[id].node);
    forall n, i
      ensures i in SubsOf(q, n) <==> i in SubsOf(p, n) && i != id
    {
      if i in SubsOf(p, n) {
        OfNode(p, n, i);
      }
    }
  }

  // Closed, with exactly the channels from identifier cut on open.
  ghost predicate ClosedAt(p: Pub, cut: nat) {
    p.closed && cut <= p.nextSub && forall id :: id in p.chans ==> (p.chans[id].open <==> id >= cut)
  }

  // Closing closes every channel there is.
  lemma CloseClosesAll(p: Pub)
    requires PubOk(p) && !p.closed
    ensures ClosedAt(ClosedDown(p), p.nextSub)
  {
    forall id | id in p.chans && p.chans[id].open
      ensures id in AllSubs(p)
    {
      assert id in SubsOf(p, p.chans[id].node);
    }
  }

  lemma ActClosedAt(y: Sys, e: Event, cut: nat)
    requires Inv(y) && ClosedAt(y.pub, cut)
    ensures ClosedAt(Act(y, e).pub, cut)
  {
    hide WorkOk, GensOk, Owed, Started, AllOpen;
  }

  lemma OnlyCloseCloses(y: Sys, e: Event)
    requires !y.pub.closed && Act(y, e).pub.closed
    ensures e.Close?
  {
    hide AllOpen, AllSubs, Started, SubsOf, Shut, Ensured, Gone, Goto, Taken, Triggered;
  }

  // Closing lets go of every consumer there is, and of none that comes later: once closed, a
  // channel is open if and only if it was subscribed after the closing step n.
  lemma {:induction false} CloseReleases(gens: map<nat, nat>, run: seq<Event>) returns (n: nat)
    requires Run(Fresh(gens), run).pub.closed
    ensures n < |run| && run[n] == Close && !Run(Fresh(gens), run[..n]).pub.closed
    ensures ClosedAt(Run(Fresh(gens), run).pub, Run(Fresh(gens), run[..n]).pub.nextSub)
  {
    hide Act, Inv, PubOk, ClosedDown, ClosedAt;
    var m := |run| - 1;
    var y := Run(Fresh(gens), run[..m]);
    RunInv(gens, run[..m]);
    if y.pub.closed {
      n := CloseReleases(gens, run[..m]);
      assert run[..m][..n] == run[..n];
      ActClosedAt(y, run[m], Run(Fresh(gens), run[..n]).pub.nextSub);
    } else {
      n := m;
      OnlyCloseCloses(y, run[m]);
      ActCloses(y);
    }
  }

  lemma ActCloses(y: Sys)
    requires Inv(y) && !y.pub.closed
    ensures ClosedAt(Act(y, Close).pub, y.pub.nextSub)
  {
    CloseClosesAll(y.pub);
  }

  // How far a worker is from having exited, once closed.
  function Rank(w: Work, k: nat): nat
    requires k in w.workers
  {
    var token := if w.workers[k].node in w.triggers && w.triggers[w.workers[k].node] then 3 else 0;
    match w.workers[k].pc
    case Exited => 0
    case Idle => 1 + token
    case Delivering(_) => 2 + token
    case Bumping => 3 + token
  }

  function StepOf(w: Work, k: nat, fails: bool): Event
    requires k in w.workers
  {
    match w.workers[k].pc
    case Idle => Stop(k)
    case Bumping => Bump(k, fails)
    case Delivering(_) => Deliver(k)
    case Exited => Stop(k)
  }

  // After closing a live worker always has a step to take, every step it takes brings it closer
  // to its exit, a failing bump too, and nothing but a new trigger for its node takes it further away: so waiting
  // for the workers ends.
  lemma ClosedWorkersExit(y: Sys, k: nat, e: Event, fails: bool)
    requires Inv(y) && y.pub.closed && k in Live(y.work)
    ensures Act(y, StepOf(y.work, k, fails)) != y
    ensures var z := Act(y, e);
      && k in z.work.workers
      && (e != Trigger(y.work.workers[k].node) ==> Rank(z.work, k) <= Rank(y.work, k))
      && ((e == Stop(k) || e == Take(k) || e == Bump(k, fails) || e == Deliver(k)) && z != y ==> Rank(z.work, k) < Rank(y.work, k))
  {
    hide PubOk, GensOk, Owed, Started, AllOpen, AllSubs, SubsOf, Shut, Subscribed, Unsubscribed, Delivered, Received, Staffed;
  }

  // ---------- the notification centre ----------

  function Recomputes(nodes: seq<nat>): seq<Event> {
    if nodes == [] then []
    else Recomputes(nodes[..|nodes| - 1]) + [EnsureWorker(nodes[|nodes| - 1]), Trigger(nodes[|nodes| - 1])]
  }

  lemma RunTwo(y: Sys, run: seq<Event>, e: Event, f: Event)
    ensures Run(y, run + [e, f]) == Act(Act(Run(y, run), e), f)
  {
    assert (run + [e, f])[..|run| + 1] == run + [e];
    assert (run + [e])[..|run|] == run;
  }

  lemma ActClose(y: Sys)
    requires Inv(y)
    ensures Act(y, Close) == y.(pub := ClosedDown(y.pub))
  {
    CloseKeeps(y.pub);
    hide PubOk, WorkOk, GensOk, Owed;
  }

  lemma ActDeliver(y: Sys, k: nat)
    requires Inv(y) && Delivers(y.work, k)
    ensures AllOpen(y.pub, SubsOf(y.pub, y.work.workers[k].node))
    ensures Act(y, Deliver(k)) ==
      if y.pub.closed then y.(work := Gone(y.work, k))
      else
        var w := y.work.workers[k];
        y.(pub := Delivered(y.pub, w.node, w.pc.gen), work := Goto(y.work, k, Idle))
  {
    DeliverKeeps(y.pub, y.work.workers[k].node, y.work.workers[k].pc.gen);
    if y.pub.closed {
      GoneKeeps(y.work, k);
    }
    hide PubOk, WorkOk, GensOk, Owed;
  }

  class Center {
    var subs: map<nat, set<nat>>
    var chans: map<nat, Chan>
    var closed: bool
    var nextSub: nat
    var triggers: map<nat, bool>
    var workers: map<nat, Worker>
    var wg: int
    var nextWorker: nat
    ghost var hist: Hist

    ghost function Abs(): Sys
      reads this
    {
      Sys(Pub(subs, chans, closed, nextSub), Work(triggers, workers, wg, nextWorker), hist, false)
    }

    constructor (ghost gens: map<nat, nat>)
      ensures Abs() == Fresh(gens)
    {
      subs, chans, closed, nextSub := map[], map[], false, 0;
      triggers, workers, wg, nextWorker := map[], map[], 0, 0;
      hist := Hist(gens, map[], []);
    }

    method EnsureWorker(node: nat)
      requires Inv(Abs())
      modifies this`triggers, this`workers, this`wg, this`nextWorker
      ensures Abs() == Act(old(Abs()), Event.EnsureWorker(node)) && Inv(Abs())
    {
      hide Inv;
      ActInv(Abs(), Event.EnsureWorker(node));
      if closed {
        return;
      }
      if node in triggers {
        return;
      }
      triggers := triggers[node := false];
      workers := workers[nextWorker := Worker(node, Idle)];
      wg := wg + 1;
      nextWorker := nextWorker + 1;
    }

    // The lock is released between the two steps.
    method Subscribe(node: nat) returns (id: nat)
      requires Inv(Abs())
      modifies this
      ensures id == old(nextSub) && Inv(Abs())
      ensures if old(closed) then Abs() == Act(old(Abs()), Event.Subscribe(node))
              else Abs() == Act(Act(old(Abs()), Event.Subscribe(node)), Event.EnsureWorker(node))
    {
      hide Inv;
      ActInv(Abs(), Event.Subscribe(node));
      id := nextSub;
      nextSub := nextSub + 1;
      chans := chans[id := Chan(node, true, [], [])];
      if closed {
        return;
      }
      if node !in subs {
        subs := subs[node := {}];
      }
      subs := subs[node := subs[node] + {id}];
      assert Abs() == Act(old(Abs()), Event.Subscribe(node));
      EnsureWorker(node);
    }

    method Unsubscribe(node: nat, id: nat)
      requires Inv(Abs())
      modifies this`subs, this`chans
      ensures Abs() == Act(old(Abs()), Event.Unsubscribe(node, id)) && Inv(Abs())
    {
      ActInv(Abs(), Event.Unsubscribe(node, id));
      if closed {
        return;
      }
      if node in subs && id in subs[node] {
        assert chans[id].open;
        ghost var before := chans;
        chans := chans[id := chans[id].(open := false)];
        assert chans == Shut(before, {id});
        subs := if subs[node] - {id} == {} then subs - {node} else subs[node := subs[node] - {id}];
      }
    }

    // Non-blocking: a full buffer means a token is waiting already.
    method SendTrigger(node: nat)
      requires Inv(Abs())
      modifies this`triggers, this`hist
      ensures Abs() == Act(old(Abs()), Trigger(node)) && Inv(Abs())
    {
      hide Inv, Started;
      ActInv(Abs(), Trigger(node));
      if node in triggers {
        hist := hist.(calls := hist.calls + [Recompute(node, Started(hist, node))]);
        if !triggers[node] {
          triggers := triggers[node := true];
        }
        assert triggers == old(triggers)[node := true];
      }
    }

    method RecomputeAndNotify(nodes: seq<nat>)
      requires Inv(Abs())
      modifies this
      ensures Abs() == Run(old(Abs()), Recomputes(nodes)) && Inv(Abs())
    {
      hide Inv, Act;
      for i := 0 to |nodes|
        invariant Inv(Abs()) && Abs() == Run(old(Abs()), Recomputes(nodes[..i]))
      {
        assert nodes[..i + 1][..i] == nodes[..i];
        RunTwo(old(Abs()), Recomputes(nodes[..i]), Event.EnsureWorker(nodes[i]), Trigger(nodes[i]));
        EnsureWorker(nodes[i]);
        SendTrigger(nodes[i]);
      }
      assert nodes[..|nodes|] == nodes;
    }

    // Every registered channel is closed, each while still open.
    method Close()
      requires Inv(Abs())
      modifies this`closed, this`subs, this`chans
      ensures Abs() == Act(old(Abs()), Event.Close) && Inv(Abs())
    {
      ActInv(Abs(), Event.Close);
      CloseKeeps(Abs().pub);
      ActClose(Abs());
      hide Inv, Act, PubOk;
      if closed {
        return;
      }
      closed := true;
      CloseAll(set n, id | n in subs && id in subs[n] :: id);
      subs := map[];
    }

    method CloseAll(all: set<nat>)
      requires forall id :: id in all ==> id in chans && chans[id].open
      modifies this`chans
      ensures chans == Shut(old(chans), all)
    {
      var ids := all;
      while ids != {}
        invariant ids <= all && chans.Keys == old(chans).Keys
        invariant forall id :: id in chans ==> chans[id] == if id in all - ids then old(chans)[id].(open := false) else old(chans)[id]
      {
        var id :| id in ids;
        assert chans[id].open;
        chans := chans[id := chans[id].(open := false)];
        ids := ids - {id};
      }
    }

    // The read-locked section of a worker.
    method DeliverFrom(k: nat)
      requires Inv(Abs()) && Delivers(Abs().work, k)
      modifies this`chans, this`workers, this`wg
      ensures Abs() == Act(old(Abs()), Deliver(k)) && Inv(Abs())
    {
      hide Inv, Act, Delivered, SubsOf, AllOpen;
      ActInv(Abs(), Deliver(k));
      ActDeliver(Abs(), k);
      var node, gen := workers[k].node, workers[k].pc.gen;
      if closed {
        workers := workers[k := workers[k].(pc := Exited)];
        wg := wg - 1;
        return;
      }
      workers := workers[k := workers[k].(pc := Idle)];
      SendAll(node, gen);
    }

    method SendAll(node: nat, gen: nat)
      requires AllOpen(Abs().pub, SubsOf(Abs().pub, node))
      modifies this`chans
      ensures Abs().pub == Delivered(old(Abs().pub), node, gen)
    {
      var all := if node in subs then subs[node] else {};
      var ids := all;
      while ids != {}
        invariant ids <= all && chans.Keys == old(chans).Keys
        invariant forall id :: id in chans ==> chans[id] == if id in all - ids then Sent(old(chans)[id], gen) else old(chans)[id]
      {
        var id :| id in ids;
        assert chans[id].open;
        if |chans[id].queue| < CAP {
          chans := chans[id := chans[id].(queue := chans[id].queue + [gen], sent := chans[id].sent + [gen])];
        }
        ids := ids - {id};
      }
    }
  }
}
