// The path-probe protocol (internal/nodecore/dataplane/dataplane.go, internal/transport/frame.go).
// A request walks a source route; every hop answers with a reply that walks back. Nodes are
// identified by their VIPs. Looking up and writing to a connection is abstracted: a frame that
// is sent reaches its target, is dropped, or goes to another node that is to send it on.
module Probe {
  import opened Paths
  import opened Nearest
  import Wire = Frame

  const MAX_HOPS := 64

  // SyncEntry, the time stamp and what else a hop only copies are left out.
  datatype Frame = Frame(isReply: bool, autoReply: bool, isRouteSync: bool, nonce: nat, source: nat,
                         hopIndex: nat, origHop: nat, route: seq<nat>)

  datatype Hop = NoHop | Next(vip: nat)

  function NextHop(f: Frame): Hop {
    if f.hopIndex < |f.route| then Next(f.route[f.hopIndex]) else NoHop
  }

  // The index is one byte.
  function Advance(f: Frame): Frame {
    f.(hopIndex := (f.hopIndex + 1) % 256)
  }

  datatype Send = Send(frame: Frame, target: nat, noRelay: bool)

  // What handling a frame leads to: frames to send, a reply or a route for the local node, or
  // an index out of range.
  datatype Outcome = Sends(sends: seq<Send>) | Delivers(reply: Frame) | Syncs(sync: Frame) | Panics

  // The hops before the one that answers, last first, and then the source.
  function ReplyRoute(route: seq<nat>, source: nat, hop: nat): (r: seq<nat>)
    requires 1 <= hop <= |route| + 1
    ensures |r| == hop && r[hop - 1] == source
    ensures forall i :: 0 <= i < hop - 1 ==> r[i] == route[hop - 2 - i]
  {
    seq(hop - 1, i requires 0 <= i < hop - 1 => route[hop - 2 - i]) + [source]
  }

  function Reply(f: Frame): Frame
    requires 1 <= f.hopIndex <= |f.route| + 1
  {
    Frame(true, f.autoReply, false, f.nonce, f.source, 0, f.hopIndex,
          if f.autoReply then [] else ReplyRoute(f.route, f.source, f.hopIndex))
  }

  function HandleReplyFrame(f: Frame): Outcome {
    if f.autoReply then Delivers(f)
    else if NextHop(Advance(f)).Next? then Sends([Send(Advance(f), NextHop(Advance(f)).vip, false)])
    else Delivers(Advance(f))
  }

  function HandleRequest(f: Frame): Outcome {
    var f1 := Advance(f);
    if !f1.autoReply && (f1.hopIndex == 0 || f1.hopIndex - 1 > |f1.route|) then Panics
    else
      var reply := if f1.autoReply then Frame(true, true, false, f1.nonce, f1.source, 0, f1.hopIndex, []) else Reply(f1);
      var target := if f1.autoReply then f1.source else reply.route[0];
      Sends([Send(reply, target, false)] + if NextHop(f1).Next? then [Send(f1, NextHop(f1).vip, true)] else [])
  }

  function Handle(self: nat, dst: nat, f: Frame): Outcome {
    if dst != self then Sends([Send(f, dst, false)])
    else if f.isRouteSync then
      if NextHop(f).Next? then Sends([Send(Advance(f), NextHop(f).vip, true)]) else Syncs(f)
    else if f.isReply then HandleReplyFrame(f)
    else HandleRequest(f)
  }

  // A request at its node that is to be answered along its route, but whose index is beyond
  // that route or the greatest there is.
  predicate Strays(self: nat, dst: nat, f: Frame) {
    dst == self && !f.isRouteSync && !f.isReply && !f.autoReply && (f.hopIndex == 255 || f.hopIndex > |f.route|)
  }

  // Handling a frame runs an index out of range exactly when the frame is one of these.
  lemma PanicsExactly(self: nat, dst: nat, f: Frame)
    requires f.hopIndex < 256
    ensures Handle(self, dst, f).Panics? <==> Strays(self, dst, f)
  {
  }

  // A decoded payload as a frame; addresses are read as numbers.
  function FrameOf(p: Wire.Probe): Frame {
    Frame(p.isReply, p.autoReply, p.isRouteSync, p.nonce, Wire.UnBE(p.source), p.hopIndex as nat, p.origHop as nat,
          seq(|p.route|, i requires 0 <= i < |p.route| => Wire.UnBE(p.route[i])))
  }

  // The fixed part of a payload, all zero but for the index: a request without a route.
  function BarePayload(hopIndex: Wire.byte): Wire.Bytes {
    seq(Wire.PROBE_FIXED, i => if i == 21 then hopIndex else 0)
  }

  // The wire can carry them: no check between the bytes and the handler stops a payload whose
  // index is beyond its route.
  lemma StraysOnTheWire(self: nat, hopIndex: Wire.byte)
    ensures var d := Wire.DecodeProbe(BarePayload(hopIndex));
      d.Probed? && FrameOf(d.probe).hopIndex == hopIndex as nat && (Strays(self, self, FrameOf(d.probe)) <==> hopIndex != 0)
  {
    hide Wire.UnBE, Wire.Signed;
    var s := BarePayload(hopIndex);
    assert s[0] == 0 && s[21] == hopIndex && s[23] == 0;
  }

  // ---------- the network ----------

  // A frame on its way to a node, with the nodes whose own VIP it has met so far.
  datatype Packet = Packet(at: nat, dst: nat, frame: Frame, trail: seq<nat>)

  datatype Got = Got(at: nat, frame: Frame, trail: seq<nat>)

  // got are the replies delivered to the waiting probe, synced the routes handed to the node above.
  datatype Net = Net(inFlight: seq<Packet>, got: seq<Got>, synced: seq<Got>, lossless: bool, relayed: nat, panicked: bool)

  // Via: to another node, which is to send it on. Forbidding relays only keeps a node from
  // choosing one itself; the router's next hop toward the target may still be another node.
  datatype Fate = Dropped | Direct | Via(relay: nat)

  // The packet at an index arrives; what it sends meets these fates.
  datatype Event = Event(index: nat, first: Fate, second: Fate)

  function Carry(s: Send, fate: Fate, trail: seq<nat>): seq<Packet> {
    match fate
    case Dropped => []
    case Direct => [Packet(s.target, s.target, s.frame, trail)]
    case Via(r) => [Packet(r, s.target, s.frame, trail)]
  }

  function Deliver(net: Net, at: nat, f: Frame, trail: seq<nat>): Net {
    if |net.got| < MAX_HOPS then net.(got := net.got + [Got(at, f, trail)]) else net.(lossless := false)
  }

  function Removed<T>(s: seq<T>, i: nat): seq<T>
    requires i < |s|
  {
    s[..i] + s[i + 1..]
  }

  function Arrive(net: Net, e: Event): Net {
    if e.index >= |net.inFlight| then net else Receive(net, e)
  }

  function Receive(net: Net, e: Event): Net
    requires e.index < |net.inFlight|
  {
    var p := net.inFlight[e.index];
    var rest := Removed(net.inFlight, e.index);
    var own := p.dst == p.at;
    var net1 := net.(inFlight := rest);
    var trail := if own then p.trail + [p.at] else p.trail;
    match Handle(p.at, p.dst, p.frame)
    case Panics => net1.(panicked := true, lossless := false)
    case Syncs(f) => net1.(synced := net1.synced + [Got(p.at, f, trail)])
    case Delivers(f) => Deliver(net1, p.at, f, trail)
    case Sends(sends) =>
      var onward := if own && !p.frame.isReply && !p.frame.isRouteSync && |sends| > 0 then Carry(sends[0], e.first, [])
                    else if |sends| > 0 then Carry(sends[0], e.first, trail) else [];
      var request := if |sends| > 1 then Carry(sends[1], e.second, trail) else [];
      net1.(inFlight := rest + onward + request,
            lossless := net.lossless && (|sends| > 0 ==> !e.first.Dropped?) && (|sends| > 1 ==> !e.second.Dropped?),
            relayed := net.relayed + if own then 0 else 1)
  }

  function Run(net: Net, run: seq<Event>): Net {
    if run == [] then net else Arrive(Run(net, run[..|run| - 1]), run[|run| - 1])
  }

  // No event of the run is idle.
  predicate CanRun(net: Net, run: seq<Event>) {
    run == [] || (CanRun(net, run[..|run| - 1]) && run[|run| - 1].index < |Run(net, run[..|run| - 1]).inFlight|)
  }

  // A probe: its route, who asks, and how replies come back.
  datatype Probe = Probe(source: nat, nonce: nat, route: seq<nat>, auto: bool)

  predicate Valid(pr: Probe) {
    1 <= |pr.route| <= MAX_HOPS
  }

  function Request(pr: Probe, h: nat): Frame {
    Frame(false, pr.auto, false, pr.nonce, pr.source, h, 0, pr.route)
  }

  // The first send may use a relay.
  function Start(pr: Probe, fate: Fate): Net
    requires Valid(pr)
  {
    var s := Send(Request(pr, 0), pr.route[0], false);
    Net(Carry(s, fate, []), [], [], !fate.Dropped?, 0, false)
  }

  // ---------- what the packets are ----------

  function BackRoute(pr: Probe, i: nat): (r: seq<nat>)
    requires 1 <= i <= |pr.route|
    ensures |r| == if pr.auto then 1 else i
  {
    if pr.auto then [pr.source] else ReplyRoute(pr.route, pr.source, i)
  }

  function ReplyFrame(pr: Probe, i: nat, k: nat): Frame
    requires 1 <= i <= |pr.route|
  {
    Frame(true, pr.auto, false, pr.nonce, pr.source, k, i, if pr.auto then [] else ReplyRoute(pr.route, pr.source, i))
  }

  // A request on its way to hop h + 1, or a reply of some hop on its way along its back route.
  ghost predicate Genuine(pr: Probe, p: Packet) {
    if !p.frame.isReply then
      && p.frame.hopIndex < |pr.route| && p.frame == Request(pr, p.frame.hopIndex)
      && p.dst == pr.route[p.frame.hopIndex] && p.trail == pr.route[..p.frame.hopIndex]
    else
      var i, k := p.frame.origHop, p.frame.hopIndex;
      && 1 <= i <= |pr.route| && p.frame == ReplyFrame(pr, i, k)
      && k < |BackRoute(pr, i)| && p.dst == BackRoute(pr, i)[k] && p.trail == BackRoute(pr, i)[..k]
  }

  // A delivered reply came back to the source over exactly the back route of its hop.
  ghost predicate Answer(pr: Probe, g: Got) {
    && g.frame.isReply && g.frame.nonce == pr.nonce && g.at == pr.source
    && 1 <= g.frame.origHop <= |pr.route| && g.trail == BackRoute(pr, g.frame.origHop)
  }

  // How many packets, and how many delivered replies, are of hop i; 0 stands for the request.
  function Count(s: seq<Packet>, i: nat): nat {
    if s == [] then 0 else Count(s[..|s| - 1], i) + if s[|s| - 1].frame.origHop == i then 1 else 0
  }

  function GotCount(s: seq<Got>, i: nat): nat {
    if s == [] then 0 else GotCount(s[..|s| - 1], i) + if s[|s| - 1].frame.origHop == i then 1 else 0
  }

  function All(net: Net, i: nat): nat {
    Count(net.inFlight, i) + GotCount(net.got, i)
  }

  lemma {:induction false} CountConcat(s: seq<Packet>, t: seq<Packet>, i: nat)
    ensures Count(s + t, i) == Count(s, i) + Count(t, i)
  {
    if t == [] {
      assert s + t == s;
    } else {
      var n := |t| - 1;
      CountConcat(s, t[..n], i);
      assert (s + t)[..|s + t| - 1] == s + t[..n];
    }
  }

  lemma CountOne(p: Packet, i: nat)
    ensures Count([p], i) == if p.frame.origHop == i then 1 else 0
  {
    assert [p][..0] == [];
  }

  lemma CountRemoved(s: seq<Packet>, n: nat, i: nat)
    requires n < |s|
    ensures Count(s, i) == Count(Removed(s, n), i) + if s[n].frame.origHop == i then 1 else 0
  {
    hide Count;
    CountConcat(s[..n], s[n + 1..], i);
    CountConcat(s[..n], [s[n]], i);
    CountConcat(s[..n] + [s[n]], s[n + 1..], i);
    CountOne(s[n], i);
    assert s == s[..n] + [s[n]] + s[n + 1..];
  }

  lemma {:induction false} CountIn(s: seq<Packet>, p: Packet)
    requires p in s
    ensures Count(s, p.frame.origHop) > 0
  {
    if s[|s| - 1] != p {
      CountIn(s[..|s| - 1], p);
    }
  }

  // ---------- the invariant ----------

  // h is how many hops the request has reached.
  ghost predicate Reached(pr: Probe, net: Net, h: nat) {
    && h <= |pr.route|
    && (forall p :: p in net.inFlight && !p.frame.isReply ==> p.frame.hopIndex == h)
    && ((forall p :: p in net.inFlight ==> p.frame.isReply) ==> net.lossless ==> h == |pr.route|)
  }

  // At most one request and one reply a hop, and no reply of a hop not yet reached; without
  // loss there is one of every hop reached.
  ghost predicate Counted(net: Net, h: nat) {
    && All(net, 0) <= 1
    && (forall i :: 1 <= i <= h ==> All(net, i) <= 1)
    && (forall i :: i > h ==> All(net, i) == 0)
    && (net.lossless ==> forall i :: 1 <= i <= h ==> All(net, i) == 1)
  }

  ghost predicate Inv(pr: Probe, net: Net, h: nat) {
    && !net.panicked
    && (forall p :: p in net.inFlight ==> Genuine(pr, p))
    && (forall g :: g in net.got ==> Answer(pr, g))
    && |net.got| <= h
    && Reached(pr, net, h) && Counted(net, h)
  }

  // ---------- one arrival ----------

  // A packet replaced by at most one other of the same hop; without loss by exactly one.
  lemma Replaced(pr: Probe, net: Net, h: nat, e: Event, onward: seq<Packet>, net1: Net)
    requires Inv(pr, net, h) && e.index < |net.inFlight| && |onward| <= 1
    requires net1.inFlight == Removed(net.inFlight, e.index) + onward && net1.got == net.got && !net1.panicked
    requires net1.lossless ==> net.lossless && |onward| == 1
    requires onward != [] ==>
      var p, q := net.inFlight[e.index], onward[0];
      Genuine(pr, q) && q.frame.origHop == p.frame.origHop && q.frame.isReply == p.frame.isReply &&
      (!p.frame.isReply ==> q.frame.hopIndex == p.frame.hopIndex)
    ensures Inv(pr, net1, h)
  {
    hide Genuine, Answer, Removed, All, Counted, Reached;
    assert net.inFlight[e.index] in net.inFlight;
    ReplacedCounts(net, h, e.index, onward, net1);
    ReplacedPackets(pr, net, h, e.index, onward, net1);
  }

  lemma ReplacedCounts(net: Net, h: nat, n: nat, onward: seq<Packet>, net1: Net)
    requires Counted(net, h) && n < |net.inFlight| && |onward| <= 1
    requires net1.inFlight == Removed(net.inFlight, n) + onward && net1.got == net.got
    requires net1.lossless ==> net.lossless && |onward| == 1
    requires onward != [] ==> onward[0].frame.origHop == net.inFlight[n].frame.origHop
    ensures Counted(net1, h)
  {
    hide Removed, Count, GotCount;
    forall i
      ensures All(net1, i) <= All(net, i) && (net1.lossless ==> All(net1, i) == All(net, i))
    {
      CountRemoved(net.inFlight, n, i);
      CountConcat(Removed(net.inFlight, n), onward, i);
      if onward == [] {
        assert Count(onward, i) == 0 by { NoneCounted(i); }
      } else {
        assert onward == [onward[0]];
        CountOne(onward[0], i);
      }
    }
  }

  lemma NoneCounted(i: nat)
    ensures Count([], i) == 0
  {
  }

  lemma ReplacedPackets(pr: Probe, net: Net, h: nat, n: nat, onward: seq<Packet>, net1: Net)
    requires Reached(pr, net, h) && n < |net.inFlight| && |onward| <= 1
    requires forall p :: p in net.inFlight ==> Genuine(pr, p)
    requires net1.inFlight == Removed(net.inFlight, n) + onward
    requires net1.lossless ==> net.lossless && |onward| == 1
    requires onward != [] ==>
      var p, q := net.inFlight[n], onward[0];
      Genuine(pr, q) && q.frame.isReply == p.frame.isReply && (!p.frame.isReply ==> q.frame.hopIndex == p.frame.hopIndex)
    ensures (forall p :: p in net1.inFlight ==> Genuine(pr, p)) && Reached(pr, net1, h)
  {
    hide Genuine;
    var p := net.inFlight[n];
    assert p in net.inFlight;
    InRemoved(net.inFlight, n);
    hide Removed;
    if net1.lossless && forall q :: q in net1.inFlight ==> q.frame.isReply {
      assert onward[0] in net1.inFlight;
    }
  }

  lemma InRemoved<T>(s: seq<T>, n: nat)
    requires n < |s|
    ensures forall x :: x in Removed(s, n) ==> x in s
    ensures forall x :: x in s ==> x == s[n] || x in Removed(s, n)
  {
  }

  // The request gone on to the next hop, which answers.
  lemma Answered(pr: Probe, net: Net, h: nat, e: Event, onward: seq<Packet>, request: seq<Packet>, net1: Net)
    requires Inv(pr, net, h) && e.index < |net.inFlight| && h < |pr.route|
    requires !net.inFlight[e.index].frame.isReply && |onward| <= 1 && |request| <= 1
    requires net1.inFlight == Removed(net.inFlight, e.index) + onward + request && net1.got == net.got && !net1.panicked
    requires net1.lossless ==> net.lossless && |onward| == 1 && |request| == if h + 1 < |pr.route| then 1 else 0
    requires onward != [] ==> Genuine(pr, onward[0]) && onward[0].frame.isReply && onward[0].frame.origHop == h + 1
    requires request != [] ==>
      Genuine(pr, request[0]) && !request[0].frame.isReply && request[0].frame.hopIndex == h + 1 && request[0].frame.origHop == 0
    ensures Inv(pr, net1, h + 1)
  {
    hide Genuine, Answer, Removed, Count, Counted, Reached;
    RequestAlone(pr, net, h, e.index);
    AnsweredCounts(net, h, e.index, onward, request, net1);
    AnsweredPackets(pr, h, Removed(net.inFlight, e.index), onward, request, net1);
  }

  lemma AnsweredPackets(pr: Probe, h: nat, rest: seq<Packet>, onward: seq<Packet>, request: seq<Packet>, net1: Net)
    requires h < |pr.route| && |onward| <= 1 && |request| <= 1 && net1.inFlight == rest + onward + request
    requires forall q :: q in rest ==> Genuine(pr, q) && q.frame.isReply
    requires onward != [] ==> Genuine(pr, onward[0]) && onward[0].frame.isReply
    requires request != [] ==> Genuine(pr, request[0]) && !request[0].frame.isReply && request[0].frame.hopIndex == h + 1
    requires net1.lossless ==> |request| == if h + 1 < |pr.route| then 1 else 0
    ensures (forall p :: p in net1.inFlight ==> Genuine(pr, p)) && Reached(pr, net1, h + 1)
  {
    hide Genuine;
    InParts(rest, onward, request);
  }

  lemma InParts(rest: seq<Packet>, s: seq<Packet>, t: seq<Packet>)
    requires |s| <= 1 && |t| <= 1
    ensures forall q :: q in rest + s + t ==> q in rest || (s != [] && q == s[0]) || (t != [] && q == t[0])
    ensures t != [] ==> t[0] in rest + s + t
  {
  }

  lemma AnsweredCounts(net: Net, h: nat, n: nat, onward: seq<Packet>, request: seq<Packet>, net1: Net)
    requires Counted(net, h) && n < |net.inFlight| && net.inFlight[n].frame.origHop == 0 && Count(net.inFlight, 0) == 1
    requires |onward| <= 1 && |request| <= 1 && (net1.lossless ==> net.lossless && |onward| == 1)
    requires onward != [] ==> onward[0].frame.origHop == h + 1
    requires request != [] ==> request[0].frame.origHop == 0
    requires net1.inFlight == Removed(net.inFlight, n) + onward + request && net1.got == net.got
    ensures Counted(net1, h + 1)
  {
    var rest := Removed(net.inFlight, n);
    forall i
      ensures All(net1, i) == All(net, i) - (if i == 0 then 1 else 0) + (if i == 0 then |request| else 0)
                              + if i == h + 1 then |onward| else 0
    {
      CountRemoved(net.inFlight, n, i);
      CountConcat(rest, onward, i);
      CountConcat(rest + onward, request, i);
      CountShort(onward, h + 1, i);
      CountShort(request, 0, i);
    }
  }

  lemma CountShort(s: seq<Packet>, hop: nat, i: nat)
    requires |s| <= 1 && (s != [] ==> s[0].frame.origHop == hop)
    ensures Count(s, i) == if i == hop then |s| else 0
  {
    if s != [] {
      assert s == [s[0]];
      CountOne(s[0], i);
    }
  }

  // Beside the request only replies are on their way.
  lemma RequestAlone(pr: Probe, net: Net, h: nat, n: nat)
    requires Inv(pr, net, h) && n < |net.inFlight| && !net.inFlight[n].frame.isReply
    ensures forall q :: q in Removed(net.inFlight, n) ==> q.frame.isReply && Genuine(pr, q)
    ensures net.inFlight[n].frame.origHop == 0 && Count(net.inFlight, 0) == 1
  {
    var rest := Removed(net.inFlight, n);
    assert Genuine(pr, net.inFlight[n]);
    CountIn(net.inFlight, net.inFlight[n]);
    CountRemoved(net.inFlight, n, 0);
    forall q | q in rest
      ensures q.frame.isReply && Genuine(pr, q)
    {
      assert q in net.inFlight;
      if !q.frame.isReply {
        CountIn(rest, q);
      }
    }
  }

  // A reply handed to the caller of the probe.
  lemma Delivered(pr: Probe, net: Net, h: nat, e: Event, g: Got, net1: Net)
    requires Valid(pr) && Inv(pr, net, h) && e.index < |net.inFlight| && net.inFlight[e.index].frame.isReply
    requires g.frame.origHop == net.inFlight[e.index].frame.origHop && Answer(pr, g)
    requires net1 == Deliver(net.(inFlight := Removed(net.inFlight, e.index)), g.at, g.frame, g.trail)
    ensures Inv(pr, net1, h) && net1.got == net.got + [g] && net1.lossless == net.lossless
  {
    var p := net.inFlight[e.index];
    GotBounded(pr, net, h, e.index);
    hide Genuine, Answer, Removed, All;
    assert p in net.inFlight;
    InRemoved(net.inFlight, e.index);
    forall i
      ensures All(net1, i) == All(net, i)
    {
      DeliveredCount(net, e.index, g, net1, i);
    }
  }

  lemma DeliveredCount(net: Net, n: nat, g: Got, net1: Net, i: nat)
    requires n < |net.inFlight| && g.frame.origHop == net.inFlight[n].frame.origHop
    requires net1.inFlight == Removed(net.inFlight, n) && net1.got == net.got + [g]
    ensures All(net1, i) == All(net, i)
  {
    hide Removed, Count;
    CountRemoved(net.inFlight, n, i);
    assert net1.got[..|net1.got| - 1] == net.got;
  }

  // While a reply is on its way, fewer than h have been delivered.
  lemma GotBounded(pr: Probe, net: Net, h: nat, n: nat)
    requires Inv(pr, net, h) && n < |net.inFlight| && net.inFlight[n].frame.isReply
    ensures |net.got| < h
  {
    var i := net.inFlight[n].frame.origHop;
    CountIn(net.inFlight, net.inFlight[n]);
    assert Genuine(pr, net.inFlight[n]);
    assert All(net, i) <= 1;
    forall g | g in net.got
      ensures 1 <= g.frame.origHop <= h
    {
      GotIn(net.got, g);
      assert Answer(pr, g) && All(net, g.frame.origHop) > 0;
    }
    assert forall j :: All(net, j) >= GotCount(net.got, j);
    GotSum(net.got, h, i);
  }

  lemma {:induction false} GotSum(got: seq<Got>, h: nat, i: nat)
    requires 1 <= i <= h && GotCount(got, i) == 0
    requires forall g :: g in got ==> 1 <= g.frame.origHop <= h
    requires forall j :: 1 <= j <= h ==> GotCount(got, j) <= 1
    ensures |got| < h
  {
    GotDistinct(got, h);
    var hops := HopsOf(got);
    UpToIs(h);
    var bag := UpTo(h) - {i};
    forall n | 0 <= n < |hops|
      ensures hops[n] in bag
    {
      GotIn(got, got[n]);
    }
    DistinctFits(hops, bag);
  }

  function HopsOf(got: seq<Got>): seq<nat> {
    seq(|got|, n requires 0 <= n < |got| => got[n].frame.origHop)
  }

  lemma {:induction false} GotIn(got: seq<Got>, g: Got)
    requires g in got
    ensures GotCount(got, g.frame.origHop) > 0
  {
    if got[|got| - 1] != g {
      GotIn(got[..|got| - 1], g);
    }
  }

  lemma {:induction false} GotDistinct(got: seq<Got>, h: nat)
    requires forall g :: g in got ==> 1 <= g.frame.origHop <= h
    requires forall j :: 1 <= j <= h ==> GotCount(got, j) <= 1
    ensures Distinct(HopsOf(got))
  {
    if got != [] {
      var n := |got| - 1;
      var f := got[..n];
      assert forall g :: g in f ==> g in got;
      assert forall j :: GotCount(got, j) >= GotCount(f, j);
      GotDistinct(f, h);
      forall m | 0 <= m < n
        ensures got[m].frame.origHop != got[n].frame.origHop
      {
        GotIn(f, got[m]);
        assert got[n] in got;
      }
      assert forall m :: 0 <= m < n ==> HopsOf(f)[m] == HopsOf(got)[m];
    }
  }

  function UpTo(h: nat): set<nat> {
    if h == 0 then {} else UpTo(h - 1) + {h}
  }

  lemma {:induction false} UpToIs(h: nat)
    ensures |UpTo(h)| == h && forall j :: j in UpTo(h) <==> 1 <= j <= h
  {
    if h > 0 {
      UpToIs(h - 1);
    }
  }

  lemma TrailGrows(t: seq<nat>, k: nat)
    requires k < |t|
    ensures t[..k] + [t[k]] == t[..k + 1]
  {
  }

  lemma RelayArrives(pr: Probe, net: Net, h: nat, e: Event)
    requires Inv(pr, net, h) && e.index < |net.inFlight| && net.inFlight[e.index].dst != net.inFlight[e.index].at
    ensures Inv(pr, Arrive(net, e), h)
  {
    var p := net.inFlight[e.index];
    assert p in net.inFlight && Genuine(pr, p);
    var onward := Carry(Send(p.frame, p.dst, false), e.first, p.trail);
    var net1 := Arrive(net, e);
    assert net1.inFlight == Removed(net.inFlight, e.index) + onward;
    assert onward != [] ==> Genuine(pr, onward[0]);
    hide Genuine, Arrive, Receive;
    Replaced(pr, net, h, e, onward, net1);
  }

  // A reply at a node of its back route goes on to the next, or is delivered at the last.
  lemma HandleReply(pr: Probe, p: Packet)
    requires Valid(pr) && Genuine(pr, p) && p.frame.isReply && p.dst == p.at
    ensures var i, k := p.frame.origHop, p.frame.hopIndex;
      if k + 1 < |BackRoute(pr, i)| then
        Handle(p.at, p.dst, p.frame) == Sends([Send(ReplyFrame(pr, i, k + 1), BackRoute(pr, i)[k + 1], false)])
      else
        && Handle(p.at, p.dst, p.frame).Delivers?
        && Answer(pr, Got(p.at, Handle(p.at, p.dst, p.frame).reply, p.trail + [p.at]))
        && Handle(p.at, p.dst, p.frame).reply.origHop == i
  {
    var i, k := p.frame.origHop, p.frame.hopIndex;
    TrailGrows(BackRoute(pr, i), k);
    StepsBack(pr, i, k);
    assert Handle(p.at, p.dst, p.frame) == HandleReplyFrame(p.frame);
    hide ReplyFrame, BackRoute, Handle;
    if k + 1 == |BackRoute(pr, i)| {
      assert BackRoute(pr, i)[..k + 1] == BackRoute(pr, i);
    }
  }

  lemma StepsBack(pr: Probe, i: nat, k: nat)
    requires Valid(pr) && 1 <= i <= |pr.route| && k < |BackRoute(pr, i)|
    ensures var f := ReplyFrame(pr, i, k);
      && f.isReply && f.nonce == pr.nonce && f.origHop == i && BackRoute(pr, i)[|BackRoute(pr, i)| - 1] == pr.source
      && HandleReplyFrame(f) ==
         if k + 1 < |BackRoute(pr, i)| then Sends([Send(ReplyFrame(pr, i, k + 1), BackRoute(pr, i)[k + 1], false)])
         else Delivers(if pr.auto then f else ReplyFrame(pr, i, k + 1))
    ensures var f := ReplyFrame(pr, i, k + 1); f.isReply && f.nonce == pr.nonce && f.origHop == i
  {
    hide ReplyRoute;
    if !pr.auto {
      assert Advance(ReplyFrame(pr, i, k)) == ReplyFrame(pr, i, k + 1);
    }
  }

  lemma ReplyArrives(pr: Probe, net: Net, h: nat, e: Event)
    requires Valid(pr) && Inv(pr, net, h) && e.index < |net.inFlight|
    requires net.inFlight[e.index].frame.isReply && net.inFlight[e.index].dst == net.inFlight[e.index].at
    ensures Inv(pr, Arrive(net, e), h)
  {
    var p := net.inFlight[e.index];
    assert p in net.inFlight && Genuine(pr, p);
    if p.frame.hopIndex + 1 < |BackRoute(pr, p.frame.origHop)| {
      var onward := ReplyCarried(pr, net, e);
      hide Genuine, Arrive, Removed, BackRoute;
      Replaced(pr, net, h, e, onward, Arrive(net, e));
    } else {
      HandleReply(pr, p);
      var net1 := Arrive(net, e);
      hide Genuine, Handle, Answer, Inv;
      Delivered(pr, net, h, e, Got(p.at, Handle(p.at, p.dst, p.frame).reply, p.trail + [p.at]), net1);
    }
  }

  // What the arrival of a reply leaves on its way in its place, while its back route goes on.
  lemma ReplyCarried(pr: Probe, net: Net, e: Event) returns (onward: seq<Packet>)
    requires Valid(pr) && e.index < |net.inFlight| && Genuine(pr, net.inFlight[e.index])
    requires var p := net.inFlight[e.index];
      p.frame.isReply && p.dst == p.at && p.frame.hopIndex + 1 < |BackRoute(pr, p.frame.origHop)|
    ensures var net1 := Arrive(net, e);
      && net1.inFlight == Removed(net.inFlight, e.index) + onward && net1.got == net.got && net1.panicked == net.panicked
      && (net1.lossless ==> net.lossless && |onward| == 1) && |onward| <= 1
    ensures onward != [] ==>
      var f, g := net.inFlight[e.index].frame, onward[0].frame;
      Genuine(pr, onward[0]) && g.isReply && g.origHop == f.origHop && g.hopIndex == f.hopIndex + 1
  {
    hide Genuine, Handle, Arrive, Removed, BackRoute, ReplyFrame, Carry;
    var p := net.inFlight[e.index];
    var i, k := p.frame.origHop, p.frame.hopIndex;
    ReplyTrail(pr, p);
    var trail := BackRoute(pr, i)[..k + 1];
    HandleReply(pr, p);
    var s := Send(ReplyFrame(pr, i, k + 1), BackRoute(pr, i)[k + 1], false);
    onward := Carry(s, e.first, trail);
    ReplyGenuine(pr, i, k + 1, e.first);
    ReplyMoves(net, e, s, trail);
  }

  lemma ReplyTrail(pr: Probe, p: Packet)
    requires Genuine(pr, p) && p.frame.isReply && p.dst == p.at
    ensures var i, k := p.frame.origHop, p.frame.hopIndex;
      1 <= i <= |pr.route| && k < |BackRoute(pr, i)| && p.trail + [p.at] == BackRoute(pr, i)[..k + 1]
  {
    TrailGrows(BackRoute(pr, p.frame.origHop), p.frame.hopIndex);
  }

  lemma ReplyMoves(net: Net, e: Event, s: Send, trail: seq<nat>)
    requires e.index < |net.inFlight|
    requires var p := net.inFlight[e.index];
      && p.frame.isReply && p.dst == p.at && p.trail + [p.at] == trail
      && Handle(p.at, p.dst, p.frame) == Sends([s])
    ensures var net1 := Arrive(net, e);
      var onward := Carry(s, e.first, trail);
      && net1.inFlight == Removed(net.inFlight, e.index) + onward && net1.got == net.got
      && net1.panicked == net.panicked && (net1.lossless ==> net.lossless && |onward| == 1) && |onward| <= 1
  {
    hide Handle;
  }

  // A request at a hop: the reply of that hop, and the request for the next one if there is one.
  lemma HandleGenuineRequest(pr: Probe, p: Packet)
    requires Valid(pr) && Genuine(pr, p) && !p.frame.isReply && p.dst == p.at
    ensures var h := p.frame.hopIndex;
      Handle(p.at, p.dst, p.frame) == Sends([Send(ReplyFrame(pr, h + 1, 0), BackRoute(pr, h + 1)[0], false)] +
        if h + 1 < |pr.route| then [Send(Request(pr, h + 1), pr.route[h + 1], true)] else [])
  {
    var f, h := p.frame, p.frame.hopIndex;
    hide ReplyRoute;
    assert Advance(f) == Request(pr, h + 1);
    assert Handle(p.at, p.dst, f) == HandleRequest(f);
    if !pr.auto {
      assert Reply(Request(pr, h + 1)) == ReplyFrame(pr, h + 1, 0);
    }
  }

  lemma RequestMoves(net: Net, e: Event, reply: Send, next: seq<Send>, trail: seq<nat>)
    requires e.index < |net.inFlight| && |next| <= 1
    requires var p := net.inFlight[e.index];
      && !p.frame.isReply && !p.frame.isRouteSync && p.dst == p.at && p.trail + [p.at] == trail
      && Handle(p.at, p.dst, p.frame) == Sends([reply] + next)
    ensures var net1 := Arrive(net, e);
      var onward := Carry(reply, e.first, []);
      var request := if next == [] then [] else Carry(next[0], e.second, trail);
      && net1.inFlight == Removed(net.inFlight, e.index) + onward + request && net1.got == net.got
      && net1.panicked == net.panicked
      && (net1.lossless ==> net.lossless && |onward| == 1 && |request| == |next|) && |onward| <= 1 && |request| <= 1
  {
    var net1 := Arrive(net, e);
    var sends := [reply] + next;
    hide Handle;
  }

  lemma ReplyGenuine(pr: Probe, i: nat, k: nat, fate: Fate)
    requires 1 <= i <= |pr.route| && k < |BackRoute(pr, i)|
    ensures var s := Carry(Send(ReplyFrame(pr, i, k), BackRoute(pr, i)[k], false), fate, BackRoute(pr, i)[..k]);
      |s| <= 1 && (s != [] ==> Genuine(pr, s[0]) && s[0].frame.isReply && s[0].frame.origHop == i && s[0].frame.hopIndex == k)
  {
  }

  lemma RequestGenuine(pr: Probe, h: nat, fate: Fate)
    requires h < |pr.route|
    ensures var s := Carry(Send(Request(pr, h), pr.route[h], true), fate, pr.route[..h]);
      |s| <= 1 && (s != [] ==> Genuine(pr, s[0]) && !s[0].frame.isReply && s[0].frame.hopIndex == h && s[0].frame.origHop == 0)
  {
  }

  // What the arrival of the request leaves on its way in its place.
  lemma RequestCarried(pr: Probe, net: Net, h: nat, e: Event) returns (onward: seq<Packet>, request: seq<Packet>)
    requires Valid(pr) && Inv(pr, net, h) && e.index < |net.inFlight|
    requires !net.inFlight[e.index].frame.isReply && net.inFlight[e.index].dst == net.inFlight[e.index].at
    ensures h < |pr.route| && |onward| <= 1 && |request| <= 1
    ensures var net1 := Arrive(net, e);
      && net1.inFlight == Removed(net.inFlight, e.index) + onward + request && net1.got == net.got && !net1.panicked
      && (net1.lossless ==> net.lossless && |onward| == 1 && |request| == if h + 1 < |pr.route| then 1 else 0)
    ensures onward != [] ==> Genuine(pr, onward[0]) && onward[0].frame.isReply && onward[0].frame.origHop == h + 1
    ensures request != [] ==>
      Genuine(pr, request[0]) && !request[0].frame.isReply && request[0].frame.hopIndex == h + 1 && request[0].frame.origHop == 0
  {
    hide Genuine, Handle, Arrive, Inv, ReplyFrame, BackRoute, Request, Removed;
    var p := net.inFlight[e.index];
    RequestHere(pr, net, h, e.index);
    var trail := pr.route[..h + 1];
    assert p.trail + [p.at] == trail by {
      TrailGrows(pr.route, h);
    }
    assert BackRoute(pr, h + 1)[..0] == [];
    HandleGenuineRequest(pr, p);
    var reply := Send(ReplyFrame(pr, h + 1, 0), BackRoute(pr, h + 1)[0], false);
    var next := if h + 1 < |pr.route| then [Send(Request(pr, h + 1), pr.route[h + 1], true)] else [];
    RequestMoves(net, e, reply, next, trail);
    onward := Carry(reply, e.first, []);
    request := if next == [] then [] else Carry(next[0], e.second, trail);
    ReplyGenuine(pr, h + 1, 0, e.first);
    if next != [] {
      RequestGenuine(pr, h + 1, e.second);
    }
  }

  lemma RequestArrives(pr: Probe, net: Net, h: nat, e: Event)
    requires Valid(pr) && Inv(pr, net, h) && e.index < |net.inFlight|
    requires !net.inFlight[e.index].frame.isReply && net.inFlight[e.index].dst == net.inFlight[e.index].at
    ensures Inv(pr, Arrive(net, e), h + 1)
  {
    hide Genuine, Arrive, Inv, Removed;
    var onward, request := RequestCarried(pr, net, h, e);
    Answered(pr, net, h, e, onward, request, Arrive(net, e));
  }

  lemma RequestHere(pr: Probe, net: Net, h: nat, n: nat)
    requires Valid(pr) && Inv(pr, net, h) && n < |net.inFlight| && !net.inFlight[n].frame.isReply
    requires net.inFlight[n].dst == net.inFlight[n].at
    ensures var p := net.inFlight[n];
      && Genuine(pr, p) && p.frame.hopIndex == h < |pr.route| && p.trail == pr.route[..h] && p.at == pr.route[h]
      && !p.frame.isRouteSync && !net.panicked
  {
    assert net.inFlight[n] in net.inFlight;
  }

  // h hops have been reached, and this arrival is at one more.
  predicate Advances(net: Net, e: Event) {
    e.index < |net.inFlight| && !net.inFlight[e.index].frame.isReply && net.inFlight[e.index].dst == net.inFlight[e.index].at
  }

  lemma ArriveInv(pr: Probe, net: Net, h: nat, e: Event)
    requires Valid(pr) && Inv(pr, net, h)
    ensures Inv(pr, Arrive(net, e), if Advances(net, e) then h + 1 else h)
  {
    hide Inv, Receive;
    if e.index < |net.inFlight| {
      var p := net.inFlight[e.index];
      if p.dst != p.at {
        RelayArrives(pr, net, h, e);
      } else if p.frame.isReply {
        ReplyArrives(pr, net, h, e);
      } else {
        RequestArrives(pr, net, h, e);
      }
    }
  }

  lemma FirstGenuine(pr: Probe, fate: Fate)
    requires Valid(pr)
    ensures var s := Start(pr, fate).inFlight;
      |s| <= 1 && (s != [] ==> Genuine(pr, s[0]) && !s[0].frame.isReply && s[0].frame.hopIndex == 0 && s[0].frame.origHop == 0)
    ensures var net := Start(pr, fate);
      net.got == [] && !net.panicked && (fate.Dropped? ==> net.inFlight == []) && (net.lossless ==> net.inFlight != [])
  {
    assert pr.route[..0] == [];
  }

  lemma StartInv(pr: Probe, fate: Fate)
    requires Valid(pr)
    ensures Inv(pr, Start(pr, fate), 0) || (fate.Dropped? && Start(pr, fate).inFlight == [])
    ensures fate.Dropped? ==> Inv(pr, Start(pr, fate), 0)
  {
    hide Genuine, Answer, Request, Count, GotCount, Start;
    var net := Start(pr, fate);
    FirstGenuine(pr, fate);
    forall i
      ensures All(net, i) == if net.inFlight != [] && i == 0 then 1 else 0
    {
      CountShort(net.inFlight, 0, i);
      NoneGot(i);
    }
  }

  lemma NoneGot(i: nat)
    ensures GotCount([], i) == 0
  {
  }

  lemma {:induction false} RunInv(pr: Probe, fate: Fate, run: seq<Event>) returns (h: nat)
    requires Valid(pr)
    ensures Inv(pr, Run(Start(pr, fate), run), h)
  {
    hide Inv, Arrive, Start;
    if run == [] {
      StartInv(pr, fate);
      h := 0;
    } else {
      var n := |run| - 1;
      var net := Run(Start(pr, fate), run[..n]);
      h := RunInv(pr, fate, run[..n]);
      ArriveInv(pr, net, h, run[n]);
      h := if Advances(net, run[n]) then h + 1 else h;
    }
  }

  // ---------- what a probe learns ----------

  // Whatever is dropped, relayed or reordered: every reply delivered is of some hop, came back
  // over exactly that hop's back route, and no hop answers twice.
  lemma AtMostOnce(pr: Probe, fate: Fate, run: seq<Event>)
    requires Valid(pr)
    ensures var net := Run(Start(pr, fate), run);
      && !net.panicked
      && (forall g :: g in net.got ==> Answer(pr, g))
      && (forall i, j :: 0 <= i < j < |net.got| ==> net.got[i].frame.origHop != net.got[j].frame.origHop)
  {
    var h := RunInv(pr, fate, run);
    var net := Run(Start(pr, fate), run);
    forall g | g in net.got
      ensures 1 <= g.frame.origHop <= h
    {
      GotIn(net.got, g);
      assert Answer(pr, g) && All(net, g.frame.origHop) > 0;
    }
    assert forall j :: All(net, j) >= GotCount(net.got, j);
    GotDistinct(net.got, h);
    assert forall i :: 0 <= i < |net.got| ==> HopsOf(net.got)[i] == net.got[i].frame.origHop;
  }

  // Without loss, once nothing is on its way, every hop has answered exactly once.
  lemma ExactlyOnce(pr: Probe, fate: Fate, run: seq<Event>)
    requires Valid(pr)
    ensures var net := Run(Start(pr, fate), run);
      net.lossless && net.inFlight == [] ==>
        && |net.got| == |pr.route|
        && forall i :: 1 <= i <= |pr.route| ==> GotCount(net.got, i) == 1
  {
    var h := RunInv(pr, fate, run);
    var net := Run(Start(pr, fate), run);
    if net.lossless && net.inFlight == [] {
      assert h == |pr.route|;
      forall i | 1 <= i <= h
        ensures GotCount(net.got, i) == 1
      {
        assert All(net, i) == 1;
      }
      AllGot(net.got, h);
    }
  }

  lemma {:induction false} AllGot(got: seq<Got>, h: nat)
    requires forall i :: 1 <= i <= h ==> GotCount(got, i) >= 1
    ensures |got| >= h
  {
    UpToIs(h);
    forall i | i in UpTo(h)
      ensures i in HopsOf(got)
    {
      var g := GotHas(got, i);
      var n :| 0 <= n < |got| && got[n] == g;
      assert HopsOf(got)[n] == i;
    }
    SubsetOfSeq(HopsOf(got), UpTo(h));
  }

  lemma {:induction false} GotHas(got: seq<Got>, i: nat) returns (g: Got)
    requires GotCount(got, i) >= 1
    ensures g in got && g.frame.origHop == i
  {
    if got[|got| - 1].frame.origHop == i {
      g := got[|got| - 1];
    } else {
      g := GotHas(got[..|got| - 1], i);
    }
  }

  // ---------- every run ends ----------

  // How many more arrivals the request at hop h can lead to: its own at the next hop, those of
  // that hop's reply, and so on.
  function Left(pr: Probe, h: nat): nat
    decreases |pr.route| - h
  {
    if h >= |pr.route| then 0 else 1 + |BackRoute(pr, h + 1)| + Left(pr, h + 1)
  }

  ghost function Weight(pr: Probe, p: Packet): nat {
    if !Genuine(pr, p) then 0
    else if !p.frame.isReply then Left(pr, p.frame.hopIndex)
    else |BackRoute(pr, p.frame.origHop)| - p.frame.hopIndex
  }

  ghost function Total(pr: Probe, s: seq<Packet>): nat {
    if s == [] then 0 else Total(pr, s[..|s| - 1]) + Weight(pr, s[|s| - 1])
  }

  lemma {:induction false} TotalConcat(pr: Probe, s: seq<Packet>, t: seq<Packet>)
    ensures Total(pr, s + t) == Total(pr, s) + Total(pr, t)
  {
    hide Weight, Genuine;
    if t == [] {
      assert s + t == s;
    } else {
      var n := |t| - 1;
      TotalConcat(pr, s, t[..n]);
      assert (s + t)[..|s + t| - 1] == s + t[..n];
    }
  }

  lemma TotalShort(pr: Probe, s: seq<Packet>)
    requires |s| <= 1
    ensures Total(pr, s) == if s == [] then 0 else Weight(pr, s[0])
  {
    if s != [] {
      assert s[..0] == [];
    }
  }

  lemma TotalRemoved(pr: Probe, s: seq<Packet>, n: nat)
    requires n < |s|
    ensures Total(pr, s) == Total(pr, Removed(s, n)) + Weight(pr, s[n])
  {
    hide Weight, Total;
    TotalConcat(pr, s[..n], s[n + 1..]);
    TotalConcat(pr, s[..n], [s[n]]);
    TotalConcat(pr, s[..n] + [s[n]], s[n + 1..]);
    TotalShort(pr, [s[n]]);
    assert s == s[..n] + [s[n]] + s[n + 1..];
  }

  lemma TotalAfter(pr: Probe, net: Net, n: nat, onward: seq<Packet>, request: seq<Packet>, net1: Net)
    requires n < |net.inFlight| && |onward| <= 1 && |request| <= 1
    requires net1.inFlight == Removed(net.inFlight, n) + onward + request
    ensures Total(pr, net1.inFlight) == Total(pr, net.inFlight) - Weight(pr, net.inFlight[n])
      + (if onward == [] then 0 else Weight(pr, onward[0])) + (if request == [] then 0 else Weight(pr, request[0]))
  {
    hide Weight, Total, Removed;
    TotalRemoved(pr, net.inFlight, n);
    TotalConcat(pr, Removed(net.inFlight, n), onward);
    TotalConcat(pr, Removed(net.inFlight, n) + onward, request);
    TotalShort(pr, onward);
    TotalShort(pr, request);
  }

  // Handing over to a relay keeps the weight at most as it is; any other arrival lowers it.
  lemma ArriveLowers(pr: Probe, net: Net, h: nat, e: Event)
    requires Valid(pr) && Inv(pr, net, h) && e.index < |net.inFlight|
    ensures var net1 := Arrive(net, e);
      Total(pr, net1.inFlight) + 1 <= Total(pr, net.inFlight) + (net1.relayed - net.relayed)
    ensures net.relayed <= Arrive(net, e).relayed
  {
    var p := net.inFlight[e.index];
    var net1 := Arrive(net, e);
    assert p in net.inFlight && Genuine(pr, p);
    if p.dst != p.at {
      var onward := Carry(Send(p.frame, p.dst, false), e.first, p.trail);
      assert net1.inFlight == Removed(net.inFlight, e.index) + onward + [];
      assert onward != [] ==> Weight(pr, onward[0]) == Weight(pr, p);
      hide Arrive, Weight;
      TotalAfter(pr, net, e.index, onward, [], net1);
    } else if p.frame.isReply {
      HandleReply(pr, p);
      ReplyLowers(pr, net, e);
    } else {
      RequestLowers(pr, net, h, e);
    }
  }

  lemma ReplyLowers(pr: Probe, net: Net, e: Event)
    requires Valid(pr) && e.index < |net.inFlight| && Genuine(pr, net.inFlight[e.index])
    requires net.inFlight[e.index].frame.isReply && net.inFlight[e.index].dst == net.inFlight[e.index].at
    ensures Total(pr, Arrive(net, e).inFlight) + 1 <= Total(pr, net.inFlight) && Arrive(net, e).relayed == net.relayed
  {
    var p := net.inFlight[e.index];
    GenuineWeight(pr, p);
    OwnNotRelayed(net, e);
    if p.frame.hopIndex + 1 < |BackRoute(pr, p.frame.origHop)| {
      var onward := ReplyCarried(pr, net, e);
      hide Genuine, Weight, Arrive, Removed, BackRoute, Total;
      assert net.inFlight[e.index] == p;
      if onward != [] {
        GenuineWeight(pr, onward[0]);
      }
      TotalAfter(pr, net, e.index, onward, [], Arrive(net, e));
    } else {
      HandleReply(pr, p);
      hide Handle, Genuine, Weight, Arrive, Removed, Total;
      DeliveryRemoves(net, e);
      TotalAfter(pr, net, e.index, [], [], Arrive(net, e));
    }
  }

  lemma GenuineWeight(pr: Probe, p: Packet)
    requires Genuine(pr, p)
    ensures p.frame.isReply ==> p.frame.hopIndex < |BackRoute(pr, p.frame.origHop)|
    ensures Weight(pr, p) ==
      if p.frame.isReply then |BackRoute(pr, p.frame.origHop)| - p.frame.hopIndex
      else 1 + |BackRoute(pr, p.frame.hopIndex + 1)| + Left(pr, p.frame.hopIndex + 1)
  {
  }

  lemma DeliveryRemoves(net: Net, e: Event)
    requires e.index < |net.inFlight|
    requires var p := net.inFlight[e.index]; Handle(p.at, p.dst, p.frame).Delivers?
    ensures Arrive(net, e).inFlight == Removed(net.inFlight, e.index) + [] + []
  {
    hide Handle;
  }

  lemma RequestLowers(pr: Probe, net: Net, h: nat, e: Event)
    requires Valid(pr) && Inv(pr, net, h) && e.index < |net.inFlight|
    requires !net.inFlight[e.index].frame.isReply && net.inFlight[e.index].dst == net.inFlight[e.index].at
    ensures Total(pr, Arrive(net, e).inFlight) + 1 <= Total(pr, net.inFlight) && Arrive(net, e).relayed == net.relayed
  {
    hide Inv, Genuine, Arrive, Weight, Left, BackRoute, Removed, Total;
    RequestHere(pr, net, h, e.index);
    GenuineWeight(pr, net.inFlight[e.index]);
    var onward, request := RequestCarried(pr, net, h, e);
    if onward != [] {
      GenuineWeight(pr, onward[0]);
    }
    if request != [] {
      RequestWeight(pr, request[0]);
    }
    OwnNotRelayed(net, e);
    TotalAfter(pr, net, e.index, onward, request, Arrive(net, e));
  }

  lemma RequestWeight(pr: Probe, p: Packet)
    requires Genuine(pr, p) && !p.frame.isReply
    ensures Weight(pr, p) == Left(pr, p.frame.hopIndex)
  {
  }

  lemma OwnNotRelayed(net: Net, e: Event)
    requires e.index < |net.inFlight| && net.inFlight[e.index].dst == net.inFlight[e.index].at
    ensures Arrive(net, e).relayed == net.relayed
  {
    hide Handle;
  }

  // A run is no longer than the route allows for, plus one for every hand-over to a relay.
  lemma {:induction false} RunsEnd(pr: Probe, fate: Fate, run: seq<Event>)
    requires Valid(pr) && CanRun(Start(pr, fate), run)
    ensures var net := Run(Start(pr, fate), run);
      |run| + Total(pr, net.inFlight) <= Left(pr, 0) + net.relayed
  {
    var net0 := Start(pr, fate);
    if run == [] {
      TotalShort(pr, net0.inFlight);
    } else {
      var n := |run| - 1;
      hide Start, Total, Left;
      RunsEnd(pr, fate, run[..n]);
      var h := RunInv(pr, fate, run[..n]);
      hide Inv, Arrive;
      ArriveLowers(pr, Run(net0, run[..n]), h, run[n]);
    }
  }

  lemma {:induction false} LeftIs(pr: Probe, h: nat)
    requires h <= |pr.route|
    ensures var n := |pr.route|;
      2 * Left(pr, h) == if pr.auto then 4 * (n - h) else n * (n + 3) - h * (h + 3)
    decreases |pr.route| - h
  {
    if h < |pr.route| {
      LeftIs(pr, h + 1);
      assert (h + 1) * (h + 4) == h * (h + 3) + 2 * h + 4;
    }
  }

  predicate NoRelays(fate: Fate, run: seq<Event>) {
    !fate.Via? && forall i :: 0 <= i < |run| ==> !run[i].first.Via? && !run[i].second.Via?
  }

  lemma {:induction false} DirectOnly(pr: Probe, fate: Fate, run: seq<Event>)
    requires Valid(pr) && NoRelays(fate, run)
    ensures var net := Run(Start(pr, fate), run);
      net.relayed == 0 && forall p :: p in net.inFlight ==> p.at == p.dst
  {
    if run != [] {
      var n := |run| - 1;
      DirectOnly(pr, fate, run[..n]);
      hide Handle, Start, Run;
      var net := Run(Start(pr, fate), run[..n]);
      assert Run(Start(pr, fate), run) == Arrive(net, run[n]) by {
        RunStep(Start(pr, fate), run);
      }
      DirectStep(net, run[n]);
    }
  }

  lemma RunStep(net: Net, run: seq<Event>)
    requires run != []
    ensures Run(net, run) == Arrive(Run(net, run[..|run| - 1]), run[|run| - 1])
  {
  }

  lemma DirectStep(net: Net, e: Event)
    requires !e.first.Via? && !e.second.Via? && net.relayed == 0 && forall p :: p in net.inFlight ==> p.at == p.dst
    ensures Arrive(net, e).relayed == 0 && forall p :: p in Arrive(net, e).inFlight ==> p.at == p.dst
  {
    hide Handle;
  }

  // With every send direct or dropped, a probe of n hops causes at most n(n + 3) / 2 arrivals
  // when replies come back over the route, and 2n when they do not.
  lemma ProbeBounded(pr: Probe, fate: Fate, run: seq<Event>)
    requires Valid(pr) && NoRelays(fate, run) && CanRun(Start(pr, fate), run)
    ensures var n := |pr.route|;
      2 * |run| <= if pr.auto then 4 * n else n * (n + 3)
  {
    RunsEnd(pr, fate, run);
    DirectOnly(pr, fate, run);
    LeftIs(pr, 0);
  }

  // Who holds the frame after n hand-overs between a and b, starting at a.
  function Turn(a: nat, b: nat, n: nat): nat
    decreases n
  {
    if n == 0 then a else Turn(b, a, n - 1)
  }

  function PingPong(a: nat, b: nat, n: nat): seq<Event> {
    if n == 0 then [] else PingPong(a, b, n - 1) + [Event(0, Via(Turn(a, b, n)), Dropped)]
  }

  lemma HandOver(net: Net, r: nat)
    requires |net.inFlight| == 1 && net.inFlight[0].at != net.inFlight[0].dst
    ensures Arrive(net, Event(0, Via(r), Dropped)).inFlight == [net.inFlight[0].(at := r)]
  {
    assert Removed(net.inFlight, 0) == [];
  }

  lemma HandOverNext(net0: Net, run: seq<Event>, r: nat)
    requires CanRun(net0, run) && |Run(net0, run).inFlight| == 1
    requires Run(net0, run).inFlight[0].at != Run(net0, run).inFlight[0].dst
    ensures var more := run + [Event(0, Via(r), Dropped)];
      CanRun(net0, more) && Run(net0, more).inFlight == [Run(net0, run).inFlight[0].(at := r)]
  {
    var more := run + [Event(0, Via(r), Dropped)];
    assert more[..|more| - 1] == run;
    HandOver(Run(net0, run), r);
  }

  lemma {:induction false} TurnIs(a: nat, b: nat, n: nat)
    ensures Turn(a, b, n) == a || Turn(a, b, n) == b
    decreases n
  {
    if n > 0 {
      TurnIs(b, a, n - 1);
    }
  }

  lemma HandedOver(pr: Probe, a: nat)
    requires Valid(pr)
    ensures CanRun(Start(pr, Via(a)), [])
    ensures Run(Start(pr, Via(a)), []).inFlight == [Packet(a, pr.route[0], Request(pr, 0), [])]
  {
  }

  // Hand-overs have no limit of their own: two relays that cannot reach the target can hand
  // the frame back and forth in a run of any length.
  lemma {:induction false} RelaysUnbounded(pr: Probe, a: nat, b: nat, n: nat)
    requires Valid(pr) && a != pr.route[0] && b != pr.route[0]
    ensures var net0 := Start(pr, Via(a));
      && |PingPong(a, b, n)| == n && CanRun(net0, PingPong(a, b, n))
      && Run(net0, PingPong(a, b, n)).inFlight == [Packet(Turn(a, b, n), pr.route[0], Request(pr, 0), [])]
  {
    hide Run, CanRun, Start, Arrive, Request;
    if n == 0 {
      HandedOver(pr, a);
    } else {
      RelaysUnbounded(pr, a, b, n - 1);
      TurnIs(a, b, n - 1);
      HandOverNext(Start(pr, Via(a)), PingPong(a, b, n - 1), Turn(a, b, n));
    }
  }

  // ---------- sharing a route ----------

  // A route to share, as it is sent to the first hop of its delivery route.
  predicate IsSync(f: Frame) {
    f.isRouteSync && f.hopIndex == 0 && 1 <= |f.route| < 256
  }

  function SyncStart(f: Frame): Net
    requires IsSync(f)
  {
    Net([Packet(f.route[0], f.route[0], f, [])], [], [], true, 0, false)
  }

  function Directs(n: nat): seq<Event> {
    if n == 0 then [] else Directs(n - 1) + [Event(0, Direct, Direct)]
  }

  // The frame after k arrivals: its index is one ahead of the node it is at, since the first
  // node sends it to itself once.
  function SyncAfter(f: Frame, k: nat): Net
    requires IsSync(f) && k <= |f.route| + 1
  {
    var n := |f.route|;
    if k == 0 then SyncStart(f)
    else if k <= n then
      Net([Packet(f.route[k - 1], f.route[k - 1], f.(hopIndex := k), [f.route[0]] + f.route[..k - 1])], [], [], true, 0, false)
    else Net([], [], [Got(f.route[n - 1], f.(hopIndex := n), [f.route[0]] + f.route)], true, 0, false)
  }

  lemma SyncStep(f: Frame, k: nat)
    requires IsSync(f) && k <= |f.route|
    ensures Arrive(SyncAfter(f, k), Event(0, Direct, Direct)) == SyncAfter(f, k + 1)
  {
    var net, n := SyncAfter(f, k), |f.route|;
    var p := net.inFlight[0];
    assert Removed(net.inFlight, 0) == [];
    if k == 0 {
      assert [] + [f.route[0]] == [f.route[0]] + f.route[..0];
    } else {
      assert [f.route[0]] + f.route[..k - 1] + [f.route[k - 1]] == [f.route[0]] + f.route[..k];
      assert k == n ==> f.route[..k] == f.route;
    }
  }

  // When every send arrives, a shared route visits every node of its delivery route in order and
  // is handed to the last one, unchanged; the first node has it twice, because it is sent with an
  // index that still names that node.
  lemma {:induction false} SyncArrives(f: Frame, k: nat)
    requires IsSync(f) && k <= |f.route| + 1
    ensures Run(SyncStart(f), Directs(k)) == SyncAfter(f, k)
  {
    hide Arrive, SyncAfter;
    if k == 0 {
      SyncBegins(f);
    } else {
      SyncArrives(f, k - 1);
      SyncStep(f, k - 1);
      var run := Directs(k);
      assert run[..|run| - 1] == Directs(k - 1) && run[|run| - 1] == Event(0, Direct, Direct);
    }
  }

  lemma SyncBegins(f: Frame)
    requires IsSync(f)
    ensures SyncAfter(f, 0) == SyncStart(f)
  {
  }

  // So it is lost at the first node if that node cannot send to itself.
  lemma SyncNeedsItself(f: Frame, e: Event, after: seq<Event>)
    requires IsSync(f) && e.index == 0 && e.first.Dropped?
    ensures var net := Run(Arrive(SyncStart(f), e), after); net.inFlight == [] && net.synced == []
    decreases |after|
  {
    if after != [] {
      SyncNeedsItself(f, e, after[..|after| - 1]);
    }
  }

  // ---------- the node ----------

  class DataPlane {
    const selfVIP: nat
    var outbox: seq<Send>
    // Replies buffered for each waiting nonce.
    var waiters: map<nat, seq<Frame>>
    var synced: seq<Frame>

    constructor (vip: nat)
      ensures selfVIP == vip && outbox == [] && waiters == map[] && synced == []
    {
      selfVIP := vip;
      outbox, waiters, synced := [], map[], [];
    }

    method DeliverProbeReply(f: Frame)
      modifies this`waiters
      ensures waiters == if f.nonce in old(waiters) && |old(waiters)[f.nonce]| < MAX_HOPS
                         then old(waiters)[f.nonce := old(waiters)[f.nonce] + [f]] else old(waiters)
    {
      if f.nonce in waiters {
        var ch := waiters[f.nonce];
        if |ch| < MAX_HOPS {
          waiters := waiters[f.nonce := ch + [f]];
        }
      }
    }

    method BuildReplyRoute(f: Frame) returns (route: array<nat>)
      requires 1 <= f.hopIndex <= |f.route| + 1
      ensures fresh(route) && route[..] == ReplyRoute(f.route, f.source, f.hopIndex)
    {
      var prevHops := f.hopIndex - 1;
      route := new nat[prevHops + 1];
      for i := 0 to prevHops
        invariant forall j :: 0 <= j < i ==> route[j] == f.route[prevHops - 1 - j]
      {
        route[i] := f.route[prevHops - 1 - i];
      }
      route[route.Length - 1] := f.source;
    }

    // panics says that an index ran out of range before anything was sent.
    method HandleProbeFrame(dst: nat, frame: Frame) returns (panics: bool)
      requires frame.hopIndex < 256
      modifies this
      ensures panics <==> Strays(selfVIP, dst, frame)
      ensures match Handle(selfVIP, dst, frame)
              case Sends(sends) => outbox == old(outbox) + sends && waiters == old(waiters) && synced == old(synced)
              case Syncs(f) => synced == old(synced) + [f] && outbox == old(outbox) && waiters == old(waiters)
              case Delivers(f) => outbox == old(outbox) && synced == old(synced) &&
                waiters == (if f.nonce in old(waiters) && |old(waiters)[f.nonce]| < MAX_HOPS
                            then old(waiters)[f.nonce := old(waiters)[f.nonce] + [f]] else old(waiters))
              case Panics => panics && outbox == old(outbox) && waiters == old(waiters) && synced == old(synced)
    {
      PanicsExactly(selfVIP, dst, frame);
      panics := false;
      var probe := frame;
      if dst != selfVIP {
        outbox := outbox + [Send(probe, dst, false)];
        return;
      }
      if probe.isRouteSync {
        var next := NextHop(probe);
        if next.Next? {
          probe := Advance(probe);
          outbox := outbox + [Send(probe, next.vip, true)];
        } else {
          synced := synced + [probe];
        }
        return;
      }
      if probe.isReply {
        if probe.autoReply {
          DeliverProbeReply(probe);
        } else {
          probe := Advance(probe);
          var next := NextHop(probe);
          if next.NoHop? {
            DeliverProbeReply(probe);
          } else {
            outbox := outbox + [Send(probe, next.vip, false)];
          }
        }
        return;
      }
      probe := Advance(probe);
      ghost var before := outbox;
      if probe.autoReply {
        var reply := Frame(true, true, false, probe.nonce, probe.source, 0, probe.hopIndex, []);
        outbox := outbox + [Send(reply, probe.source, false)];
      } else {
        if probe.hopIndex == 0 || probe.hopIndex - 1 > |probe.route| {
          panics := true;
          return;
        }
        var replyRoute := BuildReplyRoute(probe);
        var reply := Frame(true, false, false, probe.nonce, probe.source, 0, probe.hopIndex, replyRoute[..]);
        outbox := outbox + [Send(reply, replyRoute[0], false)];
      }
      var next := NextHop(probe);
      if next.Next? {
        outbox := outbox + [Send(probe, next.vip, true)];
      }
    }
  }
}
