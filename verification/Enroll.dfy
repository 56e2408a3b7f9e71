// Enrolment as a saga over shared tables (internal/controller/enroll/service.go,
// internal/controller/store/extra_repo.go, node_repo.go, cert_repo.go). Every repository
// method is one atomic step on the tables; calls and key revocations interleave in any order.
module Enroll {
  datatype KeyRow = KeyRow(reusable: bool, expires: bool, expiresAt: int, revoked: bool, consumed: bool)

  // A node's row holds its address, a lease's and a certificate's the node. The call that wrote
  // a row is history, not a column.
  datatype Row = Row(value: nat, call: nat)

  type Table = map<nat, Row>

  // Where a call is: what it does next.
  datatype Pc = Start | Checked | Claimed | Named | Leased | Certified
              | Releasing | Cleaning | Unclaiming | Failed | Done

  datatype Call = Call(pc: Pc, key: nat, oneTime: bool, holds: bool, id: nat, ip: nat, serial: nat, hasCert: bool)

  // The tables, the calls, and the rows and keys that a failed compensation left behind.
  datatype Sys = Sys(keys: map<nat, KeyRow>, nodes: Table, leases: Table, certs: Table, calls: map<nat, Call>,
                     strayIps: set<nat>, straySerials: set<nat>, burnt: set<nat>)

  // A step fails for reasons of its own when fault says so. pick is the address the allocator
  // found free, or the serial number drawn.
  datatype Event = Begin(call: nat, key: nat) | Advance(call: nat, fault: bool, pick: nat, now: int) | Revoke(key: nat)

  function Empty(keys: map<nat, KeyRow>): Sys {
    Sys(keys, map[], map[], map[], map[], {}, {}, {})
  }

  // COALESCE(MAX(id), 99) + 1
  ghost predicate IsNextId(nodes: Table, id: nat) {
    && id >= 100 && (forall n :: n in nodes ==> n < id)
    && (id == 100 || id - 1 in nodes)
  }

  lemma NextIdExists(nodes: Table)
    ensures exists id :: IsNextId(nodes, id)
  {
    var id := MaxAbove(nodes);
  }

  lemma {:induction false} MaxAbove(nodes: Table) returns (id: nat)
    ensures IsNextId(nodes, id)
    decreases |nodes|
  {
    if nodes == map[] {
      id := 100;
    } else {
      var n :| n in nodes;
      var rest := nodes - {n};
      var m := MaxAbove(rest);
      assert forall k :: k in nodes && k != n ==> k in rest;
      id := if n >= m then n + 1 else m;
    }
  }

  ghost function NextId(nodes: Table): (id: nat)
    ensures IsNextId(nodes, id)
  {
    NextIdExists(nodes);
    var id :| IsNextId(nodes, id);
    id
  }

  predicate Usable(k: KeyRow, now: int) {
    !k.revoked && !(!k.reusable && k.consumed) && !(k.expires && now > k.expiresAt)
  }

  predicate Claimable(keys: map<nat, KeyRow>, key: nat) {
    key in keys && !keys[key].revoked && !keys[key].consumed
  }

  function Consumed(keys: map<nat, KeyRow>, key: nat, consumed: bool): map<nat, KeyRow>
    requires key in keys
  {
    keys[key := keys[key].(consumed := consumed)]
  }

  predicate Creatable(nodes: Table, id: nat, ip: nat) {
    id !in nodes && forall n :: n in nodes ==> nodes[n].value != ip
  }

  predicate Resets(keys: map<nat, KeyRow>, key: nat) {
    key in keys && !keys[key].reusable && !keys[key].revoked
  }

  // The call after its next step.
  ghost function Progress(y: Sys, x: Call, fault: bool, pick: nat, now: int): Call {
    match x.pc
    case Start =>
      if fault || x.key !in y.keys || !Usable(y.keys[x.key], now) then x.(pc := Failed)
      else x.(pc := Checked, oneTime := !y.keys[x.key].reusable)
    case Checked =>
      if !x.oneTime then x.(pc := Claimed)
      else if fault || !Claimable(y.keys, x.key) then x.(pc := Failed)
      else x.(pc := Claimed, holds := true)
    case Claimed => if fault then x.(pc := Unclaiming) else x.(pc := Named, id := NextId(y.nodes))
    case Named => if fault || pick in y.leases then x.(pc := Unclaiming) else x.(pc := Leased, ip := pick)
    case Leased =>
      if fault || pick in y.certs then x.(pc := Releasing) else x.(pc := Certified, serial := pick, hasCert := true)
    case Certified => if fault || !Creatable(y.nodes, x.id, x.ip) then x.(pc := Releasing) else x.(pc := Done)
    case Releasing => x.(pc := if x.hasCert then Cleaning else Unclaiming)
    case Cleaning => x.(pc := Unclaiming)
    case Unclaiming => x.(pc := Failed, holds := false)
    case Failed => x
    case Done => x
  }

  // What the step writes: a claim and its compensation, a lease and its release, a certificate
  // and its removal, and the node.
  function NextKeys(keys: map<nat, KeyRow>, x: Call, x1: Call, fault: bool): map<nat, KeyRow> {
    if x.pc.Checked? && x1.holds && Claimable(keys, x.key) then Consumed(keys, x.key, true)
    else if x.pc.Unclaiming? && x.holds && !fault && Resets(keys, x.key) then Consumed(keys, x.key, false)
    else keys
  }

  function NextLeases(leases: Table, c: nat, x: Call, x1: Call, fault: bool): Table {
    if x.pc.Named? && x1.pc.Leased? then leases[x1.ip := Row(x1.id, c)]
    else if x.pc.Releasing? && !fault then leases - {x.ip}
    else leases
  }

  function NextCerts(certs: Table, c: nat, x: Call, x1: Call, fault: bool): Table {
    if x.pc.Leased? && x1.pc.Certified? then certs[x1.serial := Row(x1.id, c)]
    else if x.pc.Cleaning? && !fault then certs - {x.serial}
    else certs
  }

  function NextNodes(nodes: Table, c: nat, x: Call, x1: Call): Table {
    if x.pc.Certified? && x1.pc.Done? then nodes[x1.id := Row(x1.ip, c)] else nodes
  }

  // A failed compensation leaves its row, or the key, behind.
  function Move(y: Sys, c: nat, x: Call, x1: Call, fault: bool): Sys {
    Sys(NextKeys(y.keys, x, x1, fault), NextNodes(y.nodes, c, x, x1), NextLeases(y.leases, c, x, x1, fault),
        NextCerts(y.certs, c, x, x1, fault), y.calls[c := x1],
        if x.pc.Releasing? && fault then y.strayIps + {x.ip} else y.strayIps,
        if x.pc.Cleaning? && fault then y.straySerials + {x.serial} else y.straySerials,
        if x.pc.Unclaiming? && x.holds && (fault || !Resets(y.keys, x.key)) then y.burnt + {x.key} else y.burnt)
  }

  ghost function Act(y: Sys, e: Event): Sys {
    match e
    case Begin(c, key) =>
      if c in y.calls then y else y.(calls := y.calls[c := Call(Start, key, false, false, 0, 0, 0, false)])
    case Advance(c, fault, pick, now) =>
      if c in y.calls then Move(y, c, y.calls[c], Progress(y, y.calls[c], fault, pick, now), fault) else y
    case Revoke(key) =>
      if key in y.keys then y.(keys := y.keys[key := y.keys[key].(revoked := true)]) else y
  }

  ghost function Run(y: Sys, run: seq<Event>): Sys {
    if run == [] then y else Act(Run(y, run[..|run| - 1]), run[|run| - 1])
  }

  // ---------- the invariant ----------

  predicate Past(x: Call) {
    !x.pc.Start? && !x.pc.Checked? && !x.pc.Failed?
  }

  predicate HasLease(x: Call) {
    x.pc.Leased? || x.pc.Certified? || x.pc.Releasing? || x.pc.Done?
  }

  predicate HasCert(x: Call) {
    x.pc.Certified? || (x.pc.Releasing? && x.hasCert) || x.pc.Cleaning? || x.pc.Done?
  }

  // What a call owns in a table: the key of its row, and what the row holds.
  datatype Own = Own(key: nat, value: nat)

  // Stray rows aside, rows and owning calls correspond one to one.
  ghost predicate OwnedOk(t: Table, stray: set<nat>, own: map<nat, Own>) {
    && (forall c :: c in own ==> own[c].key in t && t[own[c].key] == Row(own[c].value, c) && own[c].key !in stray)
    && (forall k :: k in t && k !in stray ==> t[k].call in own && own[t[k].call] == Own(k, t[k].value))
    && stray <= t.Keys
  }

  lemma OwnAdded(t: Table, stray: set<nat>, own: map<nat, Own>, k: nat, v: nat, c: nat)
    requires OwnedOk(t, stray, own) && k !in t && c !in own
    ensures OwnedOk(t[k := Row(v, c)], stray, own[c := Own(k, v)])
  {
  }

  lemma OwnDropped(t: Table, stray: set<nat>, own: map<nat, Own>, c: nat)
    requires OwnedOk(t, stray, own) && c in own
    ensures OwnedOk(t - {own[c].key}, stray, own - {c})
  {
  }

  lemma OwnStrays(t: Table, stray: set<nat>, own: map<nat, Own>, c: nat)
    requires OwnedOk(t, stray, own) && c in own
    ensures OwnedOk(t, stray + {own[c].key}, own - {c})
  {
  }

  function Owners(calls: map<nat, Call>, has: Call -> bool, own: Call -> Own): map<nat, Own> {
    map c | c in calls && has(calls[c]) :: own(calls[c])
  }

  lemma OwnersSame(calls: map<nat, Call>, c: nat, x: Call, has: Call -> bool, own: Call -> Own)
    requires if c in calls && has(calls[c]) then has(x) && own(x) == own(calls[c]) else !has(x)
    ensures Owners(calls[c := x], has, own) == Owners(calls, has, own)
  {
  }

  lemma OwnersGained(calls: map<nat, Call>, c: nat, x: Call, has: Call -> bool, own: Call -> Own)
    requires has(x)
    ensures Owners(calls[c := x], has, own) == Owners(calls, has, own)[c := own(x)]
  {
  }

  lemma OwnersLost(calls: map<nat, Call>, c: nat, x: Call, has: Call -> bool, own: Call -> Own)
    requires !has(x)
    ensures Owners(calls[c := x], has, own) == Owners(calls, has, own) - {c}
  {
  }

  function LeaseOf(x: Call): Own {
    Own(x.ip, x.id)
  }

  function CertOf(x: Call): Own {
    Own(x.serial, x.id)
  }

  function NodeOf(x: Call): Own {
    Own(x.id, x.ip)
  }

  predicate IsDone(x: Call) {
    x.pc.Done?
  }

  ghost predicate LeasesOk(y: Sys) {
    OwnedOk(y.leases, y.strayIps, Owners(y.calls, HasLease, LeaseOf))
  }

  ghost predicate CertsOk(y: Sys) {
    OwnedOk(y.certs, y.straySerials, Owners(y.calls, HasCert, CertOf)) && forall c :: c in y.calls ==> FlagOk(y.calls[c])
  }

  ghost predicate NodesOk(y: Sys) {
    OwnedOk(y.nodes, {}, Owners(y.calls, IsDone, NodeOf))
  }

  // Not yet at a certificate.
  predicate Early(x: Call) {
    x.pc.Start? || x.pc.Checked? || x.pc.Claimed? || x.pc.Named? || x.pc.Leased?
  }

  predicate FlagOk(x: Call) {
    (Early(x) ==> !x.hasCert) && (x.pc.Certified? ==> x.hasCert)
  }

  // A one-time key is claimed by at most one call, is consumed while claimed, and a call past
  // the check that uses a one-time key has claimed it.
  ghost predicate KeysOk(y: Sys) {
    && (forall c :: c in y.calls ==> CallKeyOk(y.keys, y.calls[c]))
    && (forall c, d :: c in y.calls && d in y.calls && y.calls[c].holds && y.calls[d].holds && y.calls[c].key == y.calls[d].key ==> c == d)
  }

  ghost predicate CallKeyOk(keys: map<nat, KeyRow>, x: Call) {
    && (x.holds <==> Past(x) && x.oneTime)
    && (x.pc.Checked? || Past(x) ==> x.key in keys && x.oneTime == !keys[x.key].reusable)
    && (x.holds ==> keys[x.key].consumed)
  }

  ghost predicate Inv(y: Sys) {
    KeysOk(y) && LeasesOk(y) && CertsOk(y) && NodesOk(y)
  }

  lemma Owning(calls: map<nat, Call>, c: nat, has: Call -> bool, own: Call -> Own)
    requires c in calls && has(calls[c])
    ensures c in Owners(calls, has, own) && Owners(calls, has, own)[c] == own(calls[c])
  {
  }

  lemma NotOwning(calls: map<nat, Call>, c: nat, has: Call -> bool, own: Call -> Own)
    requires c in calls && !has(calls[c])
    ensures c !in Owners(calls, has, own)
  {
  }

  // ---------- the steps keep it ----------

  // What the proofs below need to know of a step.
  lemma ProgressIs(y: Sys, x: Call, fault: bool, pick: nat, now: int)
    ensures var x1 := Progress(y, x, fault, pick, now);
      && x1.key == x.key
      && (x.pc.Named? && x1.pc.Leased? ==> x1.ip !in y.leases && x1 == x.(pc := Leased, ip := x1.ip))
      && (x.pc.Leased? && x1.pc.Certified? ==> x1.serial !in y.certs && x1 == x.(pc := Certified, serial := x1.serial, hasCert := true))
      && (x.pc.Certified? && x1.pc.Done? ==> Creatable(y.nodes, x1.id, x1.ip) && x1 == x.(pc := Done))
      && (x1.pc.Done? ==> x.pc.Done? || x.pc.Certified?) && (x.pc.Done? || x.pc.Failed? ==> x1 == x)
  {
    hide Creatable, Usable, Claimable;
  }

  lemma ProgressLease(y: Sys, x: Call, fault: bool, pick: nat, now: int)
    ensures var x1 := Progress(y, x, fault, pick, now);
      && (HasLease(x1) && !(x.pc.Named? && x1.pc.Leased?) ==> HasLease(x) && x1.ip == x.ip && x1.id == x.id)
      && (HasLease(x) && !HasLease(x1) ==> x.pc.Releasing?) && (x.pc.Releasing? ==> !HasLease(x1))
  {
    hide Creatable, Usable, Claimable;
  }

  lemma ProgressCert(y: Sys, x: Call, fault: bool, pick: nat, now: int)
    requires FlagOk(x)
    ensures var x1 := Progress(y, x, fault, pick, now);
      && FlagOk(x1)
      && (HasCert(x1) && !(x.pc.Leased? && x1.pc.Certified?) ==> HasCert(x) && x1.serial == x.serial && x1.id == x.id)
      && (HasCert(x) && !HasCert(x1) ==> x.pc.Cleaning?) && (x.pc.Cleaning? ==> !HasCert(x1))
  {
    hide Creatable, Usable, Claimable;
  }

  lemma MoveLeases(y: Sys, c: nat, fault: bool, pick: nat, now: int)
    requires LeasesOk(y) && c in y.calls
    ensures LeasesOk(Move(y, c, y.calls[c], Progress(y, y.calls[c], fault, pick, now), fault))
  {
    hide Progress, OwnedOk, Owners, NextKeys, NextNodes, NextCerts;
    var x := y.calls[c];
    var x1 := Progress(y, x, fault, pick, now);
    ProgressIs(y, x, fault, pick, now);
    ProgressLease(y, x, fault, pick, now);
    var own := Owners(y.calls, HasLease, LeaseOf);
    if x.pc.Named? && x1.pc.Leased? {
      NotOwning(y.calls, c, HasLease, LeaseOf);
      OwnAdded(y.leases, y.strayIps, own, x1.ip, x1.id, c);
      OwnersGained(y.calls, c, x1, HasLease, LeaseOf);
    } else if x.pc.Releasing? {
      Owning(y.calls, c, HasLease, LeaseOf);
      OwnDropped(y.leases, y.strayIps, own, c);
      OwnStrays(y.leases, y.strayIps, own, c);
      OwnersLost(y.calls, c, x1, HasLease, LeaseOf);
    } else {
      OwnersSame(y.calls, c, x1, HasLease, LeaseOf);
    }
  }

  lemma MoveCerts(y: Sys, c: nat, fault: bool, pick: nat, now: int)
    requires CertsOk(y) && c in y.calls
    ensures CertsOk(Move(y, c, y.calls[c], Progress(y, y.calls[c], fault, pick, now), fault))
  {
    hide Progress, OwnedOk, Owners, NextKeys, NextNodes, NextLeases;
    var x := y.calls[c];
    var x1 := Progress(y, x, fault, pick, now);
    ProgressIs(y, x, fault, pick, now);
    ProgressCert(y, x, fault, pick, now);
    var own := Owners(y.calls, HasCert, CertOf);
    if x.pc.Leased? && x1.pc.Certified? {
      NotOwning(y.calls, c, HasCert, CertOf);
      OwnAdded(y.certs, y.straySerials, own, x1.serial, x1.id, c);
      OwnersGained(y.calls, c, x1, HasCert, CertOf);
    } else if x.pc.Cleaning? {
      Owning(y.calls, c, HasCert, CertOf);
      OwnDropped(y.certs, y.straySerials, own, c);
      OwnStrays(y.certs, y.straySerials, own, c);
      OwnersLost(y.calls, c, x1, HasCert, CertOf);
    } else {
      OwnersSame(y.calls, c, x1, HasCert, CertOf);
    }
  }

  lemma MoveNodes(y: Sys, c: nat, fault: bool, pick: nat, now: int)
    requires NodesOk(y) && c in y.calls
    ensures NodesOk(Move(y, c, y.calls[c], Progress(y, y.calls[c], fault, pick, now), fault))
  {
    hide Progress, OwnedOk, Owners, NextKeys, NextCerts, NextLeases;
    var x := y.calls[c];
    var x1 := Progress(y, x, fault, pick, now);
    ProgressIs(y, x, fault, pick, now);
    var own := Owners(y.calls, IsDone, NodeOf);
    if x.pc.Certified? && x1.pc.Done? {
      NotOwning(y.calls, c, IsDone, NodeOf);
      OwnAdded(y.nodes, {}, own, x1.id, x1.ip, c);
      OwnersGained(y.calls, c, x1, IsDone, NodeOf);
    } else {
      OwnersSame(y.calls, c, x1, IsDone, NodeOf);
    }
  }

  // A call's own part of the key invariant, after its step.
  lemma ProgressKey(y: Sys, x: Call, fault: bool, pick: nat, now: int)
    requires CallKeyOk(y.keys, x)
    ensures var x1 := Progress(y, x, fault, pick, now);
      && x1.key == x.key && CallKeyOk(NextKeys(y.keys, x, x1, fault), x1)
      && (x1.holds && !x.holds ==> x.pc.Checked? && Claimable(y.keys, x.key))
      && (x.holds && !x1.holds ==> x.pc.Unclaiming?) && (x.pc.Unclaiming? ==> !x1.holds)
      && (NextKeys(y.keys, x, x1, fault) != y.keys ==> x.holds || x1.holds)
  {
    hide Creatable;
  }

  lemma MoveKeys(y: Sys, c: nat, fault: bool, pick: nat, now: int)
    requires KeysOk(y) && c in y.calls
    ensures KeysOk(Move(y, c, y.calls[c], Progress(y, y.calls[c], fault, pick, now), fault))
  {
    hide Progress, NextCerts, NextLeases, NextNodes;
    var x := y.calls[c];
    var x1 := Progress(y, x, fault, pick, now);
    assert CallKeyOk(y.keys, x);
    ProgressKey(y, x, fault, pick, now);
    OthersKeys(y, c, x1, fault);
  }

  lemma OthersKeys(y: Sys, c: nat, x1: Call, fault: bool)
    requires KeysOk(y) && c in y.calls && x1.key == y.calls[c].key
    requires x1.holds && !y.calls[c].holds ==> y.calls[c].pc.Checked? && Claimable(y.keys, x1.key)
    requires y.calls[c].pc.Unclaiming? ==> !x1.holds
    requires CallKeyOk(NextKeys(y.keys, y.calls[c], x1, fault), x1)
    ensures forall d :: d in y.calls && d != c ==> CallKeyOk(NextKeys(y.keys, y.calls[c], x1, fault), y.calls[d])
    ensures forall d :: d in y.calls && d != c && y.calls[d].holds && x1.holds ==> y.calls[d].key != x1.key
  {
    forall d | d in y.calls && d != c
      ensures CallKeyOk(NextKeys(y.keys, y.calls[c], x1, fault), y.calls[d])
      ensures y.calls[d].holds && x1.holds ==> y.calls[d].key != x1.key
    {
      assert CallKeyOk(y.keys, y.calls[d]);
    }
  }

  lemma ActInv(y: Sys, e: Event)
    requires Inv(y)
    ensures Inv(Act(y, e))
  {
    hide Progress, Move, OwnedOk, Owners;
    match e
    case Begin(c, key) =>
      var x := Call(Start, key, false, false, 0, 0, 0, false);
      if c !in y.calls {
        OwnersSame(y.calls, c, x, HasLease, LeaseOf);
        OwnersSame(y.calls, c, x, HasCert, CertOf);
        OwnersSame(y.calls, c, x, IsDone, NodeOf);
      }
    case Revoke(key) =>
    case Advance(c, fault, pick, now) =>
      if c in y.calls {
        hide KeysOk, LeasesOk, CertsOk, NodesOk;
        MoveKeys(y, c, fault, pick, now);
        MoveLeases(y, c, fault, pick, now);
        MoveCerts(y, c, fault, pick, now);
        MoveNodes(y, c, fault, pick, now);
      }
  }

  lemma {:induction false} RunInv(keys: map<nat, KeyRow>, run: seq<Event>)
    ensures Inv(Run(Empty(keys), run))
  {
    hide Act;
    if run != [] {
      RunInv(keys, run[..|run| - 1]);
      hide Inv;
      ActInv(Run(Empty(keys), run[..|run| - 1]), run[|run| - 1]);
    }
  }

  // ---------- what runs guarantee ----------

  // However calls and revocations interleave and whatever fails: nodes made with a one-time
  // key come from one call, and calls that finish have different node identifiers and
  // addresses even when they drew the same identifier.
  lemma OneNodePerKey(keys: map<nat, KeyRow>, run: seq<Event>, c: nat, d: nat)
    ensures var y := Run(Empty(keys), run);
      c in y.calls && d in y.calls && c != d && y.calls[c].pc.Done? && y.calls[d].pc.Done? ==>
        && (y.calls[c].oneTime ==> y.calls[c].key != y.calls[d].key)
        && y.calls[c].id != y.calls[d].id && y.calls[c].ip != y.calls[d].ip
        && y.calls[c].serial != y.calls[d].serial
  {
    RunInv(keys, run);
    var y := Run(Empty(keys), run);
    hide Run, Act;
    if c in y.calls && d in y.calls && c != d && y.calls[c].pc.Done? && y.calls[d].pc.Done? {
      assert CallKeyOk(y.keys, y.calls[c]) && CallKeyOk(y.keys, y.calls[d]);
      DoneRows(y, c);
      DoneRows(y, d);
    }
  }

  lemma DoneRows(y: Sys, c: nat)
    requires Inv(y) && c in y.calls && y.calls[c].pc.Done?
    ensures var x := y.calls[c];
      && x.id in y.nodes && y.nodes[x.id] == Row(x.ip, c)
      && x.ip in y.leases && y.leases[x.ip] == Row(x.id, c) && x.ip !in y.strayIps
      && x.serial in y.certs && y.certs[x.serial] == Row(x.id, c) && x.serial !in y.straySerials
  {
    Owning(y.calls, c, IsDone, NodeOf);
    Owning(y.calls, c, HasLease, LeaseOf);
    Owning(y.calls, c, HasCert, CertOf);
  }

  ghost predicate Quiet(y: Sys) {
    forall c :: c in y.calls ==> y.calls[c].pc.Done? || y.calls[c].pc.Failed?
  }

  // Leases, certificates and nodes match one to one: every node has its lease and exactly one
  // certificate, and every row belongs to a node.
  ghost predicate Matched(nodes: Table, leases: Table, certs: Table) {
    && (forall n :: n in nodes ==> nodes[n].value in leases && leases[nodes[n].value].value == n)
    && (forall ip :: ip in leases ==> leases[ip].value in nodes && nodes[leases[ip].value].value == ip)
    && (forall n :: n in nodes ==> exists s :: s in certs && certs[s].value == n)
    && (forall s :: s in certs ==> certs[s].value in nodes)
    && (forall s, t :: s in certs && t in certs && certs[s].value == certs[t].value ==> s == t)
  }

  // Once no call is in flight the tables match, but for the rows whose compensation failed.
  lemma QuietMatches(keys: map<nat, KeyRow>, run: seq<Event>)
    ensures var y := Run(Empty(keys), run);
      Quiet(y) ==> Matched(y.nodes, y.leases - y.strayIps, y.certs - y.straySerials)
  {
    RunInv(keys, run);
    var y := Run(Empty(keys), run);
    hide Run, Act;
    if Quiet(y) {
      LeaseRows(y);
      CertRows(y);
    }
  }

  lemma NodeRow(y: Sys, n: nat) returns (c: nat)
    requires Inv(y) && n in y.nodes
    ensures c in y.calls && y.calls[c].pc.Done? && y.calls[c].id == n && y.calls[c].ip == y.nodes[n].value
    ensures y.nodes[n].call == c
  {
    c := y.nodes[n].call;
    assert c in Owners(y.calls, IsDone, NodeOf);
  }

  lemma LeaseRows(y: Sys)
    requires Inv(y) && Quiet(y)
    ensures var leases := y.leases - y.strayIps;
      && (forall n :: n in y.nodes ==> y.nodes[n].value in leases && leases[y.nodes[n].value].value == n)
      && (forall ip :: ip in leases ==> leases[ip].value in y.nodes && y.nodes[leases[ip].value].value == ip)
  {
    hide Owners, OwnedOk;
    var leases := y.leases - y.strayIps;
    forall n | n in y.nodes
      ensures y.nodes[n].value in leases && leases[y.nodes[n].value].value == n
    {
      var c := NodeRow(y, n);
      DoneRows(y, c);
    }
    forall ip | ip in leases
      ensures leases[ip].value in y.nodes && y.nodes[leases[ip].value].value == ip
    {
      var c := LeaseRow(y, ip);
      DoneRows(y, c);
    }
  }

  lemma LeaseRow(y: Sys, ip: nat) returns (c: nat)
    requires Inv(y) && Quiet(y) && ip in y.leases && ip !in y.strayIps
    ensures c in y.calls && y.calls[c].pc.Done? && y.calls[c].ip == ip && y.calls[c].id == y.leases[ip].value
  {
    c := y.leases[ip].call;
    assert c in Owners(y.calls, HasLease, LeaseOf);
  }

  lemma CertRow(y: Sys, s: nat) returns (c: nat)
    requires Inv(y) && Quiet(y) && s in y.certs && s !in y.straySerials
    ensures c in y.calls && y.calls[c].pc.Done? && y.calls[c].serial == s && y.calls[c].id == y.certs[s].value
  {
    c := y.certs[s].call;
    assert c in Owners(y.calls, HasCert, CertOf);
  }

  lemma CertRows(y: Sys)
    requires Inv(y) && Quiet(y)
    ensures var certs := y.certs - y.straySerials;
      && (forall n :: n in y.nodes ==> exists s :: s in certs && certs[s].value == n)
      && (forall s :: s in certs ==> certs[s].value in y.nodes)
      && (forall s, t :: s in certs && t in certs && certs[s].value == certs[t].value ==> s == t)
  {
    hide Owners, OwnedOk;
    var certs := y.certs - y.straySerials;
    forall n | n in y.nodes
      ensures exists s :: s in certs && certs[s].value == n
    {
      var c := NodeRow(y, n);
      DoneRows(y, c);
      assert y.calls[c].serial in certs;
    }
    forall s | s in certs
      ensures certs[s].value in y.nodes && y.nodes[certs[s].value].call in y.calls
      ensures y.calls[y.nodes[certs[s].value].call].serial == s
    {
      var c := CertRow(y, s);
      DoneRows(y, c);
    }
  }

  // Rows are left behind only by a compensation that failed.
  predicate Compensates(y: Sys, e: Event) {
    e.Advance? && e.fault && e.call in y.calls ==>
      var pc := y.calls[e.call].pc;
      !pc.Releasing? && !pc.Cleaning? && !pc.Unclaiming?
  }

  ghost predicate AllCompensate(y: Sys, run: seq<Event>) {
    run == [] || (AllCompensate(y, run[..|run| - 1]) && Compensates(Run(y, run[..|run| - 1]), run[|run| - 1]))
  }

  // When compensation succeeds, a quiet system is matched in full, and a key is burnt, that
  // is consumed for nothing, only if it was revoked.
  lemma {:induction false} NoStrays(keys: map<nat, KeyRow>, run: seq<Event>)
    requires AllCompensate(Empty(keys), run)
    ensures var y := Run(Empty(keys), run);
      && y.strayIps == {} && y.straySerials == {}
      && forall k :: k in y.burnt ==> k in y.keys && y.keys[k].revoked
  {
    if run != [] {
      var y := Run(Empty(keys), run[..|run| - 1]);
      NoStrays(keys, run[..|run| - 1]);
      RunInv(keys, run[..|run| - 1]);
      hide Run;
      ActStrays(y, run[|run| - 1]);
      assert Run(Empty(keys), run) == Act(y, run[|run| - 1]) by {
        RunStep(Empty(keys), run);
      }
    }
  }

  lemma RunStep(y: Sys, run: seq<Event>)
    requires run != []
    ensures Run(y, run) == Act(Run(y, run[..|run| - 1]), run[|run| - 1])
  {
  }

  lemma ActStrays(y: Sys, e: Event)
    requires Inv(y) && Compensates(y, e) && y.strayIps == {} && y.straySerials == {}
    requires forall k :: k in y.burnt ==> k in y.keys && y.keys[k].revoked
    ensures var z := Act(y, e);
      && z.strayIps == {} && z.straySerials == {}
      && forall k :: k in z.burnt ==> k in z.keys && z.keys[k].revoked
  {
    hide Progress, NextLeases, NextCerts, NextNodes, LeasesOk, CertsOk, NodesOk;
    if e.Advance? && e.call in y.calls {
      assert CallKeyOk(y.keys, y.calls[e.call]);
    }
  }

  lemma QuietMatchesInFull(keys: map<nat, KeyRow>, run: seq<Event>)
    requires AllCompensate(Empty(keys), run)
    ensures var y := Run(Empty(keys), run);
      Quiet(y) ==> Matched(y.nodes, y.leases, y.certs)
  {
    NoStrays(keys, run);
    QuietMatches(keys, run);
    var y := Run(Empty(keys), run);
    assert y.leases - y.strayIps == y.leases && y.certs - y.straySerials == y.certs;
  }

  // ---------- revocation ----------

  // A call that can no longer enrol once its key is revoked: not yet past the first check, or
  // not yet past the claim of a one-time key.
  predicate Barred(x: Call) {
    x.pc.Start? || x.pc.Failed? || (x.pc.Checked? && x.oneTime)
  }

  // A revoked key stays revoked, and consumed if it was, and no barred call gets past it.
  lemma ActGuarded(y: Sys, key: nat, open: set<nat>, e: Event)
    requires Inv(y) && key in y.keys && y.keys[key].revoked
    requires forall c :: c in y.calls && y.calls[c].key == key && c !in open ==> Barred(y.calls[c])
    ensures var z := Act(y, e);
      && key in z.keys && z.keys[key].revoked && (y.keys[key].consumed ==> z.keys[key].consumed)
      && z.keys[key].reusable == y.keys[key].reusable
      && forall c :: c in z.calls && z.calls[c].key == key && c !in open ==> Barred(z.calls[c])
  {
    hide NextLeases, NextCerts, NextNodes, LeasesOk, CertsOk, NodesOk, IsNextId, Creatable;
    if e.Advance? && e.call in y.calls {
      assert CallKeyOk(y.keys, y.calls[e.call]);
    }
  }

  lemma {:induction false} RunGuarded(y: Sys, key: nat, open: set<nat>, run: seq<Event>)
    requires Inv(y) && key in y.keys && y.keys[key].revoked
    requires forall c :: c in y.calls && y.calls[c].key == key && c !in open ==> Barred(y.calls[c])
    ensures var z := Run(y, run);
      && Inv(z) && key in z.keys && z.keys[key].revoked && (y.keys[key].consumed ==> z.keys[key].consumed)
      && forall c :: c in z.calls && z.calls[c].key == key && c !in open ==> Barred(z.calls[c])
  {
    hide Act, Inv;
    if run != [] {
      RunGuarded(y, key, open, run[..|run| - 1]);
      ActInv(Run(y, run[..|run| - 1]), run[|run| - 1]);
      ActGuarded(Run(y, run[..|run| - 1]), key, open, run[|run| - 1]);
    }
  }

  // No compensation revives a revoked key: after any run and any further run, a call that
  // finishes had got past the key's checks before the revocation.
  lemma RevokedForGood(keys: map<nat, KeyRow>, before: seq<Event>, key: nat, after: seq<Event>, c: nat)
    requires var y := Run(Empty(keys), before); key in y.keys && y.keys[key].revoked
    ensures var y, z := Run(Empty(keys), before), Run(Run(Empty(keys), before), after);
      && key in z.keys && z.keys[key].revoked && (y.keys[key].consumed ==> z.keys[key].consumed)
      && (c in z.calls && z.calls[c].key == key && z.calls[c].pc.Done? ==> c in y.calls && !Barred(y.calls[c]))
  {
    var y := Run(Empty(keys), before);
    RunInv(keys, before);
    hide Act, Inv, Run;
    var open := set d | d in y.calls && !Barred(y.calls[d]);
    RunGuarded(y, key, open, after);
  }

  // ---------- one call on its own ----------

  // The steps that fail for reasons of their own, and what the allocator, the CA and the clock
  // give.
  datatype Env = Env(faults: set<Pc>, ip: nat, serial: nat, now: int)

  predicate Ended(y: Sys, c: nat) {
    c !in y.calls || y.calls[c].pc.Done? || y.calls[c].pc.Failed?
  }

  function Next(y: Sys, c: nat, env: Env): Event {
    if Ended(y, c) then Advance(c, false, 0, env.now)
    else Advance(c, y.calls[c].pc in env.faults, if y.calls[c].pc.Named? then env.ip else env.serial, env.now)
  }

  // The call's steps one after the other, with nothing in between.
  ghost function Follow(y: Sys, c: nat, env: Env, n: nat): Sys
    decreases n
  {
    if n == 0 || Ended(y, c) then y else Follow(Act(y, Next(y, c, env)), c, env, n - 1)
  }

  lemma NextIdUnique(nodes: Table, i: nat, j: nat)
    requires IsNextId(nodes, i) && IsNextId(nodes, j)
    ensures i == j
  {
  }

  // ---------- how a call on its own ends ----------

  // The key exists, is not revoked, not used up, and not expired.
  predicate Accepted(keys: map<nat, KeyRow>, key: nat, now: int) {
    && key in keys && !keys[key].revoked && (keys[key].reusable || !keys[key].consumed)
    && (keys[key].expires ==> now <= keys[key].expiresAt)
  }

  // No step fails for reasons of its own; a reusable key is not claimed.
  predicate Undisturbed(keys: map<nat, KeyRow>, key: nat, env: Env) {
    && Start !in env.faults && Claimed !in env.faults && Named !in env.faults && Leased !in env.faults && Certified !in env.faults
    && (key in keys && !keys[key].reusable ==> Checked !in env.faults)
  }

  // The address is leased to nobody and on no node, and the serial number is new.
  predicate Unused(y: Sys, env: Env) {
    && env.ip !in y.leases && env.serial !in y.certs && forall n :: n in y.nodes ==> y.nodes[n].value != env.ip
  }

  predicate Compensating(env: Env) {
    Releasing !in env.faults && Cleaning !in env.faults && Unclaiming !in env.faults
  }

  // Between its steps: beside the tables before it, b, the call has claimed its one-time key
  // and holds a lease and a certificate, or not yet.
  ghost predicate Mid(b: Sys, y: Sys, c: nat, env: Env, key: nat, pc: Pc, leased: bool, certified: bool) {
    && c in y.calls && y.calls == b.calls[c := y.calls[c]]
    && var x := y.calls[c];
       && x.pc == pc && x.key == key && (pc.Unclaiming? || x.hasCert == certified)
       && (x.holds ==> Claimable(b.keys, key) && !b.keys[key].reusable)
       && y == Sys(if x.holds then Consumed(b.keys, key, true) else b.keys, b.nodes,
                   if leased then b.leases[env.ip := Row(x.id, c)] else b.leases,
                   if certified then b.certs[env.serial := Row(x.id, c)] else b.certs,
                   y.calls, b.strayIps, b.straySerials, b.burnt)
       && (leased ==> x.ip == env.ip && env.ip !in b.leases) && (certified ==> x.serial == env.serial && env.serial !in b.certs)
  }

  // The tables are as before, and the call has failed.
  ghost predicate Undone(b: Sys, z: Sys, c: nat) {
    c in z.calls && z.calls[c].pc.Failed? && z == b.(calls := b.calls[c := z.calls[c]])
  }

  lemma FollowOn(y: Sys, c: nat, env: Env, n: nat)
    requires !Ended(y, c) && n > 0
    ensures Follow(y, c, env, n) == Follow(Act(y, Next(y, c, env)), c, env, n - 1)
  {
  }

  lemma FollowEnded(y: Sys, c: nat, env: Env, n: nat)
    requires Ended(y, c)
    ensures Follow(y, c, env, n) == y
  {
  }

  lemma UnclaimAlone(b: Sys, y: Sys, c: nat, env: Env, key: nat, n: nat)
    requires Mid(b, y, c, env, key, Unclaiming, false, false) && n > 0 && Compensating(env)
    ensures Undone(b, Follow(y, c, env, n), c)
  {
    hide Follow;
    var z := Act(y, Next(y, c, env));
    FollowOn(y, c, env, n);
    FollowEnded(z, c, env, n - 1);
    assert z.keys == b.keys;
    assert z.calls == b.calls[c := z.calls[c]];
  }

  // A step that leads from one stage to another.
  ghost predicate LeadsTo(b: Sys, y: Sys, c: nat, env: Env, key: nat, pc: Pc, leased: bool, certified: bool) {
    !Ended(y, c) && Mid(b, Act(y, Next(y, c, env)), c, env, key, pc, leased, certified)
  }

  lemma CleanStep(b: Sys, y: Sys, c: nat, env: Env, key: nat)
    requires Mid(b, y, c, env, key, Cleaning, false, true) && Compensating(env)
    ensures LeadsTo(b, y, c, env, key, Unclaiming, false, false)
  {
    var z := Act(y, Next(y, c, env));
    assert z.certs == b.certs;
    assert z.calls == b.calls[c := z.calls[c]];
  }

  lemma ReleaseStep(b: Sys, y: Sys, c: nat, env: Env, key: nat, certified: bool)
    requires Mid(b, y, c, env, key, Releasing, true, certified) && Compensating(env)
    ensures LeadsTo(b, y, c, env, key, if certified then Cleaning else Unclaiming, false, certified)
  {
    var z := Act(y, Next(y, c, env));
    assert z.leases == b.leases;
    assert z.calls == b.calls[c := z.calls[c]];
  }

  lemma ReleaseAlone(b: Sys, y: Sys, c: nat, env: Env, key: nat, certified: bool, n: nat)
    requires Mid(b, y, c, env, key, Releasing, true, certified) && n > 2 && Compensating(env)
    ensures Undone(b, Follow(y, c, env, n), c)
  {
    hide Follow, Mid, Act, Undone, Next;
    var z := Act(y, Next(y, c, env));
    ReleaseStep(b, y, c, env, key, certified);
    FollowOn(y, c, env, n);
    if certified {
      CleanStep(b, z, c, env, key);
      FollowOn(z, c, env, n - 1);
      UnclaimAlone(b, Act(z, Next(z, c, env)), c, env, key, n - 2);
    } else {
      UnclaimAlone(b, z, c, env, key, n - 1);
    }
  }

  // The node is written: everything it owns is in the tables.
  ghost predicate Enrolled(b: Sys, z: Sys, c: nat, env: Env, key: nat) {
    && c in z.calls && z.calls[c].pc.Done? && IsNextId(b.nodes, z.calls[c].id)
    && z == Sys(if key in b.keys && !b.keys[key].reusable then Consumed(b.keys, key, true) else b.keys,
                b.nodes[z.calls[c].id := Row(env.ip, c)], b.leases[env.ip := Row(z.calls[c].id, c)],
                b.certs[env.serial := Row(z.calls[c].id, c)], b.calls[c := z.calls[c]], b.strayIps, b.straySerials, b.burnt)
  }

  // How a call goes on from a stage: to its end if nothing stands in its way, back otherwise.
  ghost predicate EndsAs(b: Sys, z: Sys, c: nat, env: Env, key: nat, good: bool) {
    if good then Enrolled(b, z, c, env, key) else c in z.calls && !z.calls[c].pc.Done? && (Compensating(env) ==> Undone(b, z, c))
  }

  lemma {:induction false} NeverDone(y: Sys, c: nat, env: Env, n: nat)
    requires c in y.calls
    requires var pc := y.calls[c].pc; pc.Releasing? || pc.Cleaning? || pc.Unclaiming? || pc.Failed?
    ensures var z := Follow(y, c, env, n); c in z.calls && !z.calls[c].pc.Done?
    decreases n
  {
    if n > 0 && !Ended(y, c) {
      NeverDone(Act(y, Next(y, c, env)), c, env, n - 1);
    }
  }

  lemma BackFrom(b: Sys, y: Sys, c: nat, env: Env, key: nat, leased: bool, certified: bool, n: nat)
    requires if leased then Mid(b, y, c, env, key, Releasing, true, certified) else Mid(b, y, c, env, key, Unclaiming, false, false)
    requires n > 2
    ensures EndsAs(b, Follow(y, c, env, n), c, env, key, false)
  {
    hide Follow, Undone, Compensating;
    NeverDone(y, c, env, n);
    if Compensating(env) {
      if leased {
        ReleaseAlone(b, y, c, env, key, certified, n);
      } else {
        UnclaimAlone(b, y, c, env, key, n);
      }
    }
  }

  lemma CreateStep(b: Sys, y: Sys, c: nat, env: Env, key: nat, good: bool)
    requires Mid(b, y, c, env, key, Certified, true, true) && IsNextId(b.nodes, y.calls[c].id)
    requires y.calls[c].holds <==> key in b.keys && !b.keys[key].reusable
    requires good <==> Certified !in env.faults && forall n :: n in b.nodes ==> b.nodes[n].value != env.ip
    ensures good ==> Enrolled(b, Act(y, Next(y, c, env)), c, env, key)
    ensures !good ==> LeadsTo(b, y, c, env, key, Releasing, true, true)
  {
    var z := Act(y, Next(y, c, env));
    assert z.calls == b.calls[c := z.calls[c]];
  }

  lemma CreateAlone(b: Sys, y: Sys, c: nat, env: Env, key: nat, good: bool, n: nat)
    requires Mid(b, y, c, env, key, Certified, true, true) && IsNextId(b.nodes, y.calls[c].id) && n > 3
    requires y.calls[c].holds <==> key in b.keys && !b.keys[key].reusable
    requires good <==> Certified !in env.faults && forall n :: n in b.nodes ==> b.nodes[n].value != env.ip
    ensures EndsAs(b, Follow(y, c, env, n), c, env, key, good)
  {
    hide Follow, Act, Next, Undone, IsNextId;
    var z := Act(y, Next(y, c, env));
    CreateStep(b, y, c, env, key, good);
    FollowOn(y, c, env, n);
    if good {
      FollowEnded(z, c, env, n - 1);
    } else {
      BackFrom(b, z, c, env, key, true, true, n - 1);
    }
  }

  lemma IssueStep(b: Sys, y: Sys, c: nat, env: Env, key: nat, good: bool)
    requires Mid(b, y, c, env, key, Leased, true, false)
    requires good <==> Leased !in env.faults && env.serial !in b.certs
    ensures good ==> LeadsTo(b, y, c, env, key, Certified, true, true)
    ensures !good ==> LeadsTo(b, y, c, env, key, Releasing, true, false)
    ensures Act(y, Next(y, c, env)).calls[c].id == y.calls[c].id && Act(y, Next(y, c, env)).calls[c].holds == y.calls[c].holds
  {
    var z := Act(y, Next(y, c, env));
    assert z.calls == b.calls[c := z.calls[c]];
  }

  lemma LeaseStep(b: Sys, y: Sys, c: nat, env: Env, key: nat, good: bool)
    requires Mid(b, y, c, env, key, Named, false, false)
    requires good <==> Named !in env.faults && env.ip !in b.leases
    ensures good ==> LeadsTo(b, y, c, env, key, Leased, true, false)
    ensures !good ==> LeadsTo(b, y, c, env, key, Unclaiming, false, false)
    ensures Act(y, Next(y, c, env)).calls[c].id == y.calls[c].id && Act(y, Next(y, c, env)).calls[c].holds == y.calls[c].holds
  {
    var z := Act(y, Next(y, c, env));
    assert z.calls == b.calls[c := z.calls[c]];
  }

  lemma NameStep(b: Sys, y: Sys, c: nat, env: Env, key: nat, good: bool)
    requires Mid(b, y, c, env, key, Claimed, false, false)
    requires good <==> Claimed !in env.faults
    ensures good ==> LeadsTo(b, y, c, env, key, Named, false, false) && IsNextId(b.nodes, Act(y, Next(y, c, env)).calls[c].id)
    ensures !good ==> LeadsTo(b, y, c, env, key, Unclaiming, false, false)
    ensures Act(y, Next(y, c, env)).calls[c].holds == y.calls[c].holds
  {
    hide IsNextId;
    var z := Act(y, Next(y, c, env));
    assert z.calls == b.calls[c := z.calls[c]];
  }

  // What is still to go well from each stage.
  predicate GoesWell(b: Sys, env: Env, pc: Pc) {
    && Certified !in env.faults && (forall n :: n in b.nodes ==> b.nodes[n].value != env.ip)
    && (!pc.Certified? ==> Leased !in env.faults && env.serial !in b.certs)
    && (pc.Named? || pc.Claimed? ==> Named !in env.faults && env.ip !in b.leases)
    && (pc.Claimed? ==> Claimed !in env.faults)
  }

  lemma LeasedAlone(b: Sys, y: Sys, c: nat, env: Env, key: nat, n: nat)
    requires Mid(b, y, c, env, key, Leased, true, false) && IsNextId(b.nodes, y.calls[c].id) && n > 4
    requires y.calls[c].holds <==> key in b.keys && !b.keys[key].reusable
    ensures EndsAs(b, Follow(y, c, env, n), c, env, key, GoesWell(b, env, Leased))
  {
    hide Follow, Act, Next, EndsAs, IsNextId;
    var z := Act(y, Next(y, c, env));
    var good := Leased !in env.faults && env.serial !in b.certs;
    IssueStep(b, y, c, env, key, good);
    FollowOn(y, c, env, n);
    if good {
      CreateAlone(b, z, c, env, key, GoesWell(b, env, Certified), n - 1);
    } else {
      BackFrom(b, z, c, env, key, true, false, n - 1);
    }
  }

  lemma NamedAlone(b: Sys, y: Sys, c: nat, env: Env, key: nat, n: nat)
    requires Mid(b, y, c, env, key, Named, false, false) && IsNextId(b.nodes, y.calls[c].id) && n > 5
    requires y.calls[c].holds <==> key in b.keys && !b.keys[key].reusable
    ensures EndsAs(b, Follow(y, c, env, n), c, env, key, GoesWell(b, env, Named))
  {
    hide Follow, Act, Next, EndsAs, IsNextId;
    var z := Act(y, Next(y, c, env));
    var good := Named !in env.faults && env.ip !in b.leases;
    LeaseStep(b, y, c, env, key, good);
    FollowOn(y, c, env, n);
    if good {
      LeasedAlone(b, z, c, env, key, n - 1);
    } else {
      BackFrom(b, z, c, env, key, false, false, n - 1);
    }
  }

  lemma ClaimedAlone(b: Sys, y: Sys, c: nat, env: Env, key: nat, n: nat)
    requires Mid(b, y, c, env, key, Claimed, false, false) && n > 6
    requires y.calls[c].holds <==> key in b.keys && !b.keys[key].reusable
    ensures EndsAs(b, Follow(y, c, env, n), c, env, key, GoesWell(b, env, Claimed))
  {
    hide Follow, Act, Next, EndsAs, IsNextId;
    var z := Act(y, Next(y, c, env));
    NameStep(b, y, c, env, key, Claimed !in env.faults);
    FollowOn(y, c, env, n);
    if Claimed !in env.faults {
      NamedAlone(b, z, c, env, key, n - 1);
    } else {
      BackFrom(b, z, c, env, key, false, false, n - 1);
    }
  }

  lemma CheckStep(b: Sys, y: Sys, c: nat, env: Env, key: nat)
    requires Mid(b, y, c, env, key, Start, false, false) && !y.calls[c].holds
    ensures var z := Act(y, Next(y, c, env));
      if Start !in env.faults && Accepted(b.keys, key, env.now) then
        Mid(b, z, c, env, key, Checked, false, false) && !z.calls[c].holds && z.calls[c].oneTime == !b.keys[key].reusable
      else Undone(b, z, c)
  {
    var z := Act(y, Next(y, c, env));
    assert z.calls == b.calls[c := z.calls[c]];
  }

  lemma ClaimStep(b: Sys, y: Sys, c: nat, env: Env, key: nat)
    requires Mid(b, y, c, env, key, Checked, false, false) && !y.calls[c].holds && Accepted(b.keys, key, env.now)
    requires y.calls[c].oneTime == !b.keys[key].reusable
    ensures var z := Act(y, Next(y, c, env));
      if b.keys[key].reusable || Checked !in env.faults then
        Mid(b, z, c, env, key, Claimed, false, false) && z.calls[c].holds == !b.keys[key].reusable
      else Undone(b, z, c)
  {
    var z := Act(y, Next(y, c, env));
    assert z.calls == b.calls[c := z.calls[c]];
  }

  lemma BeginMid(b: Sys, c: nat, key: nat, env: Env)
    requires c !in b.calls
    ensures var y := Act(b, Begin(c, key)); Mid(b, y, c, env, key, Start, false, false) && !y.calls[c].holds
  {
    var y := Act(b, Begin(c, key));
    assert y.calls == b.calls[c := y.calls[c]];
  }

  // A call that nothing interleaves with ends Done exactly when its key is accepted, no step
  // fails, and address and serial number are unused; it then has exactly one row in each table,
  // under the next node identifier, and a one-time key is consumed. If it does not and its
  // compensation succeeds, every table is as before.
  lemma EnrolsAlone(b: Sys, c: nat, key: nat, env: Env)
    requires c !in b.calls
    ensures var z := Follow(Act(b, Begin(c, key)), c, env, 9);
      EndsAs(b, z, c, env, key, Accepted(b.keys, key, env.now) && Undisturbed(b.keys, key, env) && Unused(b, env))
  {
    hide Follow, Act, Next, Mid, Enrolled;
    var y := Act(b, Begin(c, key));
    BeginMid(b, c, key, env);
    MidGoesOn(b, y, c, env, key, Start);
    CheckStep(b, y, c, env, key);
    FollowOn(y, c, env, 9);
    var y1 := Act(y, Next(y, c, env));
    if Start in env.faults || !Accepted(b.keys, key, env.now) {
      FollowEnded(y1, c, env, 8);
    } else {
      MidGoesOn(b, y1, c, env, key, Checked);
      ClaimStep(b, y1, c, env, key);
      FollowOn(y1, c, env, 8);
      var y2 := Act(y1, Next(y1, c, env));
      if !b.keys[key].reusable && Checked in env.faults {
        FollowEnded(y2, c, env, 7);
      } else {
        ClaimedAlone(b, y2, c, env, key, 7);
      }
    }
  }

  // Revoking marks exactly that key, and no call on its own enrols with it from then on.
  lemma RevokeRefuses(b: Sys, c: nat, key: nat, env: Env)
    requires c !in b.calls && key in b.keys
    ensures var y := Act(b, Revoke(key));
      && y == b.(keys := b.keys[key := b.keys[key].(revoked := true)])
      && var z := Follow(Act(y, Begin(c, key)), c, env, 9);
         c in z.calls && !z.calls[c].pc.Done? && (Compensating(env) ==> Undone(y, z, c))
  {
    hide Follow;
    EnrolsAlone(Act(b, Revoke(key)), c, key, env);
  }

  lemma MidGoesOn(b: Sys, y: Sys, c: nat, env: Env, key: nat, pc: Pc)
    requires Mid(b, y, c, env, key, pc, false, false) && !pc.Done? && !pc.Failed?
    ensures !Ended(y, c)
  {
  }

  class EnrollService {
    var keys: map<nat, KeyRow>
    var nodes: Table
    var leases: Table
    var certs: Table
    ghost var calls: map<nat, Call>
    ghost var strayIps: set<nat>
    ghost var straySerials: set<nat>
    ghost var burnt: set<nat>

    ghost function Abs(): Sys
      reads this
    {
      Sys(keys, nodes, leases, certs, calls, strayIps, straySerials, burnt)
    }

    ghost predicate At(c: nat, pc: Pc)
      reads this
    {
      c in calls && calls[c].pc == pc
    }

    constructor (keys0: map<nat, KeyRow>)
      ensures Abs() == Empty(keys0)
    {
      keys := keys0;
      nodes, leases, certs := map[], map[], map[];
      calls, strayIps, straySerials, burnt := map[], {}, {}, {};
    }

    // The keys found usable, and whether it is a one-time key.
    method GetEnrollKey(c: nat, key: nat, env: Env) returns (ok: bool, oneTime: bool)
      requires At(c, Start) && calls[c].key == key && !calls[c].holds
      modifies this`calls
      ensures Abs() == Act(old(Abs()), Next(old(Abs()), c, env))
      ensures if ok then At(c, Checked) && calls[c].oneTime == oneTime && calls[c].key == key else At(c, Failed)
      ensures !calls[c].holds && calls[c].hasCert == old(calls[c].hasCert)
    {
      ok := Start !in env.faults && key in keys && Usable(keys[key], env.now);
      oneTime := ok && !keys[key].reusable;
      calls := calls[c := if ok then calls[c].(pc := Checked, oneTime := oneTime) else calls[c].(pc := Failed)];
    }

    // consumed says that the update matched a row.
    method ConsumeOneTimeKey(c: nat, key: nat, env: Env) returns (consumed: bool)
      requires At(c, Checked) && calls[c].key == key && calls[c].oneTime && !calls[c].holds
      modifies this`calls, this`keys
      ensures Abs() == Act(old(Abs()), Next(old(Abs()), c, env))
      ensures if consumed then At(c, Claimed) && calls[c].holds && calls[c].key == key else At(c, Failed)
      ensures calls[c].hasCert == old(calls[c].hasCert)
    {
      consumed := Checked !in env.faults && Claimable(keys, key);
      if consumed {
        keys := Consumed(keys, key, true);
      }
      calls := calls[c := if consumed then calls[c].(pc := Claimed, holds := true) else calls[c].(pc := Failed)];
    }

    method SkipConsume(c: nat, env: Env)
      requires At(c, Checked) && !calls[c].oneTime && !calls[c].holds
      modifies this`calls
      ensures Abs() == Act(old(Abs()), Next(old(Abs()), c, env))
      ensures At(c, Claimed) && calls[c] == old(calls[c]).(pc := Claimed)
    {
      calls := calls[c := calls[c].(pc := Claimed)];
    }

    method MaxId() returns (id: nat)
      ensures IsNextId(nodes, id)
    {
      id := 100;
      var rest := nodes.Keys;
      while rest != {}
        invariant rest <= nodes.Keys && id >= 100 && (id == 100 || id - 1 in nodes)
        invariant forall n :: n in nodes && n !in rest ==> n < id
      {
        var n :| n in rest;
        rest := rest - {n};
        if n >= id {
          id := n + 1;
        }
      }
    }

    method NextNodeID(c: nat, env: Env) returns (ok: bool, id: nat)
      requires At(c, Claimed)
      modifies this`calls
      ensures Abs() == Act(old(Abs()), Next(old(Abs()), c, env))
      ensures if ok then At(c, Named) && calls[c].id == id else At(c, Unclaiming)
      ensures calls[c] == old(calls[c]).(pc := calls[c].pc, id := calls[c].id)
    {
      id := MaxId();
      NextIdUnique(nodes, id, NextId(nodes));
      ok := Claimed !in env.faults;
      calls := calls[c := if ok then calls[c].(pc := Named, id := id) else calls[c].(pc := Unclaiming)];
    }

    method AllocateLease(c: nat, id: nat, env: Env) returns (ok: bool)
      requires At(c, Named) && calls[c].id == id
      modifies this`calls, this`leases
      ensures Abs() == Act(old(Abs()), Next(old(Abs()), c, env))
      ensures if ok then At(c, Leased) && calls[c].ip == env.ip && calls[c].id == id else At(c, Unclaiming)
      ensures calls[c] == old(calls[c]).(pc := calls[c].pc, ip := calls[c].ip)
    {
      ok := Named !in env.faults && env.ip !in leases;
      if ok {
        leases := leases[env.ip := Row(id, c)];
      }
      calls := calls[c := if ok then calls[c].(pc := Leased, ip := env.ip) else calls[c].(pc := Unclaiming)];
    }

    method Issue(c: nat, id: nat, env: Env) returns (ok: bool)
      requires At(c, Leased) && calls[c].id == id
      modifies this`calls, this`certs
      ensures Abs() == Act(old(Abs()), Next(old(Abs()), c, env))
      ensures if ok then At(c, Certified) && calls[c].serial == env.serial && calls[c].hasCert
              else At(c, Releasing) && calls[c].hasCert == old(calls[c].hasCert)
      ensures calls[c].key == old(calls[c].key) && calls[c].holds == old(calls[c].holds)
      ensures calls[c].id == id && calls[c].ip == old(calls[c].ip)
    {
      ok := Leased !in env.faults && env.serial !in certs;
      if ok {
        certs := certs[env.serial := Row(id, c)];
      }
      calls := calls[c := if ok then calls[c].(pc := Certified, serial := env.serial, hasCert := true) else calls[c].(pc := Releasing)];
    }

    method CreateNode(c: nat, id: nat, ip: nat, env: Env) returns (ok: bool)
      requires At(c, Certified) && calls[c].id == id && calls[c].ip == ip
      modifies this`calls, this`nodes
      ensures Abs() == Act(old(Abs()), Next(old(Abs()), c, env))
      ensures if ok then At(c, Done) else At(c, Releasing)
      ensures calls[c] == old(calls[c]).(pc := calls[c].pc)
    {
      ok := Certified !in env.faults && Creatable(nodes, id, ip);
      if ok {
        nodes := nodes[id := Row(ip, c)];
      }
      calls := calls[c := calls[c].(pc := if ok then Done else Releasing)];
    }

    method Release(c: nat, ip: nat, env: Env)
      requires At(c, Releasing) && calls[c].ip == ip
      modifies this`calls, this`leases, this`strayIps
      ensures Abs() == Act(old(Abs()), Next(old(Abs()), c, env))
      ensures At(c, if old(calls[c].hasCert) then Cleaning else Unclaiming)
      ensures calls[c] == old(calls[c]).(pc := calls[c].pc)
    {
      if Releasing !in env.faults {
        leases := leases - {ip};
      } else {
        strayIps := strayIps + {ip};
      }
      calls := calls[c := calls[c].(pc := if calls[c].hasCert then Cleaning else Unclaiming)];
    }

    method DeleteCert(c: nat, serial: nat, env: Env)
      requires At(c, Cleaning) && calls[c].serial == serial
      modifies this`calls, this`certs, this`straySerials
      ensures Abs() == Act(old(Abs()), Next(old(Abs()), c, env))
      ensures At(c, Unclaiming) && calls[c] == old(calls[c]).(pc := Unclaiming)
    {
      if Cleaning !in env.faults {
        certs := certs - {serial};
      } else {
        straySerials := straySerials + {serial};
      }
      calls := calls[c := calls[c].(pc := Unclaiming)];
    }

    method CompensateKey(c: nat, key: nat, consumedOneTime: bool, env: Env)
      requires At(c, Unclaiming) && calls[c].key == key && calls[c].holds == consumedOneTime
      modifies this`calls, this`keys, this`burnt
      ensures Abs() == Act(old(Abs()), Next(old(Abs()), c, env))
      ensures At(c, Failed)
    {
      if consumedOneTime {
        if Unclaiming !in env.faults && Resets(keys, key) {
          keys := Consumed(keys, key, false);
        } else {
          burnt := burnt + {key};
        }
      }
      calls := calls[c := calls[c].(pc := Failed, holds := false)];
    }

    // The saga in the order of the source; each call above is one step of the interleaving.
    // The outcome is the one EnrolsAlone describes.
    method Enroll(c: nat, key: nat, env: Env) returns (ok: bool)
      requires c !in calls
      modifies this
      ensures Abs() == Follow(Act(old(Abs()), Begin(c, key)), c, env, 9)
      ensures At(c, if ok then Done else Failed)
      ensures EndsAs(old(Abs()), Abs(), c, env, key, ok)
      ensures ok <==> Accepted(old(keys), key, env.now) && Undisturbed(old(keys), key, env) && Unused(old(Abs()), env)
    {
      hide Act, Next, Follow, Ended, Enrolled, Undone, Compensating, Accepted, Undisturbed, Unused;
      EnrolsAlone(Abs(), c, key, env);
      Begins(Abs(), c, key);
      calls := calls[c := Call(Start, key, false, false, 0, 0, 0, false)];
      ghost var y := Abs();
      var oneTime;
      ok, oneTime := Admit(c, key, env);
      FollowSplit(y, c, env, 2, 7);
      if !ok {
        FollowFailed(Abs(), c, env, 7);
        EndsOne(old(Abs()), Abs(), c, env, key);
        return;
      }
      ok := Resources(c, key, oneTime, env);
      EndsOne(old(Abs()), Abs(), c, env, key);
    }

    // The key is checked, and claimed if it is for one use.
    method Admit(c: nat, key: nat, env: Env) returns (ok: bool, oneTime: bool)
      requires At(c, Start) && calls[c].key == key && !calls[c].holds && !calls[c].hasCert
      modifies this`calls, this`keys
      ensures Abs() == Follow(old(Abs()), c, env, 2)
      ensures if ok then At(c, Claimed) && calls[c].key == key && calls[c].holds == oneTime && !calls[c].hasCert else At(c, Failed)
    {
      hide Act, Next, Follow, Ended;
      ghost var y0 := Abs();
      ok, oneTime := GetEnrollKey(c, key, env);
      Follows(y0, Abs(), c, env, 1);
      if !ok {
        return;
      }
      ghost var y1 := Abs();
      if oneTime {
        ok := ConsumeOneTimeKey(c, key, env);
      } else {
        SkipConsume(c, env);
      }
      Follows(y1, Abs(), c, env, 0);
      FollowNone(Abs(), c, env);
    }

    method Resources(c: nat, key: nat, oneTime: bool, env: Env) returns (ok: bool)
      requires At(c, Claimed) && calls[c].key == key && calls[c].holds == oneTime && !calls[c].hasCert
      modifies this
      ensures Abs() == Follow(old(Abs()), c, env, 7)
      ensures At(c, if ok then Done else Failed)
    {
      hide Act, Next, Follow, Ended;
      ghost var y0 := Abs();
      var id;
      ok, id := NextNodeID(c, env);
      Follows(y0, Abs(), c, env, 6);
      ghost var y1 := Abs();
      if !ok {
        CompensateKey(c, key, oneTime, env);
        Follows(y1, Abs(), c, env, 5);
        return;
      }
      ok := Address(c, key, oneTime, id, env);
    }

    method Address(c: nat, key: nat, oneTime: bool, id: nat, env: Env) returns (ok: bool)
      requires At(c, Named) && calls[c].key == key && calls[c].holds == oneTime && !calls[c].hasCert && calls[c].id == id
      modifies this
      ensures Abs() == Follow(old(Abs()), c, env, 6)
      ensures At(c, if ok then Done else Failed)
    {
      hide Act, Next, Follow, Ended;
      ghost var y0 := Abs();
      ok := AllocateLease(c, id, env);
      Follows(y0, Abs(), c, env, 5);
      ghost var y1 := Abs();
      if !ok {
        CompensateKey(c, key, oneTime, env);
        Follows(y1, Abs(), c, env, 4);
        return;
      }
      ok := Identity(c, key, oneTime, id, env);
    }

    method Identity(c: nat, key: nat, oneTime: bool, id: nat, env: Env) returns (ok: bool)
      requires At(c, Leased) && calls[c].key == key && calls[c].holds == oneTime && !calls[c].hasCert
      requires calls[c].id == id && calls[c].ip == env.ip
      modifies this
      ensures Abs() == Follow(old(Abs()), c, env, 5)
      ensures At(c, if ok then Done else Failed)
    {
      hide Act, Next, Follow, Ended;
      ghost var y0 := Abs();
      ok := Issue(c, id, env);
      Follows(y0, Abs(), c, env, 4);
      ghost var y1 := Abs();
      if !ok {
        Release(c, env.ip, env);
        Follows(y1, Abs(), c, env, 3);
        ghost var y2 := Abs();
        CompensateKey(c, key, oneTime, env);
        Follows(y2, Abs(), c, env, 2);
        return;
      }
      ok := CreateNode(c, id, env.ip, env);
      Follows(y1, Abs(), c, env, 3);
      if !ok {
        Undo(c, key, oneTime, env);
      }
    }

    method Undo(c: nat, key: nat, oneTime: bool, env: Env)
      requires At(c, Releasing) && calls[c].key == key && calls[c].holds == oneTime && calls[c].hasCert
      requires calls[c].ip == env.ip && calls[c].serial == env.serial
      modifies this
      ensures Abs() == Follow(old(Abs()), c, env, 3)
      ensures At(c, Failed)
    {
      hide Act, Next, Follow, Ended;
      ghost var y0 := Abs();
      Release(c, env.ip, env);
      Follows(y0, Abs(), c, env, 2);
      ghost var y1 := Abs();
      DeleteCert(c, env.serial, env);
      Follows(y1, Abs(), c, env, 1);
      ghost var y2 := Abs();
      CompensateKey(c, key, oneTime, env);
      Follows(y2, Abs(), c, env, 0);
    }
  }

  lemma Follows(y: Sys, z: Sys, c: nat, env: Env, n: nat)
    requires c in y.calls && !y.calls[c].pc.Done? && !y.calls[c].pc.Failed? && z == Act(y, Next(y, c, env))
    ensures Follow(y, c, env, n + 1) == Follow(z, c, env, n)
    ensures c in z.calls && (z.calls[c].pc.Done? || z.calls[c].pc.Failed?) ==> Follow(z, c, env, n) == z
  {
  }

  lemma FollowNone(y: Sys, c: nat, env: Env)
    ensures Follow(y, c, env, 0) == y
  {
  }

  lemma FollowFailed(y: Sys, c: nat, env: Env, n: nat)
    requires c in y.calls && y.calls[c].pc.Failed?
    ensures Follow(y, c, env, n) == y
  {
  }

  lemma {:induction false} FollowSplit(y: Sys, c: nat, env: Env, m: nat, n: nat)
    ensures Follow(y, c, env, m + n) == Follow(Follow(y, c, env, m), c, env, n)
    decreases m
  {
    hide Act, Next, Ended;
    if m > 0 && !Ended(y, c) {
      FollowSplit(Act(y, Next(y, c, env)), c, env, m - 1, n);
    }
  }

  // A call that failed did not end well, and one that is done did.
  lemma EndsOne(b: Sys, z: Sys, c: nat, env: Env, key: nat)
    requires c in z.calls && (z.calls[c].pc.Done? || z.calls[c].pc.Failed?)
    ensures EndsAs(b, z, c, env, key, true) ==> z.calls[c].pc.Done?
    ensures EndsAs(b, z, c, env, key, false) ==> z.calls[c].pc.Failed?
  {
  }

  lemma Begins(y: Sys, c: nat, key: nat)
    requires c !in y.calls
    ensures Act(y, Begin(c, key)) == y.(calls := y.calls[c := Call(Start, key, false, false, 0, 0, 0, false)])
  {
  }
}
