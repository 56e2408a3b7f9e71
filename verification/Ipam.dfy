// Virtual address allocation (internal/controller/ipam/ipam.go): an index in memory beside the
// lease table, over one IPv4 network. Addresses are 32-bit numbers; the store keeps texts.
module Ipam {
  const WORD := 0x1_0000_0000

  // A text: the dotted quad an address prints as, another text that parses to the address (an
  // IPv4-mapped IPv6 address has several), or one that is no IPv4 address.
  datatype Text = Dotted(addr: nat) | Mapped(addr: nat, spelling: nat) | NotV4(spelling: nat)

  function Pow2(n: nat): (r: nat)
    ensures r > 0
  {
    if n == 0 then 1 else 2 * Pow2(n - 1)
  }

  // The network address and the number of host bits; ParseCIDR masks the address.
  datatype Cidr = Cidr(base: nat, hostBits: nat)

  predicate Masked(c: Cidr) {
    c.hostBits <= 32 && c.base < WORD && c.base % Pow2(c.hostBits) == 0
  }

  function Add32(a: nat, b: int): nat {
    (a + b) % WORD
  }

  function Size(c: Cidr): nat {
    Pow2(c.hostBits)
  }

  lemma {:induction false} PowSum(m: nat, n: nat)
    ensures Pow2(m + n) == Pow2(m) * Pow2(n)
  {
    if m > 0 {
      PowSum(m - 1, n);
      assert Pow2(m + n) == 2 * Pow2(m - 1 + n);
    }
  }

  lemma WordIs()
    ensures Pow2(32) == WORD
  {
    assert Pow2(2) == 4;
    PowSum(2, 2);
    PowSum(4, 4);
    PowSum(8, 8);
    PowSum(16, 16);
  }

  lemma MultiplesApart(q: nat, r: nat, p: nat)
    requires q * p < r * p
    ensures q * p + p <= r * p
  {
    var x := r - q;
    assert x * p == r * p - q * p > 0;
    assert x >= 1;
    assert x * p >= p;
  }

  // A masked network ends within the word, so no address of it wraps around.
  lemma NetworkFits(c: Cidr)
    requires Masked(c)
    ensures Size(c) > 0 && c.base + Size(c) <= WORD
  {
    WordIs();
    PowSum(32 - c.hostBits, c.hostBits);
    FitsWord(c.base, Pow2(c.hostBits), Pow2(32 - c.hostBits));
  }

  lemma FitsWord(base: nat, p: nat, r: nat)
    requires p > 0 && base % p == 0 && base < r * p
    ensures base + p <= r * p
  {
    var q := base / p;
    assert base == q * p;
    MultiplesApart(q, r, p);
  }

  // ---------- the lease table and its index ----------

  datatype State = State(used: set<nat>, leases: map<Text, nat>)

  predicate Parses(t: Text) {
    !t.NotV4?
  }

  function Addresses(leases: map<Text, nat>): set<nat> {
    set t | t in leases && Parses(t) :: t.addr
  }

  // What the index is rebuilt to.
  function Rebuilt(leases: map<Text, nat>): State {
    State(Addresses(leases), leases)
  }

  // Every lease is stored as its dotted quad, and the index holds exactly the leased addresses.
  ghost predicate Matches(s: State) {
    (forall t :: t in s.leases ==> t.Dotted?) && forall a :: a in s.used <==> Dotted(a) in s.leases
  }

  predicate Usable(c: Cidr, a: nat) {
    c.base + 2 <= a < c.base + Size(c) - 1
  }

  datatype Outcome = Address(ip: Text) | TooLarge | Exhausted | StoreFailed | BadAddress | Released

  // The lowest usable address not in the index, from offset on.
  function LowestFree(c: Cidr, used: set<nat>, offset: nat): nat
    requires Masked(c)
    decreases Size(c) - offset
  {
    if offset >= Size(c) - 1 then c.base + offset
    else if Add32(c.base, offset) in used then LowestFree(c, used, offset + 1)
    else c.base + offset
  }

  lemma {:induction false} LowestIs(c: Cidr, used: set<nat>, offset: nat)
    requires Masked(c) && offset >= 2
    ensures var a := LowestFree(c, used, offset);
      && a >= c.base + offset
      && (forall b: nat :: c.base + offset <= b < a && Usable(c, b) ==> b in used)
      && (Usable(c, a) ==> a !in used)
      && (!Usable(c, a) ==> forall b: nat :: c.base + offset <= b && Usable(c, b) ==> b in used)
    decreases Size(c) - offset
  {
    hide Pow2, Size, Add32, Masked;
    NetworkFits(c);
    if offset < Size(c) - 1 {
      NoWrap(c, offset);
      if c.base + offset in used {
        LowestIs(c, used, offset + 1);
      }
    }
  }

  lemma NoWrap(c: Cidr, offset: nat)
    requires Masked(c) && offset < Size(c)
    ensures Add32(c.base, offset) == c.base + offset
  {
    NetworkFits(c);
  }

  // storeOk says whether the store could write; a row that exists already is a failure too.
  function Allocated(c: Cidr, s: State, node: nat, storeOk: bool): (State, Outcome)
    requires Masked(c)
  {
    var a := LowestFree(c, s.used, 2);
    if c.hostBits > 24 then (s, TooLarge)
    else if !Usable(c, a) then (s, Exhausted)
    else if !storeOk || Dotted(a) in s.leases then (s, StoreFailed)
    else (State(s.used + {a}, s.leases[Dotted(a) := node]), Address(Dotted(a)))
  }

  // Deleting a row that does not exist is no error.
  function AfterRelease(s: State, t: Text, storeOk: bool): (State, Outcome) {
    if !Parses(t) then (s, BadAddress)
    else if !storeOk then (s, StoreFailed)
    else (State(s.used - {t.addr}, s.leases - {t}), Released)
  }

  // Allocation keeps the index, hands out the lowest address that is not leased and never the
  // network, gateway or broadcast address, and is exhausted exactly when all others are leased.
  lemma AllocationIs(c: Cidr, s: State, node: nat, storeOk: bool)
    requires Masked(c) && Matches(s)
    ensures var (t, o) := Allocated(c, s, node, storeOk);
      && Matches(t)
      && (o.Address? ==>
            && o.ip.Dotted? && o.ip !in s.leases && t.leases == s.leases[o.ip := node]
            && c.base + 2 <= o.ip.addr < c.base + Size(c) - 1 && o.ip.addr < WORD
            && forall b: nat :: Usable(c, b) && b < o.ip.addr ==> Dotted(b) in s.leases)
      && (!o.Address? ==> t == s) && (o == TooLarge <==> c.hostBits > 24)
      && (c.hostBits <= 24 && storeOk ==>
            (o == Exhausted <==> forall b: nat :: Usable(c, b) ==> Dotted(b) in s.leases) && o != StoreFailed)
  {
    NetworkFits(c);
    LowestIs(c, s.used, 2);
    var a := LowestFree(c, s.used, 2);
    if Usable(c, a) {
      assert a !in s.used;
    }
  }

  // Exactly when a release keeps the index: the text is the dotted quad, or no IPv4 address,
  // or its address is not leased. Otherwise the row stays and the index forgets it.
  lemma ReleaseMatches(s: State, t: Text)
    requires Matches(s)
    ensures Matches(AfterRelease(s, t, true).0) <==> t.Dotted? || t.NotV4? || Dotted(t.addr) !in s.leases
    ensures Matches(AfterRelease(s, t, false).0)
  {
    var s1 := AfterRelease(s, t, true).0;
    if t.Mapped? && Dotted(t.addr) in s.leases {
      assert t.addr !in s1.used && Dotted(t.addr) in s1.leases;
    }
  }

  // Releasing a leased dotted quad takes exactly its row from the table and frees its address:
  // the next allocation succeeds, with the lowest address that is free then.
  lemma ReleaseFrees(c: Cidr, s: State, a: nat, node: nat)
    requires Masked(c) && c.hostBits <= 24 && Matches(s) && Usable(c, a) && Dotted(a) in s.leases
    ensures var (s1, o) := AfterRelease(s, Dotted(a), true);
      && o == Released && Matches(s1)
      && (forall t :: t in s1.leases <==> t in s.leases && t != Dotted(a))
      && (forall t :: t in s1.leases ==> s1.leases[t] == s.leases[t])
      && var (s2, o2) := Allocated(c, s1, node, true);
         && o2.Address? && o2.ip.Dotted? && o2.ip.addr <= a && s2.leases == s1.leases[o2.ip := node]
         && (o2.ip.addr == a <==> forall b: nat :: Usable(c, b) && b < a ==> Dotted(b) in s.leases)
  {
    var s1 := AfterRelease(s, Dotted(a), true).0;
    ReleaseMatches(s, Dotted(a));
    AllocationIs(c, s1, node, true);
    assert Dotted(a) !in s1.leases;
  }

  // An index that forgot the lowest leased address cannot allocate at all: every attempt
  // picks that address and fails on the row that is still there.
  lemma ForgottenBlocks(c: Cidr, s: State, a: nat, spelling: nat, node: nat)
    requires Masked(c) && c.hostBits <= 24 && Matches(s) && Usable(c, a) && Dotted(a) in s.leases
    requires forall b: nat :: Usable(c, b) && b < a ==> Dotted(b) in s.leases
    ensures var s1 := AfterRelease(s, Mapped(a, spelling), true).0;
      Allocated(c, s1, node, true) == (s1, StoreFailed)
  {
    var s1 := AfterRelease(s, Mapped(a, spelling), true).0;
    NetworkFits(c);
    LowestIs(c, s1.used, 2);
    assert a !in s1.used;
    assert forall b: nat :: Usable(c, b) && b < a ==> b in s1.used;
    assert LowestFree(c, s1.used, 2) == a;
  }

  // ---------- runs ----------

  datatype Event = Allocate(node: nat, storeOk: bool) | Release(text: Text, storeOk: bool) | Restart

  function Act(c: Cidr, s: State, e: Event): State
    requires Masked(c)
  {
    match e
    case Allocate(node, ok) => Allocated(c, s, node, ok).0
    case Release(t, ok) => AfterRelease(s, t, ok).0
    case Restart => Rebuilt(s.leases)
  }

  function Run(c: Cidr, s: State, run: seq<Event>): State
    requires Masked(c)
  {
    if run == [] then s else Act(c, Run(c, s, run[..|run| - 1]), run[|run| - 1])
  }

  // Release is given the texts that Allocate returned.
  predicate Plain(run: seq<Event>) {
    forall i :: 0 <= i < |run| && run[i].Release? ==> !run[i].text.Mapped?
  }

  lemma RestartSame(s: State)
    requires forall t :: t in s.leases ==> t.Dotted?
    ensures Matches(Rebuilt(s.leases)) && (Matches(s) ==> Rebuilt(s.leases) == s)
  {
    var r := Rebuilt(s.leases);
    forall a
      ensures a in r.used <==> Dotted(a) in s.leases
    {
      if Dotted(a) in s.leases {
        assert Dotted(a).addr in r.used;
      }
    }
  }

  // Over any such run the index is the lease table, restarts change nothing, and only usable
  // addresses are ever leased anew.
  lemma {:induction false} RunMatches(c: Cidr, s: State, run: seq<Event>)
    requires Masked(c) && Matches(s) && Plain(run)
    ensures Matches(Run(c, s, run))
    ensures forall t :: t in Run(c, s, run).leases && t !in s.leases ==> t.Dotted? && Usable(c, t.addr)
    ensures Act(c, Run(c, s, run), Restart) == Run(c, s, run)
  {
    if run != [] {
      var n := |run| - 1;
      var s1 := Run(c, s, run[..n]);
      RunMatches(c, s, run[..n]);
      hide Run;
      match run[n] {
        case Allocate(node, ok) => AllocationIs(c, s1, node, ok);
        case Release(t, ok) => ReleaseMatches(s1, t);
        case Restart =>
      }
      assert Run(c, s, run) == Act(c, s1, run[n]) by {
        RunStep(c, s, run);
      }
    }
    RestartSame(Run(c, s, run));
  }

  lemma RunStep(c: Cidr, s: State, run: seq<Event>)
    requires Masked(c) && run != []
    ensures Run(c, s, run) == Act(c, Run(c, s, run[..|run| - 1]), run[|run| - 1])
  {
  }

  // ---------- the allocator ----------

  class Allocator {
    const network: Cidr
    var used: set<nat>
    // The store's table.
    var leases: map<Text, nat>

    ghost function Abs(): State
      reads this
    {
      State(used, leases)
    }

    constructor (c: Cidr, leases0: map<Text, nat>)
      ensures network == c && Abs() == Rebuilt(leases0)
    {
      network := c;
      leases := leases0;
      var index: set<nat> := {};
      var rest := leases0.Keys;
      while rest != {}
        invariant rest <= leases0.Keys
        invariant index == set t | t in leases0 && t !in rest && Parses(t) :: t.addr
      {
        var t :| t in rest;
        rest := rest - {t};
        if Parses(t) {
          index := index + {t.addr};
        }
      }
      used := index;
    }

    method Allocate(node: nat, storeOk: bool) returns (o: Outcome)
      requires Masked(network)
      modifies this
      ensures (Abs(), o) == Allocated(network, old(Abs()), node, storeOk)
    {
      hide Pow2, Size, Add32, Masked;
      NetworkFits(network);
      if network.hostBits > 24 {
        return TooLarge;
      }
      var totalHosts := Size(network);
      NoWrap(network, totalHosts - 1);
      var broadcast := Add32(network.base, totalHosts - 1);
      var offset := 2;
      while offset < totalHosts - 1
        invariant 2 <= offset && LowestFree(network, used, 2) == LowestFree(network, used, offset)
        invariant used == old(used) && leases == old(leases)
      {
        NoWrap(network, offset);
        var candidate := Add32(network.base, offset);
        if candidate == broadcast {
          break;
        }
        if candidate in used {
          offset := offset + 1;
          continue;
        }
        if !storeOk || Dotted(candidate) in leases {
          return StoreFailed;
        }
        leases := leases[Dotted(candidate) := node];
        used := used + {candidate};
        return Address(Dotted(candidate));
      }
      return Exhausted;
    }

    method Release(ip: Text, storeOk: bool) returns (o: Outcome)
      modifies this
      ensures (Abs(), o) == AfterRelease(old(Abs()), ip, storeOk)
    {
      if !Parses(ip) {
        return BadAddress;
      }
      if !storeOk {
        return StoreFailed;
      }
      leases := leases - {ip};
      used := used - {ip.addr};
      return Released;
    }
  }
}
