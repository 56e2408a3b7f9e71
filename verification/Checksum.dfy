// The SERVFAIL answer to a hijacked DNS query (internal/nodecore/dataplane/dataplane.go): an
// IPv4 packet turned round, with its header checksum (section 3.1 of RFC 791, section 1 of
// RFC 1071).
module Checksum {
  import opened Frame

  const WORD32 := 0x1_0000_0000
  const ONES := 0xFFFF

  // The first n bytes as big-endian 16-bit words.
  function Sum16(s: Bytes, n: nat): nat
    requires n <= |s| && n % 2 == 0
  {
    if n == 0 then 0 else Sum16(s, n - 2) + 256 * s[n - 2] as nat + s[n - 1] as nat
  }

  // The carries are added back in until none is left.
  function Fold(n: nat): (r: nat)
    ensures r <= ONES
  {
    if n <= ONES then n else Fold(n / 0x1_0000 + n % 0x1_0000)
  }

  // Folding keeps the value modulo 0xFFFF, and never makes a positive sum zero.
  lemma {:induction false} FoldIs(n: nat)
    ensures Fold(n) <= ONES && Fold(n) % ONES == n % ONES && (n > 0 ==> Fold(n) > 0)
  {
    if n > ONES {
      var q, r := n / 0x1_0000, n % 0x1_0000;
      FoldIs(q + r);
      assert n == (q + r) + ONES * q;
      SameRest(q + r, q);
    }
  }

  lemma SameRest(a: nat, q: nat)
    ensures (a + ONES * q) % ONES == a % ONES
  {
  }

  // The complement of a folded sum makes the whole fold to all ones.
  lemma ComplementFolds(n: nat)
    requires n > 0
    ensures Fold(n + (ONES - Fold(n))) == ONES
  {
    hide Fold;
    FoldIs(n);
    var m := n + (ONES - Fold(n));
    var k := n / ONES - Fold(n) / ONES;
    assert n - Fold(n) == ONES * k;
    SameRest(0, k + 1);
    assert m == 0 + ONES * (k + 1);
    FoldIs(m);
  }

  // ---------- the packet ----------

  function HeaderLength(pkt: Bytes): nat
    requires |pkt| > 0
  {
    4 * (pkt[0] as nat % 16)
  }

  // A UDP packet over IPv4 long enough for a DNS header.
  predicate Answerable(pkt: Bytes) {
    && |pkt| >= 1 && pkt[0] as nat / 16 == 4
    && HeaderLength(pkt) >= 20 && |pkt| >= HeaderLength(pkt) + 8 + 12 && pkt[9] == 17
  }

  // Byte i of the answer, the header checksum apart.
  function ByteAt(pkt: Bytes, i: nat): byte
    requires Answerable(pkt) && i < |pkt|
  {
    var ihl := HeaderLength(pkt);
    if i == 8 then 64
    else if i == 10 || i == 11 || i == ihl + 6 || i == ihl + 7 then 0
    else if 12 <= i < 16 then pkt[i + 4]
    else if 16 <= i < 20 then pkt[i - 4]
    else if ihl <= i < ihl + 2 then pkt[i + 2]
    else if ihl + 2 <= i < ihl + 4 then pkt[i - 2]
    else if i == ihl + 10 then (pkt[i] as nat % 128 + 128) as byte
    else if i == ihl + 11 then (pkt[i] as nat - pkt[i] as nat % 16 + 2) as byte
    else pkt[i]
  }

  function Turned(pkt: Bytes): (r: Bytes)
    requires Answerable(pkt)
    ensures |r| == |pkt| && forall i :: 0 <= i < |pkt| ==> r[i] == ByteAt(pkt, i)
  {
    seq(|pkt|, i requires 0 <= i < |pkt| => ByteAt(pkt, i))
  }

  function HeaderSum(pkt: Bytes): nat
    requires Answerable(pkt)
  {
    Fold(Sum16(Turned(pkt), HeaderLength(pkt)))
  }

  function Servfail(pkt: Bytes): (r: Bytes)
    requires Answerable(pkt)
  {
    FoldIs(Sum16(Turned(pkt), HeaderLength(pkt)));
    var c := ONES - HeaderSum(pkt);
    Turned(pkt)[10 := (c / 256) as byte][11 := (c % 256) as byte]
  }

  lemma {:induction false} SumAlike(s: Bytes, t: Bytes, n: nat)
    requires n % 2 == 0 && n <= |s| == |t| && forall i :: 0 <= i < n ==> s[i] == t[i]
    ensures Sum16(s, n) == Sum16(t, n)
  {
    if n > 0 {
      SumAlike(s, t, n - 2);
    }
  }

  // Writing a word where there was none adds it to the sum.
  lemma {:induction false} SumWith(s: Bytes, t: Bytes, k: nat, n: nat)
    requires n % 2 == 0 && k % 2 == 0 && k + 2 <= n <= |s| == |t| && s[k] == 0 && s[k + 1] == 0
    requires forall i :: 0 <= i < n && i != k && i != k + 1 ==> s[i] == t[i]
    ensures Sum16(t, n) == Sum16(s, n) + 256 * t[k] as nat + t[k + 1] as nat
  {
    if n == k + 2 {
      SumAlike(s, t, k);
    } else {
      SumWith(s, t, k, n - 2);
    }
  }

  lemma {:induction false} SumPositive(s: Bytes, n: nat)
    requires n % 2 == 0 && 2 <= n <= |s| && s[0] > 0
    ensures Sum16(s, n) > 0
  {
    if n > 2 {
      SumPositive(s, n - 2);
    } else {
      assert Sum16(s, 0) == 0;
    }
  }

  // The finished header folds to all ones, for every header length and content.
  lemma HeaderChecks(pkt: Bytes)
    requires Answerable(pkt)
    ensures var r := Servfail(pkt);
      HeaderLength(r) == HeaderLength(pkt) && Fold(Sum16(r, HeaderLength(r))) == ONES
  {
    var s, ihl := Turned(pkt), HeaderLength(pkt);
    var sum := Sum16(s, ihl);
    SumPositive(s, ihl);
    FoldIs(sum);
    var c := ONES - Fold(sum);
    var r := Servfail(pkt);
    SumWith(s, r, 10, ihl);
    assert Sum16(r, ihl) == sum + c;
    ComplementFolds(sum);
  }

  // The time to live, the header checksum, addresses and ports, the UDP checksum, the DNS flags.
  predicate Rewritten(ihl: nat, i: nat) {
    || i == 8 || 10 <= i < 20 || ihl <= i < ihl + 4 || ihl + 6 <= i < ihl + 8 || ihl + 10 <= i < ihl + 12
  }

  // The query's bytes with the response bit set, the code server failure, no UDP checksum and a
  // time to live of 64; besides the header checksum and what goes back, nothing else changes.
  lemma AnswerIs(pkt: Bytes)
    requires Answerable(pkt)
    ensures var r, ihl := Servfail(pkt), HeaderLength(pkt);
      && |r| == |pkt| && r[8] == 64 && r[ihl + 6] == 0 && r[ihl + 7] == 0
      && r[ihl + 10] as nat / 128 == 1 && r[ihl + 10] as nat % 128 == pkt[ihl + 10] as nat % 128
      && r[ihl + 11] as nat % 16 == 2 && r[ihl + 11] as nat / 16 == pkt[ihl + 11] as nat / 16
      && forall i :: 0 <= i < |pkt| && !Rewritten(ihl, i) ==> r[i] == pkt[i]
  {
  }

  // The answer goes back to where the query came from, and answering it again would go back
  // to the resolver.
  lemma AnswerGoesBack(pkt: Bytes)
    requires Answerable(pkt)
    ensures var r, ihl := Servfail(pkt), HeaderLength(pkt);
      && r[12..16] == pkt[16..20] && r[16..20] == pkt[12..16]
      && r[ihl..ihl + 2] == pkt[ihl + 2..ihl + 4] && r[ihl + 2..ihl + 4] == pkt[ihl..ihl + 2]
      && Answerable(r)
      && Servfail(r)[12..20] == pkt[12..20] && Servfail(r)[ihl..ihl + 4] == pkt[ihl..ihl + 4]
  {
    hide Servfail, ByteAt;
    StaysAnswerable(pkt);
    var r, ihl := Servfail(pkt), HeaderLength(pkt);
    forall i | 12 <= i < 20 || ihl <= i < ihl + 4
      ensures r[i] == pkt[Opposite(ihl, i)]
    {
      AnswerByte(pkt, i);
    }
    SameSlice(r, 12, pkt, 16, 4);
    SameSlice(r, 16, pkt, 12, 4);
    SameSlice(r, ihl, pkt, ihl + 2, 2);
    SameSlice(r, ihl + 2, pkt, ihl, 2);
    SwapsBack(pkt, r);
  }

  lemma StaysAnswerable(pkt: Bytes)
    requires Answerable(pkt)
    ensures var r := Servfail(pkt); |r| == |pkt| && Answerable(r) && HeaderLength(r) == HeaderLength(pkt)
  {
  }

  // Where a byte of the addresses and ports comes from.
  function Opposite(ihl: nat, i: nat): nat
    requires 12 <= i < 20 || ihl <= i < ihl + 4
  {
    if 12 <= i < 16 then i + 4
    else if 16 <= i < 20 then i - 4
    else if i < ihl + 2 then i + 2
    else i - 2
  }

  lemma AnswerByte(pkt: Bytes, i: nat)
    requires Answerable(pkt) && (12 <= i < 20 || HeaderLength(pkt) <= i < HeaderLength(pkt) + 4)
    ensures Opposite(HeaderLength(pkt), i) < |pkt| == |Servfail(pkt)|
    ensures Servfail(pkt)[i] == pkt[Opposite(HeaderLength(pkt), i)]
  {
    assert Servfail(pkt)[i] == ByteAt(pkt, i);
  }

  lemma SameSlice(r: Bytes, a: nat, s: Bytes, b: nat, n: nat)
    requires a + n <= |r| && b + n <= |s| && forall i :: a <= i < a + n ==> r[i] == s[i - a + b]
    ensures r[a..a + n] == s[b..b + n]
  {
  }

  lemma SwapsBack(pkt: Bytes, r: Bytes)
    requires Answerable(pkt) && r == Servfail(pkt) && Answerable(r)
    ensures Servfail(r)[12..20] == pkt[12..20]
    ensures Servfail(r)[HeaderLength(pkt)..HeaderLength(pkt) + 4] == pkt[HeaderLength(pkt)..HeaderLength(pkt) + 4]
  {
    hide Servfail, ByteAt;
    StaysAnswerable(pkt);
    StaysAnswerable(r);
    var t, ihl := Servfail(r), HeaderLength(pkt);
    forall i | 12 <= i < 20 || ihl <= i < ihl + 4
      ensures t[i] == pkt[i]
    {
      AnswerByte(r, i);
      AnswerByte(pkt, Opposite(ihl, i));
    }
    SameSlice(t, 12, pkt, 12, 8);
    SameSlice(t, ihl, pkt, ihl, 4);
  }

  // ---------- the builder ----------

  // The sum fits 32 bits: a header has at most 30 words.
  method HeaderChecksum(resp: array<byte>, ihl: nat) returns (csum: nat)
    requires ihl % 2 == 0 && ihl <= 60 && ihl <= resp.Length
    ensures csum == Fold(Sum16(resp[..], ihl)) && csum <= ONES
  {
    csum := 0;
    var i := 0;
    while i < ihl
      invariant i % 2 == 0 && i <= ihl && csum == Sum16(resp[..], i)
      invariant csum <= ONES * (i / 2) < WORD32
    {
      csum := csum + 256 * resp[i] as nat + resp[i + 1] as nat;
      i := i + 2;
    }
    while csum > ONES
      invariant Fold(csum) == Fold(Sum16(resp[..], ihl)) && csum < WORD32
      decreases csum
    {
      csum := csum / 0x1_0000 + csum % 0x1_0000;
    }
  }

  method SwapInto(resp: array<byte>, pkt: Bytes, at: nat, n: nat)
    requires resp.Length == |pkt| && at + 2 * n <= |pkt|
    requires forall i :: at <= i < at + 2 * n ==> resp[i] == pkt[i]
    modifies resp
    ensures forall i :: at <= i < at + n ==> resp[i] == pkt[i + n] && resp[i + n] == pkt[i]
    ensures forall i :: 0 <= i < |pkt| && !(at <= i < at + 2 * n) ==> resp[i] == old(resp[i])
  {
    for k := 0 to n
      invariant forall i :: at <= i < at + k ==> resp[i] == pkt[i + n] && resp[i + n] == pkt[i]
      invariant forall i :: 0 <= i < |pkt| && !(at <= i < at + 2 * n) ==> resp[i] == old(resp[i])
    {
      resp[at + k] := pkt[at + n + k];
      resp[at + n + k] := pkt[at + k];
    }
  }

  method TurnRound(pkt: Bytes, ihl: nat) returns (resp: array<byte>)
    requires Answerable(pkt) && ihl == HeaderLength(pkt)
    ensures fresh(resp) && resp[..] == Turned(pkt)
  {
    resp := new byte[|pkt|](i requires 0 <= i < |pkt| => pkt[i]);
    SwapInto(resp, pkt, 12, 4);
    SwapInto(resp, pkt, ihl, 2);
    resp[8] := 64;
    resp[ihl + 10] := (pkt[ihl + 10] as nat % 128 + 128) as byte;
    resp[ihl + 11] := (pkt[ihl + 11] as nat - pkt[ihl + 11] as nat % 16 + 2) as byte;
    resp[10], resp[11] := 0, 0;
    resp[ihl + 6], resp[ihl + 7] := 0, 0;
    forall i | 0 <= i < |pkt|
      ensures resp[i] == ByteAt(pkt, i)
    {
    }
  }

  // built is false where the source returns nil.
  method BuildServfail(pkt: Bytes) returns (built: bool, out: Bytes)
    ensures built <==> Answerable(pkt)
    ensures built <==> |pkt| >= 1 && pkt[0] as nat / 16 == 4 && pkt[0] as nat % 16 >= 5
                       && |pkt| >= 4 * (pkt[0] as nat % 16) + 20 && pkt[9] == 17
    ensures built ==> out == Servfail(pkt)
  {
    if |pkt| < 1 || pkt[0] as nat / 16 != 4 {
      return false, [];
    }
    var ihl := 4 * (pkt[0] as nat % 16);
    if ihl < 20 {
      return false, [];
    }
    if |pkt| < ihl + 8 + 12 {
      return false, [];
    }
    if pkt[9] != 17 {
      return false, [];
    }
    var resp := TurnRound(pkt, ihl);
    var csum := HeaderChecksum(resp, ihl);
    var c := ONES - csum;
    resp[10], resp[11] := (c / 256) as byte, (c % 256) as byte;
    return true, resp[..];
  }
}
