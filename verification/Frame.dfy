// Stream framing and the probe payload (internal/transport/frame.go).
module Frame {
  newtype byte = x: int | 0 <= x < 256

  type Bytes = seq<byte>

  const MAX_FRAME := 0xFFFF
  const FLAG_IPV6 := 1
  const FLAG_PROBE := 32
  const FIXED_HEADER := 4

  // ---------- big-endian numbers ----------

  function Pow256(k: nat): (p: nat)
    ensures p > 0
  {
    if k == 0 then 1 else 256 * Pow256(k - 1)
  }

  function BE(n: nat, k: nat): (s: Bytes)
    ensures |s| == k
  {
    if k == 0 then [] else BE(n / 256, k - 1) + [(n % 256) as byte]
  }

  function UnBE(s: Bytes): nat {
    if s == [] then 0 else 256 * UnBE(s[..|s| - 1]) + s[|s| - 1] as nat
  }

  lemma {:induction false} UnBEofBE(n: nat, k: nat)
    requires n < Pow256(k)
    ensures UnBE(BE(n, k)) == n
  {
    if k > 0 {
      UnBEofBE(n / 256, k - 1);
      assert BE(n, k)[..k - 1] == BE(n / 256, k - 1);
    }
  }

  lemma {:induction false} BEofUnBE(s: Bytes)
    ensures BE(UnBE(s), |s|) == s && UnBE(s) < Pow256(|s|)
  {
    if s != [] {
      BEofUnBE(s[..|s| - 1]);
      assert s == s[..|s| - 1] + [s[|s| - 1]];
    }
  }

  lemma DivTwice(n: nat, p: nat)
    requires p > 0
    ensures n / 256 / p == n / (256 * p)
  {
    var q, r := n / 256, n % 256;
    var a, b := q / p, q % p;
    assert n == 256 * (p * a + b) + r;
    assert n == (256 * p) * a + (256 * b + r);
    QuotientIs(n, 256 * p, a, 256 * b + r);
  }

  lemma QuotientIs(n: nat, d: nat, a: nat, r: nat)
    requires r < d && n == d * a + r
    ensures n / d == a
  {
    var q := n / d;
    assert n == d * q + n % d;
    if q < a {
      StepUp(d, q, a);
    } else if a < q {
      StepUp(d, a, q);
    }
  }

  lemma StepUp(d: nat, x: nat, y: nat)
    requires x < y
    ensures d * x + d <= d * y
  {
    var z := y - x;
    assert d * y == d * x + d * z;
    assert z >= 1;
    assert d * z >= d;
  }

  // The most significant byte comes first.
  lemma {:induction false} BEDigit(n: nat, k: nat, i: nat)
    requires i < k
    ensures BE(n, k)[i] as nat == n / Pow256(k - 1 - i) % 256
  {
    if i < k - 1 {
      BEDigit(n / 256, k - 1, i);
      DivTwice(n, Pow256(k - 2 - i));
      assert BE(n, k)[i] == BE(n / 256, k - 1)[i];
    } else {
      assert Pow256(0) == 1;
    }
  }

  lemma Pow256Is()
    ensures Pow256(1) == 0x100 && Pow256(2) == 0x1_0000 && Pow256(4) == 0x1_0000_0000 && Pow256(8) == 0x1_0000_0000_0000_0000
  {
    assert Pow256(3) == 0x100_0000 && Pow256(5) == 0x100_0000_0000 && Pow256(6) == 0x1_0000_0000_0000;
  }

  // ---------- addresses ----------

  // No address, four bytes, or sixteen.
  datatype Addr = NoAddr | V4(b: Bytes) | V6(b: Bytes)

  predicate WellSized(a: Addr) {
    (a.V4? ==> |a.b| == 4) && (a.V6? ==> |a.b| == 16)
  }

  predicate Is4In6(a: Addr) {
    a.V6? && |a.b| == 16 && a.b[..10] == [0, 0, 0, 0, 0, 0, 0, 0, 0, 0] && a.b[10..12] == [255, 255]
  }

  predicate Genuine6(a: Addr) {
    a.V6? && !Is4In6(a)
  }

  function VipBytes(a: Addr): (b: Bytes)
    requires WellSized(a)
    ensures |b| == if Genuine6(a) then 16 else 4
  {
    match a
    case NoAddr => [0, 0, 0, 0]
    case V4(b) => b
    case V6(b) => if Is4In6(a) then b[12..] else b
  }

  function VipFlag(a: Addr): nat {
    if Genuine6(a) then FLAG_IPV6 else 0
  }

  // What an address is read back as.
  function Canonical(a: Addr): Addr
    requires WellSized(a)
  {
    if Genuine6(a) then a else V4(VipBytes(a))
  }

  // ---------- frames ----------

  datatype Frame = Frame(vip: Addr, relay: nat, ttl: byte, payload: Bytes)

  predicate Encodable(f: Frame) {
    WellSized(f.vip) && f.relay < 0x1_0000
  }

  function BodyOf(f: Frame, flags: byte): Bytes
    requires Encodable(f)
  {
    [flags, f.ttl] + VipBytes(f.vip) + BE(f.relay, 2) + f.payload
  }

  predicate Fits(f: Frame)
    requires Encodable(f)
  {
    FIXED_HEADER + |VipBytes(f.vip)| + |f.payload| <= MAX_FRAME
  }

  function FlagsOf(f: Frame): byte {
    VipFlag(f.vip) as byte
  }

  // What is written for a frame that fits.
  function Encoded(f: Frame): Bytes
    requires Encodable(f)
  {
    BE(|BodyOf(f, FlagsOf(f))|, 4) + BodyOf(f, FlagsOf(f))
  }

  datatype Failure = EndOfStream | TooLong | TooShort | HeaderTooShort

  datatype Parsed = Good(frame: Frame) | Bad(why: Failure)

  datatype Read = Got(parsed: Frame, flags: byte, rest: Bytes) | Failed(failure: Failure)

  function IsIPv6(flags: byte): bool {
    flags as int % 2 == 1
  }

  function Parse(body: Bytes): Parsed
    requires |body| >= 2
  {
    var vs := if IsIPv6(body[0]) then 16 else 4;
    if |body| < FIXED_HEADER + vs then Bad(HeaderTooShort)
    else
      var vip := body[2..2 + vs];
      Good(Frame(if IsIPv6(body[0]) then V6(vip) else V4(vip), UnBE(body[2 + vs..4 + vs]), body[1], body[4 + vs..]))
  }

  // Read one frame off a stream.
  function ReadFrame(s: Bytes): Read {
    if |s| < 4 then Failed(EndOfStream)
    else
      var n := UnBE(s[..4]);
      if n > MAX_FRAME then Failed(TooLong)
      else if n < FIXED_HEADER + 4 then Failed(TooShort)
      else if |s| < 4 + n then Failed(EndOfStream)
      else
        var p := Parse(s[4..4 + n]);
        if p.Bad? then Failed(p.why) else Got(p.frame, s[4], s[4 + n..])
  }

  function ReadBack(f: Frame): Frame
    requires Encodable(f)
  {
    f.(vip := Canonical(f.vip))
  }

  // A body parses to the frame it was made from, whatever other flag bits are set.
  lemma ParseBody(f: Frame, flags: byte)
    requires Encodable(f) && (IsIPv6(flags) <==> Genuine6(f.vip))
    ensures Parse(BodyOf(f, flags)) == Good(ReadBack(f))
  {
    var b, v := BodyOf(f, flags), VipBytes(f.vip);
    var vs := |v|;
    assert b[2..2 + vs] == v;
    assert b[2 + vs..4 + vs] == BE(f.relay, 2);
    assert b[4 + vs..] == f.payload;
    Pow256Is();
    UnBEofBE(f.relay, 2);
  }

  lemma ReadLength(body: Bytes, rest: Bytes)
    requires FIXED_HEADER + 4 <= |body| <= MAX_FRAME
    ensures var s := BE(|body|, 4) + body + rest;
      ReadFrame(s) == (var p := Parse(body); if p.Bad? then Failed(p.why) else Got(p.frame, body[0], rest))
  {
    var s := BE(|body|, 4) + body + rest;
    Pow256Is();
    UnBEofBE(|body|, 4);
    assert s[..4] == BE(|body|, 4);
    assert s[4..4 + |body|] == body;
    assert s[4 + |body|..] == rest;
    assert s[4] == body[0];
  }

  // The bytes of a frame, field by field: length of what follows, the bit for a long address,
  // time to live, address, relay, payload.
  lemma FrameFields(f: Frame)
    requires Encodable(f) && Fits(f)
    ensures var s, long := Encoded(f), f.vip.V6? && !Is4In6(f.vip);
      var vs := if long then 16 else 4;
      && |s| == 8 + vs + |f.payload| && s[..4] == BE(4 + vs + |f.payload|, 4)
      && s[4] == (if long then 1 else 0) && s[5] == f.ttl
      && s[6..6 + vs] == (match f.vip
                          case NoAddr => [0, 0, 0, 0]
                          case V4(b) => b
                          case V6(b) => if long then b else b[12..16])
      && s[6 + vs..8 + vs] == BE(f.relay, 2) && s[8 + vs..] == f.payload
  {
    hide BE, Is4In6;
    var v, body, head := VipBytes(f.vip), BodyOf(f, FlagsOf(f)), BE(|BodyOf(f, FlagsOf(f))|, 4);
    Regroup(head, [FlagsOf(f), f.ttl], v, BE(f.relay, 2), f.payload);
    FourParts(head + [FlagsOf(f), f.ttl], v, BE(f.relay, 2), f.payload);
    TwoParts(head, body);
  }

  lemma Regroup(a: Bytes, b: Bytes, c: Bytes, d: Bytes, e: Bytes)
    ensures a + (b + c + d + e) == (a + b) + c + d + e
  {
  }

  lemma TwoParts(a: Bytes, b: Bytes)
    ensures (a + b)[..|a|] == a && (a + b)[|a|..] == b
  {
  }

  lemma FourParts(a: Bytes, b: Bytes, c: Bytes, d: Bytes)
    ensures var s := a + b + c + d;
      && s[..|a|] == a && s[|a|..|a| + |b|] == b && s[|a| + |b|..|a| + |b| + |c|] == c && s[|a| + |b| + |c|..] == d
      && forall i :: 0 <= i < |a| ==> s[i] == a[i]
  {
  }

  lemma InFourParts(s: Bytes, i: nat, j: nat, k: nat)
    requires i <= j <= k <= |s|
    ensures s == s[..i] + s[i..j] + s[j..k] + s[k..]
  {
  }

  // Reading what was written gives the frame back, and leaves the stream after it.
  lemma ReadWritten(f: Frame, rest: Bytes)
    requires Encodable(f) && Fits(f)
    ensures ReadFrame(Encoded(f) + rest) == Got(ReadBack(f), FlagsOf(f), rest)
  {
    ParseBody(f, FlagsOf(f));
    ReadLength(BodyOf(f, FlagsOf(f)), rest);
  }

  // The address comes back as it was exactly when it is an IPv4 or a genuine IPv6 address.
  lemma ReadBackSame(f: Frame)
    requires Encodable(f)
    ensures ReadBack(f) == f <==> f.vip.V4? || Genuine6(f.vip)
  {
  }

  // ---------- streams of frames ----------

  predicate AllPlain(fs: seq<Frame>) {
    forall i :: 0 <= i < |fs| ==> Plain(fs[i])
  }

  // An IPv4 or genuine IPv6 address, and short enough.
  predicate Plain(f: Frame) {
    Encodable(f) && Fits(f) && (f.vip.V4? || Genuine6(f.vip))
  }

  function EncodedAll(fs: seq<Frame>): Bytes
    requires AllPlain(fs)
  {
    if fs == [] then [] else Encoded(fs[0]) + EncodedAll(fs[1..])
  }

  datatype Stream = Frames(frames: seq<Frame>) | Broken(before: seq<Frame>, failure: Failure)

  function Before(f: Frame, s: Stream): Stream {
    match s
    case Frames(fs) => Frames([f] + fs)
    case Broken(fs, why) => Broken([f] + fs, why)
  }

  // Read frames until the stream ends.
  function ReadAll(s: Bytes): Stream
    decreases |s|
  {
    if s == [] then Frames([])
    else
      match ReadFrame(s)
      case Failed(why) => Broken([], why)
      case Got(f, _, rest) =>
        if |rest| >= |s| then Broken([], EndOfStream)
        else
          Before(f, ReadAll(rest))
  }

  lemma ReadAllStep(f: Frame, rest: Bytes)
    requires Plain(f)
    ensures ReadAll(Encoded(f) + rest) == Before(f, ReadAll(rest))
  {
    ReadWritten(f, rest);
    ReadBackSame(f);
    hide ReadFrame, Genuine6, BodyOf;
  }

  // Any list of frames, written one after the other, is read back as the same list.
  lemma {:induction false} StreamRoundTrip(fs: seq<Frame>)
    requires AllPlain(fs)
    ensures ReadAll(EncodedAll(fs)) == Frames(fs)
  {
    hide Encodable, Encoded, Fits, ReadFrame, Genuine6;
    if fs != [] {
      StreamRoundTrip(fs[1..]);
      ReadAllStep(fs[0], EncodedAll(fs[1..]));
      assert fs == [fs[0]] + fs[1..];
    }
  }

  // A stream cut off inside a frame yields the frames before it and then the end of the stream.
  lemma {:induction false} CutStream(fs: seq<Frame>, f: Frame, n: nat)
    requires AllPlain(fs) && Plain(f) && 0 < n < |Encoded(f)|
    ensures ReadAll(EncodedAll(fs) + Encoded(f)[..n]) == Broken(fs, EndOfStream)
  {
    hide Encodable, Encoded, Fits, ReadFrame, Genuine6;
    var tail := Encoded(f)[..n];
    if fs == [] {
      CutFrame(f, n);
      assert EncodedAll(fs) + tail == tail;
    } else {
      CutStream(fs[1..], f, n);
      var rest := EncodedAll(fs[1..]) + tail;
      assert EncodedAll(fs) + tail == Encoded(fs[0]) + rest;
      ReadAllStep(fs[0], rest);
      assert fs == [fs[0]] + fs[1..];
    }
  }

  lemma CutFrame(f: Frame, n: nat)
    requires Plain(f) && 0 < n < |Encoded(f)|
    ensures ReadFrame(Encoded(f)[..n]) == Failed(EndOfStream)
  {
    var b := BodyOf(f, FlagsOf(f));
    var s := Encoded(f)[..n];
    if n >= 4 {
      assert s[..4] == BE(|b|, 4);
      Pow256Is();
      UnBEofBE(|b|, 4);
    }
  }

  // The other way round: a frame read with no flag but the IPv6 one is written as the very
  // bytes it was read from, unless it holds an IPv4 address in sixteen bytes.
  lemma WrittenRead(s: Bytes)
    requires ReadFrame(s).Got? && ReadFrame(s).flags as int <= FLAG_IPV6 && !Is4In6(ReadFrame(s).parsed.vip)
    ensures var r := ReadFrame(s);
      Plain(r.parsed) && Encoded(r.parsed) + r.rest == s
  {
    hide BE, UnBE, Parse, Is4In6, BodyOf, ReadFrame, Plain;
    GotParts(s);
    var n := UnBE(s[..4]);
    BodyAgain(s[4..4 + n]);
    BEofUnBE(s[..4]);
    InFourParts(s, 4, 4 + n, 4 + n);
  }

  lemma GotParts(s: Bytes)
    requires ReadFrame(s).Got?
    ensures |s| >= 4 && FIXED_HEADER + 4 <= UnBE(s[..4]) <= MAX_FRAME && 4 + UnBE(s[..4]) <= |s|
    ensures var n := UnBE(s[..4]);
      var p := Parse(s[4..4 + n]);
      p.Good? && ReadFrame(s) == Got(p.frame, s[4], s[4 + n..])
  {
    hide UnBE, Parse;
  }

  lemma BodyAgain(body: Bytes)
    requires FIXED_HEADER + 4 <= |body| <= MAX_FRAME && Parse(body).Good? && body[0] as int <= FLAG_IPV6
    requires !Is4In6(Parse(body).frame.vip)
    ensures var f := Parse(body).frame;
      Plain(f) && BodyOf(f, FlagsOf(f)) == body
  {
    hide BE, UnBE, Is4In6, Parse;
    var vs := if IsIPv6(body[0]) then 16 else 4;
    ParsedFields(body);
    RelayBack(body[2 + vs..4 + vs]);
    InFourParts(body, 2, 2 + vs, 4 + vs);
    assert body[..2] == [body[0], body[1]];
  }

  lemma ParsedFields(body: Bytes)
    requires |body| >= 2 && Parse(body).Good?
    ensures var vs := if IsIPv6(body[0]) then 16 else 4;
      && |body| >= 4 + vs
      && Parse(body).frame == Frame(if IsIPv6(body[0]) then V6(body[2..2 + vs]) else V4(body[2..2 + vs]),
                                    UnBE(body[2 + vs..4 + vs]), body[1], body[4 + vs..])
  {
    hide UnBE;
  }

  lemma RelayBack(s: Bytes)
    requires |s| == 2
    ensures UnBE(s) < 0x1_0000 && BE(UnBE(s), 2) == s
  {
    BEofUnBE(s);
    Pow256Is();
  }

  // ---------- writing into a buffer ----------

  method CopyInto(buf: array<byte>, off: nat, src: Bytes)
    requires off + |src| <= buf.Length
    modifies buf
    ensures buf[..off + |src|] == old(buf[..off]) + src
  {
    for i := 0 to |src|
      invariant buf[..off + i] == old(buf[..off]) + src[..i]
    {
      buf[off + i] := src[i];
    }
    assert src[..|src|] == src;
  }

  method WriteStreamFrame(f: Frame) returns (ok: bool, out: Bytes)
    requires Encodable(f)
    ensures ok <==> Fits(f)
    ensures ok <==> (if f.vip.V6? && !Is4In6(f.vip) then 20 else 8) + |f.payload| <= 65535
    ensures ok ==> out == Encoded(f)
  {
    hide BE, VipBytes, FlagsOf;
    var vip := VipBytes(f.vip);
    var totalAfterLen := FIXED_HEADER + |vip| + |f.payload|;
    if totalAfterLen > MAX_FRAME {
      return false, [];
    }
    var buf := new byte[4 + totalAfterLen](_ => 0);
    assert buf[..0] == [];
    CopyInto(buf, 0, BE(totalAfterLen, 4));
    CopyInto(buf, 4, [FlagsOf(f), f.ttl]);
    CopyInto(buf, 6, vip);
    CopyInto(buf, 6 + |vip|, BE(f.relay, 2));
    CopyInto(buf, 8 + |vip|, f.payload);
    ok, out := true, buf[..];
    assert out == buf[..8 + |vip| + |f.payload|];
    assert out == BE(totalAfterLen, 4) + BodyOf(f, FlagsOf(f));
  }

  // ---------- the probe payload ----------

  datatype Entry = NoEntry | Entry(dst: Bytes, nextHop: Bytes, rttMs: real)

  // Addresses are four bytes: any other address makes the encoder panic.
  datatype Probe = Probe(isReply: bool, autoReply: bool, isRouteSync: bool, nonce: nat, timestampNs: int,
                         source: Bytes, hopIndex: byte, origHop: byte, route: seq<Bytes>, entry: Entry)

  const TWO63: int := 0x8000_0000_0000_0000
  const TWO64: int := 0x1_0000_0000_0000_0000
  const PROBE_FIXED := 24

  predicate WellTyped(p: Probe) {
    && p.nonce < TWO64 && -TWO63 <= p.timestampNs < TWO63 && |p.source| == 4
    && (forall v :: v in p.route ==> |v| == 4)
    && (p.entry.Entry? ==> |p.entry.dst| == 4 && |p.entry.nextHop| == 4)
    && (p.isRouteSync ==> p.entry.Entry?)
  }

  function ProbeFlags(p: Probe): byte {
    ((if p.isReply then 1 else 0) + (if p.autoReply then 2 else 0) + (if p.isRouteSync then 4 else 0)) as byte
  }

  // Two's complement, as the conversion between int64 and uint64.
  function Unsigned(t: int): nat
    requires -TWO63 <= t < TWO63
  {
    if t < 0 then t + TWO64 else t
  }

  function Signed(n: nat): int
    requires n < TWO64
  {
    if n >= TWO63 then n - TWO64 else n
  }

  // The conversion of a float to uint16 truncates in range; out of range the result is
  // whatever the machine gives.
  function ToWord(x: real, odd: nat): nat {
    if 0.0 <= x < 65536.0 then x.Floor else odd % 0x1_0000
  }

  function JoinAll(vs: seq<Bytes>): Bytes {
    if vs == [] then [] else JoinAll(vs[..|vs| - 1]) + vs[|vs| - 1]
  }

  function HeadOf(p: Probe): (h: Bytes)
    requires WellTyped(p)
    ensures |h| == PROBE_FIXED
  {
    [ProbeFlags(p)] + BE(p.nonce, 8) + BE(Unsigned(p.timestampNs), 8) + p.source
    + [p.hopIndex, p.origHop, (|p.route| % 256) as byte]
  }

  function EncodeProbe(p: Probe, odd: nat): Bytes
    requires WellTyped(p)
  {
    HeadOf(p) + JoinAll(p.route)
    + if p.isRouteSync then p.entry.dst + p.entry.nextHop + BE(ToWord(p.entry.rttMs, odd), 2) else []
  }

  datatype Decoded = Probed(probe: Probe) | Short | OutOfBounds

  function Quads(s: Bytes, n: nat): (r: seq<Bytes>)
    requires 4 * n <= |s|
    ensures |r| == n && forall i :: 0 <= i < n ==> r[i] == s[4 * i..4 * i + 4]
  {
    seq(n, i requires 0 <= i < n => s[4 * i..4 * i + 4])
  }

  function DecodeProbe(s: Bytes): Decoded {
    if |s| < PROBE_FIXED then Short
    else
      var flags := s[0] as int;
      var count := s[23] as int;
      var off := PROBE_FIXED + 4 * count;
      if off > |s| then OutOfBounds
      else
        assert UnBE(s[9..17]) < TWO64 by {
          BEofUnBE(s[9..17]);
          Pow256Is();
        }
        var sync := flags / 4 % 2 == 1;
        Probed(Probe(flags % 2 == 1, flags / 2 % 2 == 1, sync, UnBE(s[1..9]), Signed(UnBE(s[9..17])), s[17..21],
                     s[21], s[22], Quads(s[PROBE_FIXED..], count),
                     EntryAt(s, off, sync)))
  }

  function EntryAt(s: Bytes, off: nat, sync: bool): Entry {
    if sync && off + 10 <= |s| then Entry(s[off..off + 4], s[off + 4..off + 8], UnBE(s[off + 8..off + 10]) as real)
    else NoEntry
  }

  lemma {:induction false} JoinedLength(vs: seq<Bytes>)
    requires forall v :: v in vs ==> |v| == 4
    ensures |JoinAll(vs)| == 4 * |vs|
  {
    if vs != [] {
      JoinedLength(vs[..|vs| - 1]);
    }
  }

  lemma {:induction false} JoinedAt(vs: seq<Bytes>, i: nat)
    requires (forall v :: v in vs ==> |v| == 4) && i < |vs|
    ensures 4 * i + 4 <= |JoinAll(vs)| && JoinAll(vs)[4 * i..4 * i + 4] == vs[i]
  {
    JoinedLength(vs);
    JoinedLength(vs[..|vs| - 1]);
    if i < |vs| - 1 {
      JoinedAt(vs[..|vs| - 1], i);
      assert JoinAll(vs)[4 * i..4 * i + 4] == JoinAll(vs[..|vs| - 1])[4 * i..4 * i + 4];
    }
  }

  // The round-trip time survives: a whole number of milliseconds below 65536.
  predicate WholeMs(x: real) {
    0.0 <= x < 65536.0 && x == x.Floor as real
  }

  predicate Carried(p: Probe) {
    |p.route| <= 255 && (if p.isRouteSync then p.entry.Entry? && WholeMs(p.entry.rttMs) else p.entry == NoEntry)
  }

  // The bytes of an encoded probe, field by field.
  lemma ProbeFields(p: Probe, odd: nat)
    requires WellTyped(p)
    ensures var s := EncodeProbe(p, odd);
      && |s| == PROBE_FIXED + 4 * |p.route| + (if p.isRouteSync then 10 else 0)
      && s[0] as nat == (if p.isReply then 1 else 0) + (if p.autoReply then 2 else 0) + (if p.isRouteSync then 4 else 0)
      && s[0] == ProbeFlags(p) && s[1..9] == BE(p.nonce, 8) && s[9..17] == BE(Unsigned(p.timestampNs), 8)
      && s[17..21] == p.source && s[21] == p.hopIndex && s[22] == p.origHop && s[23] == (|p.route| % 256) as byte
      && s[PROBE_FIXED..PROBE_FIXED + 4 * |p.route|] == JoinAll(p.route)
  {
    JoinedLength(p.route);
  }

  lemma SyncFields(p: Probe, odd: nat)
    requires WellTyped(p) && p.isRouteSync
    ensures var s := EncodeProbe(p, odd);
      var off := PROBE_FIXED + 4 * |p.route|;
      && |s| == off + 10 && s[off..off + 4] == p.entry.dst && s[off + 4..off + 8] == p.entry.nextHop
      && s[off + 8..off + 10] == BE(ToWord(p.entry.rttMs, odd), 2)
  {
    JoinedLength(p.route);
  }

  lemma SliceOfSlice(s: Bytes, a: nat, n: nat, i: nat)
    requires a + n <= |s| && i + 4 <= n
    ensures s[a..][i..i + 4] == s[a..a + n][i..i + 4]
  {
    var t, u := s[a..], s[a..a + n];
    assert forall k :: 0 <= k < n ==> t[k] == s[a + k] == u[k];
    var v, w := t[i..i + 4], u[i..i + 4];
    assert forall k :: 0 <= k < 4 ==> v[k] == t[i + k] && w[k] == u[i + k];
    assert v == w;
  }

  lemma RouteFields(p: Probe, odd: nat)
    requires WellTyped(p)
    ensures PROBE_FIXED + 4 * |p.route| <= |EncodeProbe(p, odd)|
    ensures Quads(EncodeProbe(p, odd)[PROBE_FIXED..], |p.route|) == p.route
  {
    ProbeFields(p, odd);
    var s := EncodeProbe(p, odd);
    var q := Quads(s[PROBE_FIXED..], |p.route|);
    hide EncodeProbe;
    forall i | 0 <= i < |q|
      ensures q[i] == p.route[i]
    {
      JoinedAt(p.route, i);
      SliceOfSlice(s, PROBE_FIXED, 4 * |p.route|, 4 * i);
    }
  }

  lemma NumbersBack(p: Probe)
    requires WellTyped(p)
    ensures UnBE(BE(p.nonce, 8)) == p.nonce
    ensures UnBE(BE(Unsigned(p.timestampNs), 8)) < TWO64 && Signed(UnBE(BE(Unsigned(p.timestampNs), 8))) == p.timestampNs
  {
    Pow256Is();
    UnBEofBE(p.nonce, 8);
    UnBEofBE(Unsigned(p.timestampNs), 8);
  }

  lemma FlagsBack(p: Probe)
    ensures var f := ProbeFlags(p) as int;
      (f % 2 == 1 <==> p.isReply) && (f / 2 % 2 == 1 <==> p.autoReply) && (f / 4 % 2 == 1 <==> p.isRouteSync)
  {
  }

  // What a probe with a route that fits the count decodes to: everything as it was, but for an
  // entry that is not sent, and a round-trip time cut to whole milliseconds.
  lemma DecodeEncoded(p: Probe, odd: nat)
    requires WellTyped(p) && |p.route| <= 255
    ensures DecodeProbe(EncodeProbe(p, odd)) ==
      Probed(p.(entry := if p.isRouteSync then Entry(p.entry.dst, p.entry.nextHop, ToWord(p.entry.rttMs, odd) as real) else NoEntry))
  {
    hide EncodeProbe, BE, UnBE, Signed, Unsigned, ProbeFlags, ToWord, JoinAll, Quads, EntryAt, WellTyped;
    ProbeFields(p, odd);
    RouteFields(p, odd);
    NumbersBack(p);
    FlagsBack(p);
    EntryBack(p, odd);
  }

  lemma EntryBack(p: Probe, odd: nat)
    requires WellTyped(p)
    ensures EntryAt(EncodeProbe(p, odd), PROBE_FIXED + 4 * |p.route|, p.isRouteSync) ==
      if p.isRouteSync then Entry(p.entry.dst, p.entry.nextHop, ToWord(p.entry.rttMs, odd) as real) else NoEntry
  {
    if p.isRouteSync {
      SyncFields(p, odd);
      Pow256Is();
      UnBEofBE(ToWord(p.entry.rttMs, odd), 2);
    }
  }

  // A probe payload survives the round trip exactly when it has at most 255 hops and, if it
  // carries a route to share, a whole number of milliseconds in range.
  lemma ProbeRoundTrip(p: Probe, odd: nat)
    requires WellTyped(p)
    ensures DecodeProbe(EncodeProbe(p, odd)) == Probed(p) <==> Carried(p)
  {
    if |p.route| <= 255 {
      DecodeEncoded(p, odd);
    } else {
      ProbeFields(p, odd);
      TooManyHops(p, odd);
    }
  }

  lemma TooManyHops(p: Probe, odd: nat)
    requires WellTyped(p) && |p.route| > 255
    ensures DecodeProbe(EncodeProbe(p, odd)).Probed?
    ensures DecodeProbe(EncodeProbe(p, odd)).probe.route == p.route[..|p.route| % 256]
  {
    hide EncodeProbe;
    ProbeFields(p, odd);
    RouteFields(p, odd);
    QuadsPrefix(EncodeProbe(p, odd)[PROBE_FIXED..], |p.route|, |p.route| % 256);
  }

  lemma QuadsPrefix(s: Bytes, n: nat, m: nat)
    requires m <= n && 4 * n <= |s|
    ensures Quads(s, m) == Quads(s, n)[..m]
  {
  }

  method CopyRoute(buf: array<byte>, route: seq<Bytes>)
    requires (forall v :: v in route ==> |v| == 4) && PROBE_FIXED + 4 * |route| <= buf.Length
    modifies buf
    ensures buf[..PROBE_FIXED + 4 * |route|] == old(buf[..PROBE_FIXED]) + JoinAll(route)
  {
    for i := 0 to |route|
      invariant buf[..PROBE_FIXED + 4 * i] == old(buf[..PROBE_FIXED]) + JoinAll(route[..i])
    {
      assert route[..i + 1][..i] == route[..i];
      CopyInto(buf, PROBE_FIXED + 4 * i, route[i]);
    }
    assert route[..|route|] == route;
  }

  method EncodeProbePayload(p: Probe, odd: nat) returns (out: Bytes)
    requires WellTyped(p)
    ensures out == EncodeProbe(p, odd)
  {
    hide BE, ToWord, JoinAll, HeadOf;
    JoinedLength(p.route);
    var buf := new byte[PROBE_FIXED + 4 * |p.route| + if p.isRouteSync then 10 else 0](_ => 0);
    assert buf[..0] == [];
    CopyInto(buf, 0, HeadOf(p));
    CopyRoute(buf, p.route);
    var off := PROBE_FIXED + 4 * |p.route|;
    if p.isRouteSync {
      CopyInto(buf, off, p.entry.dst);
      CopyInto(buf, off + 4, p.entry.nextHop);
      CopyInto(buf, off + 8, BE(ToWord(p.entry.rttMs, odd), 2));
      off := off + 10;
    }
    out := buf[..];
    assert out == buf[..off];
  }

  // ---------- a probe frame on the stream ----------

  lemma BodyShape(f: Frame, flags: byte)
    requires Encodable(f)
    ensures |BodyOf(f, flags)| == FIXED_HEADER + |VipBytes(f.vip)| + |f.payload| && BodyOf(f, flags)[0] == flags
  {
  }

  // Written without the length check of other frames: a route of at most 255 hops fits.
  function EncodedProbeFrame(p: Probe, vip: Addr, odd: nat): Bytes
    requires WellTyped(p) && WellSized(vip)
  {
    var ttl := ((|p.route| - p.hopIndex as int) % 256) as byte;
    var body := BodyOf(Frame(vip, 0, ttl, EncodeProbe(p, odd)), (VipFlag(vip) + FLAG_PROBE) as byte);
    BE(|body| % 0x1_0000_0000, 4) + body
  }

  // Read off the stream, a probe frame shows its flag and its target and decodes to the probe.
  lemma ProbeFrameRoundTrip(p: Probe, vip: Addr, odd: nat, rest: Bytes)
    requires WellTyped(p) && WellSized(vip) && Carried(p)
    ensures var r := ReadFrame(EncodedProbeFrame(p, vip, odd) + rest);
      && r.Got? && r.rest == rest && r.flags as int / FLAG_PROBE % 2 == 1
      && r.parsed.vip == Canonical(vip) && DecodeProbe(r.parsed.payload) == Probed(p)
  {
    hide EncodeProbe, DecodeProbe, BE, UnBE, JoinAll, ReadFrame, BodyOf, VipBytes;
    var ttl := ((|p.route| - p.hopIndex as int) % 256) as byte;
    ProbeFields(p, odd);
    ProbeRoundTrip(p, odd);
    FlagBits(vip);
    FlaggedRead(Frame(vip, 0, ttl, EncodeProbe(p, odd)), (VipFlag(vip) + FLAG_PROBE) as byte, rest);
  }

  lemma FlagBits(vip: Addr)
    ensures var flags := (VipFlag(vip) + FLAG_PROBE) as byte;
      (IsIPv6(flags) <==> Genuine6(vip)) && flags as int / FLAG_PROBE % 2 == 1
  {
  }

  // Reading a frame that was written with other flags set.
  lemma FlaggedRead(f: Frame, flags: byte, rest: Bytes)
    requires Encodable(f) && (IsIPv6(flags) <==> Genuine6(f.vip)) && Fits(f)
    ensures ReadFrame(BE(|BodyOf(f, flags)| % 0x1_0000_0000, 4) + BodyOf(f, flags) + rest) == Got(ReadBack(f), flags, rest)
  {
    hide BodyOf, Parse, ReadFrame, VipBytes, BE;
    BodyShape(f, flags);
    ParseBody(f, flags);
    ReadLength(BodyOf(f, flags), rest);
  }
}
