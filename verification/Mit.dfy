/** The per-joint MIT command frame: five fixed-point codes packed into eight bytes. */
module Mit {
  import opened Bytes
  import opened Quantiser
  import opened Rounding

  datatype Protocol = V2 | V3

  /** Pre-packed codes, each a 16-bit field of the message whatever its width on the wire. */
  datatype Codes = Codes(pos: uint16, vel: uint16, kp: uint16, kd: uint16, torque: uint16) {
    /** Every code fits the bits the protocol gives it. */
    predicate InWidth(p: Protocol) {
      vel < 0x1000 && kp < 0x1000 && kd < 0x1000 && torque < if p.V2? then 0x100 else 0x1000
    }
  }

  /** Bitwise exclusive or. */
  function Xor(a: nat, b: nat): nat {
    if a == 0 && b == 0 then 0 else (a + b) % 2 + 2 * Xor(a / 2, b / 2)
  }

  /** The exclusive or of the first `n` bytes, in the driver's left-to-right order. */
  function XorPrefix(d: seq<byte>, n: nat): nat
    requires n <= |d|
  {
    if n == 0 then 0 else if n == 1 then d[0] else Xor(XorPrefix(d, n - 1), d[n - 1])
  }

  /** The check nibble of V2: the low nibble of the exclusive or of the first seven bytes. */
  function CheckNibble(d: seq<byte>): (n: byte)
    requires |d| >= 7
    ensures n < 0x10
  {
    XorPrefix(d, 7) % 0x10
  }

  lemma {:induction false} SamePrefix(d: seq<byte>, e: seq<byte>, n: nat)
    requires n <= |d| && n <= |e| && forall k :: 0 <= k < n ==> d[k] == e[k]
    ensures XorPrefix(d, n) == XorPrefix(e, n)
  {
    if n <= 1 {
    } else {
      SamePrefix(d, e, n - 1);
    }
  }

  /** The bytes both protocols place identically. Shifts and masks of disjoint bit ranges are written as sums. */
  function GainBytes(c: Codes): (s: seq<byte>)
    ensures |s| == 7
  {
    [c.pos / 0x100, c.pos % 0x100, c.vel / 0x10 % 0x100, c.vel % 0x10 * 0x10 + c.kp / 0x100 % 0x10,
     c.kp % 0x100, c.kd / 0x10 % 0x100, c.kd % 0x10 * 0x10]
  }

  /** What the encoder of each protocol puts on the wire, for any codes, masked as the driver masks them. */
  function Pack(c: Codes, p: Protocol): Payload {
    var g := GainBytes(c);
    var t := if p.V3? then c.torque / 0x100 % 0x10 else c.torque / 0x10 % 0x10;
    var d := [g[0], g[1], g[2], g[3], g[4], g[5], g[6] + t];
    d + [if p.V3? then c.torque % 0x100 else c.torque % 0x10 * 0x10 + CheckNibble(d)]
  }

  /** The receiver's reading of the bit fields. */
  function Unpack(d: Payload, p: Protocol): Codes {
    Codes(
      d[0] as int * 0x100 + d[1],
      d[2] as int * 0x10 + d[3] / 0x10,
      (d[3] % 0x10) as int * 0x100 + d[4],
      d[5] as int * 0x10 + d[6] / 0x10,
      if p.V3? then (d[6] % 0x10) as int * 0x100 + d[7] else (d[6] % 0x10) as int * 0x10 + d[7] / 0x10)
  }

  /** The payloads the protocol's encoder can produce: all of them under V3, those that pass the check under V2. */
  predicate WellChecked(d: Payload, p: Protocol) {
    p.V2? ==> d[7] % 0x10 == CheckNibble(d)
  }

  lemma Nibbles(hi: int, lo: int)
    requires 0 <= lo < 0x10
    ensures (hi * 0x10 + lo) / 0x10 == hi && (hi * 0x10 + lo) % 0x10 == lo
  {}

  /** A value of at most 12 bits split as 8 + 4 bits, and as 4 + 8 bits. */
  lemma Split12(v: int)
    requires 0 <= v < 0x1000
    ensures v / 0x10 % 0x100 * 0x10 + v % 0x10 == v
    ensures v / 0x100 % 0x10 * 0x100 + v % 0x100 == v
    ensures 0 <= v / 0x100 % 0x10 < 0x10
  {}

  lemma BytePair(hi: int, lo: int)
    requires 0 <= lo < 0x100
    ensures (hi * 0x100 + lo) / 0x100 == hi && (hi * 0x100 + lo) % 0x100 == lo
  {}

  /** In-width codes come back unchanged, so no field spills into its neighbour. */
  lemma UnpackPack(c: Codes, p: Protocol)
    requires c.InWidth(p)
    ensures Unpack(Pack(c, p), p) == c
    ensures WellChecked(Pack(c, p), p)
  {
    var t := if p.V3? then c.torque / 0x100 else c.torque / 0x10;
    assert t % 0x10 == t;
    GainsFrom(c, Pack(c, p), t);
    if p.V3? {
      Split12(c.torque);
    } else {
      CheckedByte(c.torque, Pack(c, p));
    }
  }

  lemma CheckedByte(t: nat, d: Payload)
    requires t < 0x100 && d[7] == t % 0x10 * 0x10 + CheckNibble(d[..7])
    ensures t / 0x10 * 0x10 + d[7] / 0x10 == t && d[7] % 0x10 == CheckNibble(d)
  {
    SamePrefix(d, d[..7], 7);
    Nibbles(t % 0x10, CheckNibble(d));
  }

  lemma GainsFrom(c: Codes, d: Payload, t: nat)
    requires c.vel < 0x1000 && c.kp < 0x1000 && c.kd < 0x1000 && t < 0x10
    requires var g := GainBytes(c); (forall k :: 0 <= k < 6 ==> d[k] == g[k]) && d[6] == g[6] + t
    ensures d[0] as int * 0x100 + d[1] == c.pos && d[2] as int * 0x10 + d[3] / 0x10 == c.vel
    ensures (d[3] % 0x10) as int * 0x100 + d[4] == c.kp
    ensures d[5] as int * 0x10 + d[6] / 0x10 == c.kd && d[6] % 0x10 == t
  {
    Split12(c.vel);
    Split12(c.kp);
    Split12(c.kd);
    Nibbles(c.vel % 0x10, c.kp / 0x100 % 0x10);
    Nibbles(c.kd % 0x10, t);
  }

  /** Reading then re-packing keeps the first six bytes and the torque bits of the seventh. */
  lemma GainsOfUnpack(d: Payload, p: Protocol)
    ensures var c, g := Unpack(d, p), GainBytes(Unpack(d, p));
            g[..6] == d[..6] && g[6] == d[6] / 0x10 * 0x10
  {
    var c := Unpack(d, p);
    BytePair(d[0], d[1]);
    Nibbles(d[2], d[3] / 0x10);
    BytePair(d[3] % 0x10, d[4]);
    Nibbles(d[5], d[6] / 0x10);
    assert c.vel / 0x10 == d[2] && c.vel % 0x10 == d[3] / 0x10;
    assert c.kd / 0x10 == d[5] && c.kd % 0x10 == d[6] / 0x10;
  }

  /** Every well-checked payload is the packing of the in-width codes read from it. */
  lemma PackUnpack(d: Payload, p: Protocol)
    requires WellChecked(d, p)
    ensures Unpack(d, p).InWidth(p)
    ensures Pack(Unpack(d, p), p) == d
  {
    var c, g := Unpack(d, p), GainBytes(Unpack(d, p));
    GainsOfUnpack(d, p);
    assert forall k :: 0 <= k < 6 ==> g[k] == g[..6][k] == d[..6][k] == d[k];
    if p.V3? {
      BytePair(d[6] % 0x10, d[7]);
    } else {
      Nibbles(d[6] % 0x10, d[7] / 0x10);
    }
    TorqueOfUnpack(d, p, c, g);
  }

  lemma TorqueOfUnpack(d: Payload, p: Protocol, c: Codes, g: seq<byte>)
    requires WellChecked(d, p) && c == Unpack(d, p) && g == GainBytes(c)
    requires g[6] == d[6] / 0x10 * 0x10 && forall k :: 0 <= k < 6 ==> g[k] == d[k]
    requires if p.V3? then c.torque / 0x100 == d[6] % 0x10 && c.torque % 0x100 == d[7]
             else c.torque / 0x10 == d[6] % 0x10 && c.torque % 0x10 == d[7] / 0x10
    ensures Pack(c, p) == d
  {
    var t := if p.V3? then c.torque / 0x100 % 0x10 else c.torque / 0x10 % 0x10;
    assert g[6] + t == d[6];
    assert [g[0], g[1], g[2], g[3], g[4], g[5], g[6] + t] == d[..7];
    SamePrefix(d, d[..7], 7);
    assert Pack(c, p)[7] == d[7];
  }

  /** Exclusive or acts bit by bit, so its low bits determine, and are determined by, those of one argument. */
  lemma {:induction false} XorLowBits(a: nat, a': nat, b: nat, b': nat, m: nat)
    requires m == 1 || m == 2 || m == 4 || m == 8 || m == 16
    requires b % m == b' % m
    ensures Xor(a, b) % m == Xor(a', b') % m <==> a % m == a' % m
  {
    if m <= 1 {
    } else {
      var h := m / 2;
      XorLowBits(a / 2, a' / 2, b / 2, b' / 2, h) by {
        LowBit(b, b', h);
      }
      LowBit(a, a', h);
      XorHalves(a, b);
      XorHalves(a', b');
      LowBit(Xor(a, b), Xor(a', b'), h);
      LowBit(b, b', h);
      SumParity(a, a', b, b');
    }
  }

  lemma XorHalves(a: nat, b: nat)
    ensures Xor(a, b) % 2 == (a + b) % 2 && Xor(a, b) / 2 == Xor(a / 2, b / 2)
  {
    Halves((a + b) % 2, Xor(a / 2, b / 2));
  }

  lemma Halves(bit: nat, rest: nat)
    requires bit < 2
    ensures (bit + 2 * rest) % 2 == bit && (bit + 2 * rest) / 2 == rest
  {}

  lemma SumParity(a: nat, a': nat, b: nat, b': nat)
    requires b % 2 == b' % 2
    ensures (a + b) % 2 == (a' + b') % 2 <==> a % 2 == a' % 2
  {}

  /** Numbers agree on their low bits exactly if they agree on the lowest and on those of their halves. */
  lemma LowBit(a: nat, b: nat, h: nat)
    requires h == 1 || h == 2 || h == 4 || h == 8
    ensures a % (2 * h) == b % (2 * h) <==> a % 2 == b % 2 && a / 2 % h == b / 2 % h
  {
    HalveMod(a, h);
    HalveMod(b, h);
  }

  lemma HalveMod(a: nat, h: nat)
    requires h == 1 || h == 2 || h == 4 || h == 8
    ensures a % (2 * h) == a % 2 + 2 * (a / 2 % h)
  {}

  lemma {:induction false} XorCommutes(a: nat, b: nat)
    ensures Xor(a, b) == Xor(b, a)
  {
    if a == 0 && b == 0 {
    } else {
      XorCommutes(a / 2, b / 2);
    }
  }

  /** A V2 frame with one of its first seven bytes replaced still passes the check exactly if the low nibble survived. */
  lemma CheckDetects(d: Payload, k: nat, b: byte)
    requires WellChecked(d, V2) && k < 7
    ensures WellChecked(d[k := b], V2) <==> b % 0x10 == d[k] % 0x10
  {
    NibbleFollows(d, d[k := b], k);
  }

  /** The check nibbles of sequences that agree except at `k` agree exactly if the low nibbles at `k` do. */
  lemma NibbleFollows(d: seq<byte>, e: seq<byte>, k: nat)
    requires |d| == |e| == 8 && k < 7 && e == d[k := e[k]]
    ensures CheckNibble(d) == CheckNibble(e) <==> d[k] % 0x10 == e[k] % 0x10
  {
    var x, y := XorPrefix(d, k), XorPrefix(e, k);
    SamePrefix(d, e, k);
    if k == 0 {
    } else {
      XorCommutes(x, d[k]);
      XorCommutes(x, e[k]);
      XorLowBits(d[k], e[k], x, x, 16);
    }
    PrefixFollows(d, e, k, 7);
  }

  lemma {:induction false} PrefixFollows(d: seq<byte>, e: seq<byte>, k: nat, n: nat)
    requires |d| == |e| == 8 && k < n <= 7 && e == d[k := e[k]]
    requires XorPrefix(d, k + 1) % 0x10 == XorPrefix(e, k + 1) % 0x10 <==> d[k] % 0x10 == e[k] % 0x10
    ensures XorPrefix(d, n) % 0x10 == XorPrefix(e, n) % 0x10 <==> d[k] % 0x10 == e[k] % 0x10
  {
    if n <= k + 1 {
    } else {
      PrefixFollows(d, e, k, n - 1);
      XorLowBits(XorPrefix(d, n - 1), XorPrefix(e, n - 1), d[n - 1], e[n - 1], 16);
    }
  }

  const POS := Range(-12.5, 12.5, 16)
  const VEL := Range(-45.0, 45.0, 12)
  const KP := Range(0.0, 500.0, 12)
  const KD := Range(-5.0, 5.0, 12)
  const TORQUE_V2 := Range(-8.0, 8.0, 8)
  const TORQUE_V3 := Range(-16.0, 16.0, 12)

  function Field(value: real, r: Range, p: Protocol): (c: uint16)
    requires r.Valid() && r.bits <= 16
    ensures c <= r.MaxCode()
  {
    var q := if p.V2? then Nearest else Truncate;
    CodeFitsField(value, r, q);
    WidthAtMost16(r);
    FloatToUintRange(value, r, q)
  }

  lemma WidthAtMost16(r: Range)
    requires r.bits <= 16
    ensures r.MaxCode() < 0x1_0000
  {
    Pow2Monotone(r.bits, 16);
    Pow2Of16();
  }

  lemma {:induction false} Pow2Monotone(m: nat, n: nat)
    requires m <= n
    ensures Pow2(m) <= Pow2(n)
  {
    if m >= n {
    } else {
      Pow2Monotone(m, n - 1);
    }
  }

  lemma Pow2Of16()
    ensures Pow2(8) == 0x100 && Pow2(12) == 0x1000 && Pow2(16) == 0x1_0000
  {
    assert Pow2(4) == 0x10;
    assert Pow2(8) == 0x100;
    assert Pow2(12) == 0x1000;
  }

  /** The float arguments of a MIT command as codes of the protocol. */
  function PackJointMit(pos: real, vel: real, kp: real, kd: real, torque: real, p: Protocol): Codes {
    Codes(Field(pos, POS, p), Field(vel, VEL, p), Field(kp, KP, p), Field(kd, KD, p),
          Field(torque, if p.V2? then TORQUE_V2 else TORQUE_V3, p))
  }

  /** Whatever floats are commanded, the receiver unpacks the very codes the quantiser produced. */
  lemma CommandSurvivesTheWire(pos: real, vel: real, kp: real, kd: real, torque: real, p: Protocol)
    ensures var c := PackJointMit(pos, vel, kp, kd, torque, p);
            c.InWidth(p) && Unpack(Pack(c, p), p) == c
  {
    Pow2Of16();
    UnpackPack(PackJointMit(pos, vel, kp, kd, torque, p), p);
  }

  /** The two protocols read different codes from position, velocity and gains by at most one, V2 never the lower. */
  lemma ProtocolsAgreeWithinOne(pos: real, vel: real, kp: real, kd: real, torque: real)
    ensures var a, b := PackJointMit(pos, vel, kp, kd, torque, V2), PackJointMit(pos, vel, kp, kd, torque, V3);
            && 0 <= a.pos - b.pos <= 1 && 0 <= a.vel - b.vel <= 1
            && 0 <= a.kp - b.kp <= 1 && 0 <= a.kd - b.kd <= 1
  {
    ProtocolsWithinOneCode(pos, POS);
    ProtocolsWithinOneCode(vel, VEL);
    ProtocolsWithinOneCode(kp, KP);
    ProtocolsWithinOneCode(kd, KD);
  }

  // ---------- The layout, bit by bit ----------

  /** The k-th binary digit. */
  function Bit(n: nat, k: nat): nat {
    if k == 0 then n % 2 else Bit(n / 2, k - 1)
  }

  /** How many of the first `n` bytes have their k-th bit set. */
  function BitCount(d: seq<byte>, n: nat, k: nat): nat
    requires n <= |d|
  {
    if n == 0 then 0 else BitCount(d, n - 1, k) + Bit(d[n - 1], k)
  }

  lemma {:induction false} XorBit(a: nat, b: nat, k: nat)
    ensures Bit(Xor(a, b), k) == (Bit(a, k) + Bit(b, k)) % 2
    decreases k
  {
    XorHalves(a, b);
    if k == 0 {
    } else {
      XorBit(a / 2, b / 2, k - 1);
    }
  }

  lemma {:induction false} BitIsBinary(n: nat, k: nat)
    ensures Bit(n, k) < 2
    decreases k
  {
    if k == 0 {
    } else {
      BitIsBinary(n / 2, k - 1);
    }
  }

  lemma {:induction false} PrefixParity(d: seq<byte>, n: nat, k: nat)
    requires n <= |d|
    ensures Bit(XorPrefix(d, n), k) == BitCount(d, n, k) % 2
    decreases n
  {
    if n == 0 {
      ZeroBits(k);
    } else {
      PrefixParity(d, n - 1, k);
      BitIsBinary(d[n - 1], k);
      if n == 1 {
        assert BitCount(d, 0, k) == 0;
      } else {
        XorBit(XorPrefix(d, n - 1), d[n - 1], k);
      }
    }
  }

  lemma {:induction false} ZeroBits(k: nat)
    ensures Bit(0, k) == 0
    decreases k
  {
    if k == 0 {
    } else {
      ZeroBits(k - 1);
    }
  }

  /** Reducing modulo a power of two keeps the digits below it. */
  lemma {:induction false} LowBits(n: nat, m: nat, k: nat)
    requires (m == 2 && k < 1) || (m == 4 && k < 2) || (m == 8 && k < 3) || (m == 16 && k < 4)
    ensures Bit(n % m, k) == Bit(n, k)
    decreases k
  {
    HalveMod(n, m / 2);
    Halves(n % 2, n / 2 % (m / 2));
    if k == 0 {
    } else {
      LowBits(n / 2, m / 2, k - 1);
    }
  }

  /** Each bit of V2's check nibble is set exactly if an odd number of the first seven bytes have that bit set. */
  lemma CheckNibbleIsParity(c: Codes, k: nat)
    requires k < 4
    ensures Bit(Pack(c, V2)[7] % 0x10, k) == BitCount(Pack(c, V2), 7, k) % 2
  {
    var d := Pack(c, V2);
    var g := GainBytes(c);
    var head := [g[0], g[1], g[2], g[3], g[4], g[5], g[6] + c.torque / 0x10 % 0x10];
    SamePrefix(d, head, 7);
    Nibbles(c.torque % 0x10, CheckNibble(d));
    PrefixParity(d, 7, k);
    LowBits(XorPrefix(d, 7), 16, k);
  }

  /** The eight bytes as one number, the first byte the most significant. */
  function Number(d: Payload): nat {
    d[0] as int * 0x100_0000_0000_0000 + d[1] as int * 0x1_0000_0000_0000 + d[2] as int * 0x100_0000_0000
    + d[3] as int * 0x1_0000_0000 + d[4] as int * 0x100_0000 + d[5] as int * 0x1_0000 + d[6] as int * 0x100 + d[7]
  }

  /** The receiver takes the bits from the top: 16 of position, 12 of velocity, Kp and Kd, then the torque. */
  lemma ReadFromTheTop(d: Payload, p: Protocol)
    ensures var u := Unpack(d, p);
            Number(d) == u.pos as int * 0x1_0000_0000_0000 + u.vel as int * 0x10_0000_0000 + u.kp as int * 0x100_0000
                         + u.kd as int * 0x1000 + if p.V3? then u.torque as int else u.torque as int * 0x10 + d[7] % 0x10
  {}

  /** So the frame is the codes side by side, V2's torque with the check nibble behind it. */
  lemma PayloadIsCodesInOrder(c: Codes, p: Protocol)
    requires c.InWidth(p)
    ensures Number(Pack(c, p))
            == c.pos as int * 0x1_0000_0000_0000 + c.vel as int * 0x10_0000_0000 + c.kp as int * 0x100_0000
               + c.kd as int * 0x1000
               + if p.V3? then c.torque as int else c.torque as int * 0x10 + CheckNibble(Pack(c, p))
  {
    UnpackPack(c, p);
    ReadFromTheTop(Pack(c, p), p);
  }

  // ---------- Each value by its own range ----------

  /** The nearest value in the range. */
  function InRange(value: real, lo: real, hi: real): real {
    if value < lo then lo else if value > hi then hi else value
  }

  /** How far `v` is above the value of `c`, in units of `max` to the step. */
  function Rest(v: real, lo: real, span: real, max: real, c: real): real {
    (v - lo) * max - c * span
  }

  /** `c` of `max` steps stands for `value` brought into the range: rounded half up by V2, cut off by V3. */
  ghost predicate StandsFor(c: nat, value: real, lo: real, hi: real, max: nat, p: Protocol) {
    Within(Rest(InRange(value, lo, hi), lo, hi - lo, max as real, c as real), hi - lo, p)
  }

  /** What is left over is half a step either way under V2, and less than a step above under V3. */
  predicate Within(rest: real, step: real, p: Protocol) {
    if p.V2? then -step / 2.0 <= rest < step / 2.0 else 0.0 <= rest < step
  }

  lemma RestInSteps(v: real, lo: real, span: real, max: real, step: real, x: real, c: real, d: real)
    requires x * step == v - lo && max * step == span && d == x - c
    ensures Rest(v, lo, span, max, c) == d * span
  {
    assert (v - lo) * max == x * (step * max);
    Distribute(x, c, d, span);
  }

  lemma Fractions(d: real, span: real, p: Protocol)
    requires span > 0.0
    requires if p.V2? then -0.5 <= d < 0.5 else 0.0 <= d < 1.0
    ensures Within(d * span, span, p)
  {
    if p.V2? {
      MulMonotone(-0.5, d, span);
      MulStrict(d, 0.5, span);
    } else {
      MulMonotone(0.0, d, span);
      MulStrict(d, 1.0, span);
    }
  }

  lemma DropsTo(x: real, q: Quantisation, c: int)
    requires x >= 0.0 && c == if q.Nearest? then LRound(x) else Trunc(x)
    ensures if q.Nearest? then -0.5 <= x - c as real < 0.5 else 0.0 <= x - c as real < 1.0
  {}

  lemma FieldStandsFor(value: real, r: Range, p: Protocol)
    requires r.Valid() && r.bits <= 16
    ensures StandsFor(Field(value, r, p), value, r.lo, r.hi, r.MaxCode(), p)
  {
    var q := if p.V2? then Nearest else Truncate;
    var step := StepOf(r);
    var x := Located(value, r, q, step);
    var c := Field(value, r, p);
    DropsTo(x, q, c);
    StandsInSteps(value, r, p, step, x, c);
  }

  lemma SameRest(rest: real, product: real, span: real, p: Protocol)
    requires rest == product && Within(product, span, p)
    ensures Within(rest, span, p)
  {}

  lemma StandsInSteps(value: real, r: Range, p: Protocol, step: real, x: real, c: nat)
    requires r.lo < r.hi && r.HasStep(step) && x * step == Clamp(value, r.lo, r.hi) - r.lo
    requires if p.V2? then -0.5 <= x - c as real < 0.5 else 0.0 <= x - c as real < 1.0
    ensures StandsFor(c, value, r.lo, r.hi, r.MaxCode(), p)
  {
    hide Within, Rest;
    assert InRange(value, r.lo, r.hi) == Clamp(value, r.lo, r.hi);
    StandsInStepsOf(InRange(value, r.lo, r.hi), r.lo, r.hi - r.lo, r.MaxCode() as real, step, x, c as real, p);
  }

  lemma StandsInStepsOf(v: real, lo: real, span: real, max: real, step: real, x: real, c: real, p: Protocol)
    requires span > 0.0 && max * step == span && x * step == v - lo
    requires if p.V2? then -0.5 <= x - c < 0.5 else 0.0 <= x - c < 1.0
    ensures Within(Rest(v, lo, span, max, c), span, p)
  {
    hide Within;
    var d := x - c;
    RestInSteps(v, lo, span, max, step, x, c, d);
    Fractions(d, span, p);
    SameRest(Rest(v, lo, span, max, c), d * span, span, p);
  }

  /** The codes stand for the five values of a command, each in the protocol's own range for it. */
  ghost predicate CommandReads(c: Codes, pos: real, vel: real, kp: real, kd: real, torque: real, p: Protocol) {
    && StandsFor(c.pos, pos, -12.5, 12.5, 65535, p) && StandsFor(c.vel, vel, -45.0, 45.0, 4095, p)
    && StandsFor(c.kp, kp, 0.0, 500.0, 4095, p) && StandsFor(c.kd, kd, -5.0, 5.0, 4095, p)
    && (if p.V2? then StandsFor(c.torque, torque, -8.0, 8.0, 255, p)
        else StandsFor(c.torque, torque, -16.0, 16.0, 4095, p))
  }

  lemma CommandStandsFor(pos: real, vel: real, kp: real, kd: real, torque: real, p: Protocol)
    ensures CommandReads(PackJointMit(pos, vel, kp, kd, torque, p), pos, vel, kp, kd, torque, p)
  {
    hide StandsFor;
    Pow2Of16();
    FieldStandsFor(pos, POS, p);
    FieldStandsFor(vel, VEL, p);
    FieldStandsFor(kp, KP, p);
    FieldStandsFor(kd, KD, p);
    FieldStandsFor(torque, if p.V2? then TORQUE_V2 else TORQUE_V3, p);
  }
}
