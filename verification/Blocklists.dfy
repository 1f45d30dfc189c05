/** internal/blocklist/blocklist.go: IPv4 rules in prefix notation (section 3.1 of
    RFC 4632) turned into ranges of a segment tree. Splitting a line into address and
    prefix length is net.ParseCIDR's work and arrives here done. */
module Blocklists {
  import opened Common
  import opened SegmentTrees

  datatype IPv4 = IPv4(b0: byte, b1: byte, b2: byte, b3: byte)

  datatype IP = V4(v4: IPv4) | V6

  /** One line of the list after trimming. */
  datatype Line = Empty | Comment | Rule(ip: IPv4, ones: nat) | Unparsable

  function High2(a: IPv4): nat {
    a.b0 * 0x100 + a.b1
  }

  function High3(a: IPv4): nat {
    High2(a) * 0x100 + a.b2
  }

  /** binary.BigEndian.Uint32 */
  function BigEndian(a: IPv4): Value {
    a.b0 * 0x100_0000 + a.b1 * 0x1_0000 + a.b2 * 0x100 + a.b3
  }

  /** How many of the leading one bits of the mask fall into byte i. */
  function MaskBits(ones: nat, i: nat): nat {
    if ones >= 8 * (i + 1) then 8 else if ones <= 8 * i then 0 else ones - 8 * i
  }

  /** The mask byte with j leading one bits, and how many values it leaves open. */
  function MaskByte(j: nat): bv8 {
    match j
    case 0 => 0
    case 1 => 0x80
    case 2 => 0xC0
    case 3 => 0xE0
    case 4 => 0xF0
    case 5 => 0xF8
    case 6 => 0xFC
    case 7 => 0xFE
    case _ => 0xFF
  }

  function HostSize(j: nat): nat {
    match j
    case 0 => 256
    case 1 => 128
    case 2 => 64
    case 3 => 32
    case 4 => 16
    case 5 => 8
    case 6 => 4
    case 7 => 2
    case _ => 1
  }

  function NetByte(b: byte, j: nat): byte {
    b - b % HostSize(j)
  }

  function TopByte(b: byte, j: nat): byte {
    b - b % HostSize(j) + (HostSize(j) - 1)
  }

  lemma Mask0(b: bv8)
    ensures (b & 0x0) as int == 0
    ensures (b | !0x0) as int == 255
  {
  }

  lemma Mask1(b: bv8)
    ensures (b & 0x80) as int == (b as int) - (b as int) % 128
    ensures (b | !0x80) as int == (b as int) - (b as int) % 128 + 127
  {
  }

  lemma Mask2(b: bv8)
    ensures (b & 0xC0) as int == (b as int) - (b as int) % 64
    ensures (b | !0xC0) as int == (b as int) - (b as int) % 64 + 63
  {
  }

  lemma Mask3(b: bv8)
    ensures (b & 0xE0) as int == (b as int) - (b as int) % 32
    ensures (b | !0xE0) as int == (b as int) - (b as int) % 32 + 31
  {
  }

  lemma Mask4(b: bv8)
    ensures (b & 0xF0) as int == (b as int) - (b as int) % 16
    ensures (b | !0xF0) as int == (b as int) - (b as int) % 16 + 15
  {
  }

  lemma Mask5(b: bv8)
    ensures (b & 0xF8) as int == (b as int) - (b as int) % 8
    ensures (b | !0xF8) as int == (b as int) - (b as int) % 8 + 7
  {
  }

  lemma Mask6(b: bv8)
    ensures (b & 0xFC) as int == (b as int) - (b as int) % 4
    ensures (b | !0xFC) as int == (b as int) - (b as int) % 4 + 3
  {
  }

  lemma Mask7(b: bv8)
    ensures (b & 0xFE) as int == (b as int) - (b as int) % 2
    ensures (b | !0xFE) as int == (b as int) - (b as int) % 2 + 1
  {
  }

  lemma Mask8(b: bv8)
    ensures (b & 0xFF) as int == (b as int) - (b as int) % 1
    ensures (b | !0xFF) as int == (b as int) - (b as int) % 1 + 0
  {
  }

  /** NetByte is the bitwise AND with the mask byte, TopByte the OR with its complement. */
  ghost predicate Bitwise(b: bv8, j: nat) {
    && NetByte(b as int, j) == (b & MaskByte(j)) as int
    && TopByte(b as int, j) == (b | !MaskByte(j)) as int
  }

  lemma WholeByte(x: byte)
    ensures NetByte(x, 0) == 0 && TopByte(x, 0) == 255
  {
  }

  lemma Bitwise0(b: bv8)
    ensures Bitwise(b, 0)
  {
    Mask0(b);
    WholeByte(b as int);
  }

  lemma Bitwise1(b: bv8)
    ensures Bitwise(b, 1)
  {
    Mask1(b);
  }

  lemma Bitwise2(b: bv8)
    ensures Bitwise(b, 2)
  {
    Mask2(b);
  }

  lemma Bitwise3(b: bv8)
    ensures Bitwise(b, 3)
  {
    Mask3(b);
  }

  lemma Bitwise4(b: bv8)
    ensures Bitwise(b, 4)
  {
    Mask4(b);
  }

  lemma Bitwise5(b: bv8)
    ensures Bitwise(b, 5)
  {
    Mask5(b);
  }

  lemma Bitwise6(b: bv8)
    ensures Bitwise(b, 6)
  {
    Mask6(b);
  }

  lemma Bitwise7(b: bv8)
    ensures Bitwise(b, 7)
  {
    Mask7(b);
  }

  lemma Bitwise8(b: bv8)
    ensures Bitwise(b, 8)
  {
    Mask8(b);
  }

  lemma MaskingIsBitwise(b: bv8, j: nat)
    requires j <= 8
    ensures Bitwise(b, j)
  {
    match j {
      case 0 => Bitwise0(b);
      case 1 => Bitwise1(b);
      case 2 => Bitwise2(b);
      case 3 => Bitwise3(b);
      case 4 => Bitwise4(b);
      case 5 => Bitwise5(b);
      case 6 => Bitwise6(b);
      case 7 => Bitwise7(b);
      case 8 => Bitwise8(b);
    }
  }

  function Network(a: IPv4, ones: nat): IPv4 {
    IPv4(NetByte(a.b0, MaskBits(ones, 0)), NetByte(a.b1, MaskBits(ones, 1)),
         NetByte(a.b2, MaskBits(ones, 2)), NetByte(a.b3, MaskBits(ones, 3)))
  }

  /** parseCIDR: the masked address, and the same with all host bits set. */
  function FirstAddress(ip: IPv4, ones: nat): IPv4 {
    Network(ip, ones)
  }

  function LastAddress(ip: IPv4, ones: nat): IPv4 {
    var a := FirstAddress(ip, ones);
    IPv4(TopByte(a.b0, MaskBits(ones, 0)), TopByte(a.b1, MaskBits(ones, 1)),
         TopByte(a.b2, MaskBits(ones, 2)), TopByte(a.b3, MaskBits(ones, 3)))
  }

  predicate SameNetwork(v: IPv4, ip: IPv4, ones: nat) {
    Network(v, ones) == Network(ip, ones)
  }

  /** The meaning of a rule: the two addresses agree in their first `ones` bits. */
  predicate InNetwork(v: IPv4, ip: IPv4, ones: nat)
    requires ones <= 32
  {
    BigEndian(v) / Power2(32 - ones) == BigEndian(ip) / Power2(32 - ones)
  }

  lemma MaskedByte(v: byte, b: byte, j: nat)
    ensures NetByte(b, j) <= v <= TopByte(NetByte(b, j), j) <==> NetByte(v, j) == NetByte(b, j)
  {
    SameBlock(v, b, HostSize(j));
    assert NetByte(b, j) % HostSize(j) == 0;
  }

  /** v lies in b's aligned block of h values exactly when both round down alike. */
  lemma SameBlock(v: nat, b: nat, h: nat)
    requires 0 < h
    ensures b - b % h <= v <= b - b % h + (h - 1) <==> v - v % h == b - b % h
  {
    var q, p := b / h, v / h;
    assert b == h * q + b % h && v == h * p + v % h;
    Multiples(h, p, q);
  }

  lemma Multiples(h: nat, p: int, q: int)
    requires 0 < h
    ensures p < q ==> h * p + h <= h * q
    ensures q < p ==> h * q + h <= h * p
  {
    if p < q { Product(h, q - p - 1); } else if q < p { Product(h, p - q - 1); }
    assert h * q == h * p + h * (q - p);
  }

  lemma Product(h: nat, d: nat)
    ensures 0 <= h * d
  {
  }

  /** One more digit in base 256: the high digits are pinned or the low digit is free. */
  lemma OneMoreByte(v: nat, a: nat, z: nat, vl: byte, al: byte, zl: byte)
    requires a == z || (al == 0 && zl == 255)
    ensures a * 0x100 + al <= v * 0x100 + vl <= z * 0x100 + zl <==> a <= v <= z && al <= vl <= zl
  {
  }

  predicate Bytewise(a: IPv4, v: IPv4, z: IPv4) {
    a.b0 <= v.b0 <= z.b0 && a.b1 <= v.b1 <= z.b1 && a.b2 <= v.b2 <= z.b2 && a.b3 <= v.b3 <= z.b3
  }

  /** Bytes before the partial byte k agree, bytes behind it are free. */
  predicate SplitAt(k: nat, a: IPv4, z: IPv4) {
    && (0 < k ==> a.b0 == z.b0) && (1 < k ==> a.b1 == z.b1) && (2 < k ==> a.b2 == z.b2) && (3 < k ==> a.b3 == z.b3)
    && (k < 1 ==> a.b1 == 0 && z.b1 == 255) && (k < 2 ==> a.b2 == 0 && z.b2 == 255)
    && (k < 3 ==> a.b3 == 0 && z.b3 == 255)
  }

  /** Then the range on the number is the range on every byte. */
  lemma LexicographicRange(k: nat, v: IPv4, a: IPv4, z: IPv4)
    requires SplitAt(k, a, z)
    ensures BigEndian(a) <= BigEndian(v) <= BigEndian(z) <==> Bytewise(a, v, z)
  {
    OneMoreByte(v.b0, a.b0, z.b0, v.b1, a.b1, z.b1);
    OneMoreByte(High2(v), High2(a), High2(z), v.b2, a.b2, z.b2);
    OneMoreByte(High3(v), High3(a), High3(z), v.b3, a.b3, z.b3);
    Nested(a);
    Nested(v);
    Nested(z);
  }

  lemma Nested(a: IPv4)
    ensures BigEndian(a) == High3(a) * 0x100 + a.b3
  {
  }

  lemma NetworkBytes(v: IPv4, ip: IPv4, ones: nat)
    requires ones <= 32
    ensures Bytewise(FirstAddress(ip, ones), v, LastAddress(ip, ones)) <==> SameNetwork(v, ip, ones)
  {
    MaskedByte(v.b0, ip.b0, MaskBits(ones, 0));
    MaskedByte(v.b1, ip.b1, MaskBits(ones, 1));
    MaskedByte(v.b2, ip.b2, MaskBits(ones, 2));
    MaskedByte(v.b3, ip.b3, MaskBits(ones, 3));
  }

  lemma NetworkSplits(ip: IPv4, ones: nat)
    requires ones <= 32
    ensures SplitAt(ones / 8, FirstAddress(ip, ones), LastAddress(ip, ones))
  {
    PinnedOrFree(ip.b0, ones, 0);
    PinnedOrFree(ip.b1, ones, 1);
    PinnedOrFree(ip.b2, ones, 2);
    PinnedOrFree(ip.b3, ones, 3);
  }

  lemma PinnedOrFree(b: byte, ones: nat, i: nat)
    ensures i < ones / 8 ==> TopByte(NetByte(b, MaskBits(ones, i)), MaskBits(ones, i)) == NetByte(b, MaskBits(ones, i))
    ensures ones / 8 < i ==>
              NetByte(b, MaskBits(ones, i)) == 0 && TopByte(NetByte(b, MaskBits(ones, i)), MaskBits(ones, i)) == 255
  {
  }

  // ---- masking against dividing

  /** Dividing by h * m drops m and divides by h. */
  lemma DivideTwice(n: nat, rest: nat, h: nat, m: nat)
    requires rest < m && h > 0
    ensures h * m > 0 && (n * m + rest) / (h * m) == n / h
  {
    var q, r := n / h, n % h;
    assert n == h * q + r;
    assert n * m == q * (h * m) + r * m by {
      assert (h * q + r) * m == h * q * m + r * m;
      assert h * q * m == q * (h * m);
    }
    assert r * m + rest < h * m by { Below(r, h, m); }
    QuotientIs(h * m, q, r * m + rest);
  }

  lemma Below(r: nat, h: nat, m: nat)
    requires r < h
    ensures r * m + m <= h * m
  {
    assert (r + 1) * m <= h * m by { Product(m, h - r - 1); }
  }

  lemma QuotientIs(d: nat, q: nat, r: nat)
    requires r < d
    ensures (q * d + r) / d == q
  {
    var n := q * d + r;
    assert n == d * (n / d) + n % d;
    Multiples(d, q, n / d);
    assert d * q == q * d;
  }

  /** The high digits agree and the low digit is in the same block of values. */
  lemma DigitsAgree(hi: nat, lo: byte, hi': nat, lo': byte, j: nat)
    ensures (hi * 256 + lo) / HostSize(j) == (hi' * 256 + lo') / HostSize(j) <==>
              hi == hi' && NetByte(lo, j) == NetByte(lo', j)
  {
    var h, g := HostSize(j), 256 / HostSize(j);
    assert h * g == 256;
    hide HostSize;
    OneDigit(hi, lo, h, g);
    OneDigit(hi', lo', h, g);
    TwoDigits(g, hi, hi', lo / h, lo' / h);
    SameMultiple(h, lo / h, lo' / h);
  }

  lemma TwoDigits(g: nat, a: nat, b: nat, x: nat, y: nat)
    requires x < g && y < g
    ensures g * a + x == g * b + y <==> a == b && x == y
  {
    Multiples(g, a, b);
  }

  lemma OneDigit(hi: nat, lo: byte, h: nat, g: nat)
    requires h * g == 256
    ensures h > 0 && (hi * 256 + lo) / h == g * hi + lo / h && lo / h < g && lo - lo % h == h * (lo / h)
  {
    var q, r := lo / h, lo % h;
    assert lo == h * q + r;
    assert hi * (h * g) == h * (g * hi);
    assert hi * 256 + lo == (g * hi + q) * h + r;
    QuotientIs(h, g * hi + q, r);
    Multiples(h, g, q);
  }

  lemma SameMultiple(h: nat, a: nat, b: nat)
    requires h > 0
    ensures h * a == h * b <==> a == b
  {
    Multiples(h, a, b);
  }

  lemma HostPower(j: nat)
    requires j <= 8
    ensures HostSize(j) == Power2(8 - j) && HostSize(j) in {1, 2, 4, 8, 16, 32, 64, 128, 256}
  {
    Power2Byte();
  }

  lemma Powers()
    ensures Power2(8) == 0x100 && Power2(16) == 0x1_0000 && Power2(24) == 0x100_0000
  {
    Power2Byte();
    Power2Add(8, 8);
    Power2Add(8, 16);
  }

  /** The quotient of an address whose byte k is cut by the prefix: n are its bytes up to
      and with byte k, rest the bytes behind it. */
  lemma PrefixOf(a: IPv4, n: nat, rest: nat, m: nat, free: nat, j: nat, ones: nat)
    requires BigEndian(a) == n * m + rest && rest < m == Power2(free) && j <= 8 && 32 - ones == 8 - j + free
    ensures BigEndian(a) / Power2(32 - ones) == n / HostSize(j)
  {
    HostPower(j);
    Power2Add(8 - j, free);
    DivideTwice(n, rest, HostSize(j), m);
  }

  lemma Digits(a: IPv4)
    ensures BigEndian(a) == a.b0 * 0x100_0000 + (a.b1 * 0x1_0000 + a.b2 * 0x100 + a.b3)
    ensures BigEndian(a) == High2(a) * 0x1_0000 + (a.b2 * 0x100 + a.b3)
    ensures BigEndian(a) == High3(a) * 0x100 + a.b3
    ensures BigEndian(a) == BigEndian(a) * 1 + 0
    ensures High2(a) == a.b0 * 256 + a.b1 && High3(a) == High2(a) * 256 + a.b2
    ensures BigEndian(a) == High3(a) * 256 + a.b3
  {
  }

  lemma SameHigh(v: IPv4, ip: IPv4)
    ensures High2(v) == High2(ip) <==> v.b0 == ip.b0 && v.b1 == ip.b1
    ensures High3(v) == High3(ip) <==> v.b0 == ip.b0 && v.b1 == ip.b1 && v.b2 == ip.b2
  {
  }

  lemma MasksOf(ones: nat, i: nat)
    ensures ones < 8 * i ==> MaskBits(ones, i) == 0
    ensures 8 * i <= ones <= 8 * i + 8 ==> MaskBits(ones, i) == ones - 8 * i
    ensures 8 * i + 8 < ones ==> MaskBits(ones, i) == 8
  {
  }

  /** Masking bit by bit compares the same leading bits as dividing. */
  lemma NetworkIsPrefix(v: IPv4, ip: IPv4, ones: nat)
    requires ones <= 32
    ensures SameNetwork(v, ip, ones) <==> InNetwork(v, ip, ones)
  {
    hide HostSize, NetByte, MaskBits, Power2, InNetwork;
    MasksOf(ones, 0);
    MasksOf(ones, 1);
    MasksOf(ones, 2);
    MasksOf(ones, 3);
    WholeMasks(v);
    WholeMasks(ip);
    if ones <= 8 {
      FirstByteCut(v, ip, ones);
    } else if ones <= 16 {
      SecondByteCut(v, ip, ones);
    } else if ones <= 24 {
      ThirdByteCut(v, ip, ones);
    } else {
      LastByteCut(v, ip, ones);
    }
  }

  lemma WholeMasks(a: IPv4)
    ensures NetByte(a.b0, 8) == a.b0 && NetByte(a.b1, 8) == a.b1 && NetByte(a.b2, 8) == a.b2 && NetByte(a.b3, 8) == a.b3
    ensures NetByte(a.b0, 0) == 0 && NetByte(a.b1, 0) == 0 && NetByte(a.b2, 0) == 0 && NetByte(a.b3, 0) == 0
  {
  }

  lemma FirstByteCut(v: IPv4, ip: IPv4, ones: nat)
    requires 0 <= ones <= 8
    ensures InNetwork(v, ip, ones) <==> NetByte(v.b0, ones) == NetByte(ip.b0, ones)
  {
    Powers();
    HostPower(ones);
    Digits(v);
    Digits(ip);
    hide HostSize, NetByte, Power2, BigEndian, High2, High3;
    PrefixOf(v, v.b0, v.b1 * 0x1_0000 + v.b2 * 0x100 + v.b3, 0x100_0000, 24, ones, ones);
    PrefixOf(ip, ip.b0, ip.b1 * 0x1_0000 + ip.b2 * 0x100 + ip.b3, 0x100_0000, 24, ones, ones);
    DigitsAgree(0, v.b0, 0, ip.b0, ones);
  }

  lemma SecondByteCut(v: IPv4, ip: IPv4, ones: nat)
    requires 8 <= ones <= 16
    ensures InNetwork(v, ip, ones) <==> v.b0 == ip.b0 && NetByte(v.b1, ones - 8) == NetByte(ip.b1, ones - 8)
  {
    Powers();
    HostPower(ones - 8);
    Digits(v);
    Digits(ip);
    hide HostSize, NetByte, Power2, BigEndian, High2, High3;
    PrefixOf(v, High2(v), v.b2 * 0x100 + v.b3, 0x1_0000, 16, ones - 8, ones);
    PrefixOf(ip, High2(ip), ip.b2 * 0x100 + ip.b3, 0x1_0000, 16, ones - 8, ones);
    DigitsAgree(v.b0, v.b1, ip.b0, ip.b1, ones - 8);
  }

  lemma ThirdByteCut(v: IPv4, ip: IPv4, ones: nat)
    requires 16 <= ones <= 24
    ensures InNetwork(v, ip, ones) <==>
            v.b0 == ip.b0 && v.b1 == ip.b1 && NetByte(v.b2, ones - 16) == NetByte(ip.b2, ones - 16)
  {
    Powers();
    HostPower(ones - 16);
    Digits(v);
    Digits(ip);
    hide HostSize, NetByte, Power2, BigEndian, High2, High3;
    PrefixOf(v, High3(v), v.b3, 0x100, 8, ones - 16, ones);
    PrefixOf(ip, High3(ip), ip.b3, 0x100, 8, ones - 16, ones);
    SameHigh(v, ip);
    DigitsAgree(High2(v), v.b2, High2(ip), ip.b2, ones - 16);
  }

  lemma LastByteCut(v: IPv4, ip: IPv4, ones: nat)
    requires 24 <= ones <= 32
    ensures InNetwork(v, ip, ones) <==>
              && v.b0 == ip.b0 && v.b1 == ip.b1 && v.b2 == ip.b2
              && NetByte(v.b3, ones - 24) == NetByte(ip.b3, ones - 24)
  {
    Powers();
    HostPower(ones - 24);
    Digits(v);
    Digits(ip);
    assert Power2(0) == 1;
    hide HostSize, NetByte, Power2, BigEndian, High2, High3;
    PrefixOf(v, BigEndian(v), 0, 1, 0, ones - 24, ones);
    PrefixOf(ip, BigEndian(ip), 0, 1, 0, ones - 24, ones);
    SameHigh(v, ip);
    DigitsAgree(High3(v), v.b3, High3(ip), ip.b3, ones - 24);
  }

  /** The range of parseCIDR holds exactly the addresses that agree with the rule's in their
      first `ones` bits. */
  lemma RangeIsNetwork(v: IPv4, ip: IPv4, ones: nat)
    requires ones <= 32
    ensures BigEndian(FirstAddress(ip, ones)) <= BigEndian(v) <= BigEndian(LastAddress(ip, ones)) <==>
              BigEndian(v) / Power2(32 - ones) == BigEndian(ip) / Power2(32 - ones)
  {
    NetworkBytes(v, ip, ones);
    NetworkSplits(ip, ones);
    LexicographicRange(ones / 8, v, FirstAddress(ip, ones), LastAddress(ip, ones));
    NetworkIsPrefix(v, ip, ones);
  }

  // ---- loading and asking

  datatype LoadResult = Loaded(n: nat) | NoValidRules | ReadError

  function Rules(lines: seq<Line>): seq<Line> {
    if lines == [] then []
    else
      var last := lines[|lines| - 1];
      Rules(lines[..|lines| - 1]) + if last.Rule? then [last] else []
  }

  lemma {:induction false} RulesOf(lines: seq<Line>)
    ensures forall line :: line in Rules(lines) <==> line in lines && line.Rule?
  {
    if lines != [] {
      RulesOf(lines[..|lines| - 1]);
      assert lines == lines[..|lines| - 1] + [lines[|lines| - 1]];
    }
  }

  function RangeOf(rule: Line): Segment
    requires rule.Rule?
  {
    Segment(BigEndian(FirstAddress(rule.ip, rule.ones)), BigEndian(LastAddress(rule.ip, rule.ones)))
  }

  ghost predicate Matches(base: seq<Interval>, rules: seq<Line>) {
    |base| == |rules| && forall i :: 0 <= i < |rules| ==> rules[i].Rule? && base[i].seg == RangeOf(rules[i])
  }

  class Blocklist {
    var tree: Stree
    var count: nat
    ghost var rules: seq<Line>

    ghost predicate Valid()
      reads this, tree
    {
      && Matches(tree.base, rules) && (forall i :: 0 <= i < |rules| ==> rules[i].Rule? && rules[i].ones <= 32)
      && (tree.root == None ==> tree.base == [])
      && (tree.root.Some? ==> BuiltFrom(tree.root.value, tree.base))
    }

    constructor ()
      ensures Valid() && rules == [] && count == 0
    {
      tree := new Stree();
      count, rules := 0, [];
    }

    /** Reload keeps the old rules when the stream fails or holds no valid rule. */
    method Reload(lines: seq<Line>, scanError: bool) returns (r: LoadResult)
      requires Valid() && forall i :: 0 <= i < |lines| && lines[i].Rule? ==> lines[i].ones <= 32
      modifies this
      ensures Valid()
      ensures r == if scanError then ReadError
                   else if Rules(lines) == [] && (exists i :: 0 <= i < |lines| && lines[i].Unparsable?)
                        then NoValidRules
                   else Loaded(|Rules(lines)|)
      ensures rules == if r.Loaded? then Rules(lines) else old(rules)
      ensures count == if r.Loaded? then |Rules(lines)| else old(count)
      ensures r.Loaded? ==> forall line :: line in rules <==> line in lines && line.Rule?
    {
      var t := new Stree();
      var n, hasError := 0, false;
      for k := 0 to |lines|
        modifies t
        invariant t.root == None
        invariant n == |Rules(lines[..k])| && Matches(t.base, Rules(lines[..k]))
        invariant forall i :: 0 <= i < n ==> Rules(lines[..k])[i].ones <= 32
        invariant hasError <==> exists i :: 0 <= i < k && lines[i].Unparsable?
      {
        assert lines[..k + 1][..k] == lines[..k];
        match lines[k] {
          case Rule(ip, ones) =>
            t.AddRange(BigEndian(FirstAddress(ip, ones)), BigEndian(LastAddress(ip, ones)));
            n := n + 1;
          case Unparsable => hasError := true;
          case _ =>
        }
      }
      assert lines[..|lines|] == lines;
      if scanError { return ReadError; }
      if n == 0 && hasError { return NoValidRules; }
      t.Build();
      RulesOf(lines);
      tree, count, rules := t, n, Rules(lines);
      r := Loaded(n);
    }

    /** An address is blocked exactly when it agrees with some loaded rule's address in as many
        leading bits as the rule says. */
    method Blocked(ip: IP) returns (blocked: bool)
      requires Valid()
      ensures blocked <==> ip.V4? && exists i ::
                && 0 <= i < |rules| && rules[i].Rule? && rules[i].ones <= 32
                && BigEndian(ip.v4) / Power2(32 - rules[i].ones) == BigEndian(rules[i].ip) / Power2(32 - rules[i].ones)
    {
      hide FirstAddress, LastAddress, Power2;
      if ip.V6? { return false; }
      blocked := tree.Contains(BigEndian(ip.v4));
      forall i | 0 <= i < |rules|
        ensures InNetwork(ip.v4, rules[i].ip, rules[i].ones) <==>
                tree.base[i].seg.from <= BigEndian(ip.v4) <= tree.base[i].seg.to
      {
        RangeIsNetwork(ip.v4, rules[i].ip, rules[i].ones);
      }
    }
  }
}
