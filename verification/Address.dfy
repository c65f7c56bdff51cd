// IPv4 addresses in dotted text and MAC addresses in colon text, and the blocks
// of addresses a prefix stands for (section 3.1 of RFC 4632).
module Address {
  import opened Wrappers
  import opened Bits
  import Text

  type byte = x: int | 0 <= x < 256

  /** One of the four numbers of a dotted address. */
  predicate Octet(t: string) {
    1 <= |t| <= 3 && (forall c | c in t :: Text.Digit(c)) && (|t| > 1 ==> t[0] != '0') && Text.Value(t) <= 255
  }

  /** The host-order address of a dotted text; a text with any other character, NUL included, is refused. */
  function ParseIpv4(s: string): Option<uint32> {
    var parts := Text.Split(s, '.');
    if |parts| == 4 && Octet(parts[0]) && Octet(parts[1]) && Octet(parts[2]) && Octet(parts[3]) then
      Some(((Text.Value(parts[0]) * 256 + Text.Value(parts[1])) * 256 + Text.Value(parts[2])) * 256 + Text.Value(parts[3]))
    else None
  }

  function FormatIpv4(a: uint32): string {
    Text.Join([Text.Decimal(a / 256 / 256 / 256), Text.Decimal(a / 256 / 256 % 256),
               Text.Decimal(a / 256 % 256), Text.Decimal(a % 256)], '.')
  }

  /** An accepted address has exactly one text, so equal addresses mean equal texts. */
  lemma TextIsUnique(s: string)
    requires ParseIpv4(s).Some?
    ensures FormatIpv4(ParseIpv4(s).value) == s
  {
    var p := Text.Split(s, '.');
    Text.JoinSplit(s, '.');
    forall i | 0 <= i < 4
      ensures Text.Decimal(Text.Value(p[i])) == p[i]
    {
      Text.DecimalOfValue(p[i]);
    }
    FourOctets(Text.Value(p[0]), Text.Value(p[1]), Text.Value(p[2]), Text.Value(p[3]));
    assert p == [p[0], p[1], p[2], p[3]];
  }

  lemma FourOctets(w: nat, x: nat, y: nat, z: nat)
    requires w <= 255 && x <= 255 && y <= 255 && z <= 255
    ensures var a := ((w * 256 + x) * 256 + y) * 256 + z;
            a / 256 / 256 / 256 == w && a / 256 / 256 % 256 == x && a / 256 % 256 == y && a % 256 == z
  {
  }

  function FromNumbers(w: nat, x: nat, y: nat, z: nat): uint32
    requires w <= 255 && x <= 255 && y <= 255 && z <= 255
  {
    ((w * 256 + x) * 256 + y) * 256 + z
  }

  /** Four numbers of up to 255, without leading zeros and with dots between them, are accepted. */
  lemma NumbersAreAccepted(w: nat, x: nat, y: nat, z: nat)
    requires w <= 255 && x <= 255 && y <= 255 && z <= 255
    ensures ParseIpv4(Text.Join([Text.Decimal(w), Text.Decimal(x), Text.Decimal(y), Text.Decimal(z)], '.')) ==
            Some(FromNumbers(w, x, y, z))
  {
    var parts := [Text.Decimal(w), Text.Decimal(x), Text.Decimal(y), Text.Decimal(z)];
    DecimalIsOctet(w);
    DecimalIsOctet(x);
    DecimalIsOctet(y);
    DecimalIsOctet(z);
    hide Text.Decimal, Text.Value, Text.Split, Text.Join, ParseIpv4, FromNumbers;
    forall part | part in parts
      ensures '.' !in part
    {
      assert part == parts[0] || part == parts[1] || part == parts[2] || part == parts[3];
      assert !Text.Digit('.');
    }
    hide Octet;
    Text.SplitJoin(parts, '.');
    PartsParse(Text.Join(parts, '.'), parts);
  }

  lemma PartsParse(s: string, parts: seq<string>)
    requires Text.Split(s, '.') == parts && |parts| == 4
    requires Octet(parts[0]) && Octet(parts[1]) && Octet(parts[2]) && Octet(parts[3])
    ensures ParseIpv4(s) == Some(FromNumbers(Text.Value(parts[0]), Text.Value(parts[1]), Text.Value(parts[2]), Text.Value(parts[3])))
  {
    hide Text.Split, Text.Value;
  }

  /** Every address is accepted in its text, and comes back. */
  lemma TextIsAccepted(a: uint32)
    ensures ParseIpv4(FormatIpv4(a)) == Some(a)
  {
    hide ParseIpv4, Text.Join, Text.Decimal;
    NumbersAreAccepted(a / 256 / 256 / 256, a / 256 / 256 % 256, a / 256 % 256, a % 256);
  }

  lemma DecimalIsOctet(n: nat)
    requires n <= 255
    ensures Octet(Text.Decimal(n)) && Text.Value(Text.Decimal(n)) == n
  {
    Text.ValueOfDecimal(n);
    if n >= 10 { assert Text.Decimal(n) == Text.Decimal(n / 10) + [('0' as int + n % 10) as char]; }
    if n >= 100 { assert Text.Decimal(n / 10) == Text.Decimal(n / 100) + [('0' as int + n / 10 % 10) as char]; }
  }

  predicate HexDigit(c: char) {
    '0' <= c <= '9' || 'a' <= c <= 'f' || 'A' <= c <= 'F'
  }

  function HexValue(c: char): int
    requires HexDigit(c)
    ensures 0 <= HexValue(c) < 16
  {
    if '0' <= c <= '9' then c as int - '0' as int
    else if 'a' <= c <= 'f' then c as int - 'a' as int + 10
    else c as int - 'A' as int + 10
  }

  /** Two hexadecimal digits at place i of a colon-separated MAC, and the colon after all but the last. */
  predicate MacPlace(s: string, i: nat)
    requires |s| == 17 && i < 6
  {
    HexDigit(s[3 * i]) && HexDigit(s[3 * i + 1]) && (i < 5 ==> s[3 * i + 2] == ':')
  }

  predicate MacText(s: string) {
    |s| == 17 && forall i | 0 <= i < 6 :: MacPlace(s, i)
  }

  function MacByte(s: string, i: nat): byte
    requires MacText(s) && i < 6
  {
    assert MacPlace(s, i);
    16 * HexValue(s[3 * i]) + HexValue(s[3 * i + 1])
  }

  function ParseMac(s: string): (mac: seq<byte>)
    requires MacText(s)
    ensures |mac| == 6
  {
    seq(6, i requires 0 <= i < 6 => MacByte(s, i))
  }

  /** The digit of a number below sixteen. */
  function HexText(n: nat, upper: bool): char
    requires n < 16
  {
    if n < 10 then ('0' as int + n) as char else ((if upper then 'A' else 'a') as int + n - 10) as char
  }

  function FormatMac(mac: seq<byte>, upper: bool): string
    requires |mac| == 6
  {
    seq(17, i requires 0 <= i < 17 =>
      if i % 3 == 2 then ':' else HexText(if i % 3 == 0 then mac[i / 3] / 16 else mac[i / 3] % 16, upper))
  }

  /** Six bytes in either spelling are accepted, and come back. */
  lemma MacRoundTrip(mac: seq<byte>, upper: bool)
    requires |mac| == 6
    ensures MacText(FormatMac(mac, upper)) && ParseMac(FormatMac(mac, upper)) == mac
  {
    var s := FormatMac(mac, upper);
    forall i: nat | i < 6
      ensures MacPlace(s, i) && 16 * HexValue(s[3 * i]) + HexValue(s[3 * i + 1]) == mac[i]
    {
      assert s[3 * i] == HexText(mac[i] / 16, upper) && s[3 * i + 1] == HexText(mac[i] % 16, upper);
      assert i < 5 ==> s[3 * i + 2] == ':';
    }
    assert MacText(s);
    forall i: nat | i < 6
      ensures ParseMac(s)[i] == mac[i]
    {
      assert MacPlace(s, i);
    }
  }

  // ---- Address blocks ----

  function Size(prefix: nat): nat
    requires prefix <= 32
  {
    Pow2(32 - prefix)
  }

  function Network(a: uint32, prefix: nat): nat
    requires prefix <= 32
  {
    Remainder(a, Size(prefix));
    a - a % Size(prefix)
  }

  lemma Remainder(a: nat, d: nat)
    requires d > 0
    ensures 0 <= a % d <= a
  {
  }

  predicate InNetwork(x: int, a: uint32, prefix: nat)
    requires prefix <= 32
  {
    Network(a, prefix) <= x < Network(a, prefix) + Size(prefix)
  }

  /** Every address whose first `prefix` bits are those of `a`. */
  ghost function Block(a: uint32, prefix: nat): set<int>
    requires prefix <= 32
  {
    set x: int | 0 <= x < WORD && InNetwork(x, a, prefix)
  }

  /** A block has a first (network) and a last (broadcast) address no host may use. */
  ghost predicate Usable(a: uint32, prefix: nat)
    requires prefix <= 32
  {
    Network(a, prefix) < a < Network(a, prefix) + Size(prefix) - 1
  }

  lemma NetworkMultiple(a: uint32, prefix: nat) returns (q: nat)
    requires prefix <= 32
    ensures Network(a, prefix) == q * Size(prefix) && InNetwork(a, a, prefix)
  {
    q := Division(a, Size(prefix));
  }

  lemma Division(a: nat, d: nat) returns (q: nat)
    requires d > 0
    ensures a - a % d == q * d && 0 <= a % d < d
  {
    q := a / d;
  }

  lemma Multiples(i: int, j: int, t: nat)
    ensures i <= j ==> i * t <= j * t
  {
    if i <= j {
      assert (j - i) * t >= 0;
    }
  }

  /** Membership in a block is equality of network parts. */
  lemma InBlock(a: uint32, x: uint32, prefix: nat)
    requires prefix <= 32
    ensures x in Block(a, prefix) <==> Network(x, prefix) == Network(a, prefix)
  {
    var q := NetworkMultiple(a, prefix);
    var r := NetworkMultiple(x, prefix);
    if x in Block(a, prefix) {
      ModuloUnique(x, Size(prefix), q, x - Network(a, prefix));
    }
  }

  /** A shorter prefix gives a block that contains the block of a longer one. */
  lemma Nested(a: uint32, p: nat, q: nat)
    requires p <= q <= 32
    ensures Block(a, q) <= Block(a, p)
  {
    hide Network, Size;
    NestedRange(a, p, q);
  }

  lemma NestedRange(a: uint32, p: nat, q: nat)
    requires p <= q <= 32
    ensures Network(a, p) <= Network(a, q) && Network(a, q) + Size(q) <= Network(a, p) + Size(p)
  {
    hide Network, Pow2;
    var t, u := Size(q), Pow2(q - p);
    Pow2Adds(32 - q, q - p);
    var n := NetworkMultiple(a, p);
    var m := NetworkMultiple(a, q);
    Regroup(n, t, u);
    Regroup(n + 1, t, u);
    BetweenMultiples(n * u, m, (n + 1) * u, t, a);
  }

  lemma Regroup(n: nat, t: nat, u: nat)
    ensures n * (t * u) == (n * u) * t && (n + 1) * (t * u) == n * (t * u) + t * u
  {
  }

  lemma BetweenMultiples(lo: nat, m: nat, hi: nat, t: nat, a: nat)
    requires lo * t <= a < hi * t && m * t <= a < m * t + t
    ensures lo * t <= m * t && m * t + t <= hi * t
  {
    Multiples(m + 1, lo, t);
    Multiples(lo, m, t);
    Multiples(hi, m, t);
    Multiples(m + 1, hi, t);
    assert (m + 1) * t == m * t + t;
  }

  /** The validator's overlap test, comparing under the shorter mask, decides whether two blocks share an address. */
  lemma OverlapTest(a: uint32, p: nat, b: uint32, q: nat)
    requires 1 <= p <= 32 && 1 <= q <= 32
    ensures var mask := if p < q then Mask(p) else Mask(q);
            And(a, mask) == And(b, mask) <==> Block(a, p) * Block(b, q) != {}
  {
    MaskSplits(a, if p < q then p else q);
    MaskSplits(b, if p < q then p else q);
    if p < q {
      Overlap(a, p, b, q);
    } else {
      Overlap(b, q, a, p);
      assert Block(a, p) * Block(b, q) == Block(b, q) * Block(a, p);
    }
  }

  lemma Overlap(a: uint32, p: nat, b: uint32, q: nat)
    requires 1 <= p <= q <= 32
    ensures Network(a, p) == Network(b, p) <==> Block(a, p) * Block(b, q) != {}
  {
    Nested(b, p, q);
    InBlock(a, b, p);
    var m := NetworkMultiple(b, q);
    assert b in Block(b, q);
    if Network(a, p) == Network(b, p) {
      assert b in Block(a, p) * Block(b, q);
    }
    if Block(a, p) * Block(b, q) != {} {
      var x :| x in Block(a, p) * Block(b, q);
      assert x in Block(b, p);
      InBlock(a, x, p);
      InBlock(b, x, p);
    }
  }
}
