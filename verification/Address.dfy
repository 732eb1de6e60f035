/** IP addresses and the nets policy rules name, also said with leading bits. */
module Addresses {
  import opened Options

  function Power2(k: nat): (p: nat)
    ensures p > 0
  {
    if k == 0 then 1 else 2 * Power2(k - 1)
  }

  type Bits32 = n: nat | n < Power2(32)
  type Bits128 = n: nat | n < Power2(128)

  /** A parsed address; an IPv4 address in IPv6 form is the IPv4 address. */
  datatype IP = V4(bits4: Bits32) | V6(bits6: Bits128)

  datatype Net = Net(base: IP, prefix: nat)

  function Width(ip: IP): nat {
    if ip.V4? then 32 else 128
  }

  function Bits(ip: IP): (n: nat)
    ensures n < Power2(Width(ip))
  {
    if ip.V4? then ip.bits4 else ip.bits6
  }

  predicate Contains(n: Net, ip: IP) {
    n.base.V4? == ip.V4? &&
    var host := Power2(if n.prefix < Width(ip) then Width(ip) - n.prefix else 0);
    Bits(n.base) / host == Bits(ip) / host
  }

  // ---- leading bits --------------------------------------------------------

  /** Bit k of n, counted from the least significant. */
  function Bit(n: nat, k: nat): nat {
    n / Power2(k) % 2
  }

  /** The k-th bit of an address, counted from the left. */
  function LeadingBit(ip: IP, k: nat): nat
    requires k < Width(ip)
  {
    Bit(Bits(ip), Width(ip) - 1 - k)
  }

  predicate SharesPrefix(a: IP, b: IP, p: nat) {
    a.V4? == b.V4? && forall k :: 0 <= k < p && k < Width(a) ==> LeadingBit(a, k) == LeadingBit(b, k)
  }

  lemma DivTwice(x: nat, a: nat)
    requires a > 0
    ensures x / (2 * a) == x / a / 2
  {
    var m, s := x / a, x % a;
    var q, e := m / 2, m % 2;
    Halves(x, a, m, s, q, e);
    DivIs(x, 2 * a, q, a * e + s);
  }

  lemma Halves(x: nat, a: nat, m: nat, s: nat, q: nat, e: nat)
    requires x == a * m + s && s < a && m == 2 * q + e && e < 2
    ensures x == (2 * a) * q + (a * e + s) && a * e + s < 2 * a
  {
    Spread(a, 2 * q, e);
    Regroup(a, q);
    assert e == 0 || e == 1;
  }

  lemma Spread(a: nat, b: nat, c: nat)
    ensures a * (b + c) == a * b + a * c
  {
  }

  lemma Regroup(a: nat, q: nat)
    ensures a * (2 * q) == (2 * a) * q
  {
  }

  lemma Times(d: nat, a: nat, b: nat)
    requires a <= b
    ensures d * a <= d * b
  {
  }

  lemma DivIs(x: nat, d: nat, q: nat, r: nat)
    requires x == d * q + r && r < d
    ensures x / d == q
  {
    var p := x / d;
    assert x == d * p + x % d;
    if p < q { Times(d, p + 1, q); }
    if q < p { Times(d, q + 1, p); }
  }

  lemma DropBit(x: nat, k: nat)
    ensures x / Power2(k) == 2 * (x / Power2(k + 1)) + Bit(x, k)
  {
    DivTwice(x, Power2(k));
  }

  /** Numbers below 2^(k + n) agree from bit k upwards iff their n bits there do. */
  lemma {:induction false} HighBits(x: nat, y: nat, k: nat, n: nat)
    requires x < Power2(k + n) && y < Power2(k + n)
    ensures x / Power2(k) == y / Power2(k) <==> forall j :: k <= j < k + n ==> Bit(x, j) == Bit(y, j)
    decreases n
  {
    hide Bit;
    if n == 0 {
      DivIs(x, Power2(k), 0, x);
      DivIs(y, Power2(k), 0, y);
    } else {
      DropBit(x, k);
      DropBit(y, k);
      HighBits(x, y, k + 1, n - 1);
      BitIsSmall(x, k);
      BitIsSmall(y, k);
    }
  }

  lemma BitIsSmall(x: nat, k: nat)
    ensures Bit(x, k) < 2
  {
  }

  /** A net holds exactly the addresses of its family that agree with its base in the first `prefix` bits. */
  lemma {:induction false} ContainsIsPrefix(n: Net, ip: IP)
    ensures Contains(n, ip) <==> SharesPrefix(n.base, ip, n.prefix)
  {
    hide Bit, Power2;
    if n.base.V4? == ip.V4? {
      var w := Width(ip);
      var p := if n.prefix < w then n.prefix else w;
      var x, y := Bits(n.base), Bits(ip);
      HighBits(x, y, w - p, p);
      forall j | w - p <= j < w
        ensures LeadingBit(n.base, w - 1 - j) == Bit(x, j) && LeadingBit(ip, w - 1 - j) == Bit(y, j)
      {
      }
      forall k | 0 <= k < p
        ensures LeadingBit(n.base, k) == Bit(x, w - 1 - k) && LeadingBit(ip, k) == Bit(y, w - 1 - k)
      {
      }
    }
  }

  /** Prefix 0 holds the whole family, the full prefix the base alone, and a longer prefix fewer addresses. */
  lemma {:induction false} NetSizes(n: Net, ip: IP, longer: nat)
    ensures n.prefix == 0 ==> (Contains(n, ip) <==> n.base.V4? == ip.V4?)
    ensures n.prefix >= Width(n.base) ==> (Contains(n, ip) <==> ip == n.base)
    ensures n.prefix <= longer && Contains(n.(prefix := longer), ip) ==> Contains(n, ip)
    ensures Contains(n, n.base)
  {
    ContainsIsPrefix(n, ip);
    ContainsIsPrefix(n.(prefix := longer), ip);
    ContainsIsPrefix(n, n.base);
    hide Bit;
    assert Power2(0) == 1;
  }
}
