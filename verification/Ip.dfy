/** IPv4 addresses and prefixes as numbers. */
module Ip {

  type Addr = a: nat | a < 0x1_0000_0000

  function Pow2(n: nat): (r: nat)
    ensures r > 0
  {
    if n == 0 then 1 else 2 * Pow2(n - 1)
  }

  datatype RawPrefix = Prefix(addr: Addr, bits: nat)

  type Prefix = p: RawPrefix | p.bits <= 32 witness Prefix(0, 0)

  /** How many addresses a prefix of this length spans. */
  function Block(bits: nat): (r: nat)
    requires bits <= 32
    ensures r > 0
  {
    Pow2(32 - bits)
  }

  predicate Contains(p: Prefix, a: Addr) { p.addr / Block(p.bits) == a / Block(p.bits) }

  /** No host bits set: the form every trie row has. */
  predicate IsMasked(p: Prefix) { p.addr % Block(p.bits) == 0 }

  function MaskTo(a: Addr, bits: nat): (p: Prefix)
    requires bits <= 32
    ensures IsMasked(p) && p.bits == bits && Contains(p, a)
  {
    MaskArith(a, Block(bits));
    Prefix(a - a % Block(bits), bits)
  }

  lemma MaskArith(a: nat, b: nat)
    requires b > 0
    ensures (a - a % b) % b == 0 && (a - a % b) / b == a / b && a % b <= a
  {
    var q, r := a / b, a % b;
    assert a == q * b + r;
    MultipleOf(q, b);
  }

  lemma MultipleOf(q: nat, b: nat)
    requires b > 0
    ensures (q * b) % b == 0 && (q * b) / b == q
  {
    var d, m := (q * b) / b, (q * b) % b;
    assert (q - d) * b == m;
    Scaled(q - d, b);
  }

  lemma Scaled(x: int, b: int)
    requires b > 0
    ensures x >= 1 ==> x * b >= b
    ensures x <= -1 ==> x * b <= -b
  {
  }

  function Masked(p: Prefix): Prefix { MaskTo(p.addr, p.bits) }

  /** Of the masked prefixes of one length exactly one contains an address. */
  lemma MaskedUnique(p: Prefix, a: Addr)
    requires IsMasked(p)
    ensures Contains(p, a) <==> p == MaskTo(a, p.bits)
  {
    var b := Block(p.bits);
    MaskArith(p.addr, b);
    MaskArith(a, b);
    if Contains(p, a) {
      QuotientsDecide(p.addr, a - a % b, b);
    }
  }

  lemma QuotientsDecide(x: nat, y: nat, b: nat)
    requires b > 0 && x % b == 0 && y % b == 0 && x / b == y / b
    ensures x == y
  {
  }

  /** Every prefix of length 0 contains every address. */
  lemma ZeroContainsAll(p: Prefix, a: Addr)
    requires p.bits == 0
    ensures Contains(p, a) && MaskTo(a, 0) == Prefix(0, 0)
  {
    Pow32();
    DivSmall(p.addr, Block(0));
    DivSmall(a, Block(0));
  }

  lemma DivSmall(a: nat, b: nat)
    requires a < b
    ensures a / b == 0 && a % b == a
  {
  }

  lemma Pow32()
    ensures Pow2(32) == 0x1_0000_0000
  {
    assert Pow2(4) == 16;
    assert Pow2(8) == 256;
    assert Pow2(12) == 4096;
    assert Pow2(16) == 65536;
    assert Pow2(20) == 0x10_0000;
    assert Pow2(24) == 0x100_0000;
    assert Pow2(28) == 0x1000_0000;
  }
}
