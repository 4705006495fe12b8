/** The bytes behind a trie row: how a row's key is laid out in memory, what the
    kernel's longest-prefix trie compares, and why that is lookup over rows. */
module LpmKeys {
  import opened Bpf
  import opened Options
  import opened Ip
  import opened Trie

  /** Four bytes, in memory order. */
  datatype Word = Word(b0: Byte, b1: Byte, b2: Byte, b3: Byte)

  datatype Endian = LittleEndian | BigEndian

  type U32 = v: nat | v < 0x1_0000_0000

  /** The value of a word read most significant byte first. */
  function Be32(w: Word): (v: U32) { Push(Push(Push(w.b0, w.b1), w.b2), w.b3) }

  /** Its inverse: the last byte is peeled off three times. */
  function Split(v: U32): Word {
    var v2 := v / 256;
    var v1 := v2 / 256;
    Word(v1 / 256, v1 % 256, v2 % 256, v % 256)
  }

  function Reversed(w: Word): Word { Word(w.b3, w.b2, w.b1, w.b0) }

  /** The memory a host stores a number in. */
  function Stored(e: Endian, v: U32): Word { if e.BigEndian? then Split(v) else Reversed(Split(v)) }

  /** The number a host reads from memory: binary.NativeEndian.Uint32. */
  function NativeUint32(e: Endian, w: Word): U32 { if e.BigEndian? then Be32(w) else Be32(Reversed(w)) }

  /** Addr.As4: an address on the wire leads with its most significant byte. */
  function WireBytes(a: Addr): Word { Split(a) }

  lemma SplitInverts(v: U32)
    ensures Be32(Split(v)) == v
  {
  }

  lemma Peeled(h: nat, b: Byte)
    ensures Push(h, b) / 256 == h && Push(h, b) % 256 == b
  {
  }

  lemma Be32Inverts(w: Word)
    ensures Split(Be32(w)) == w
  {
    hide Push;
    Peeled(Push(Push(w.b0, w.b1), w.b2), w.b3);
    Peeled(Push(w.b0, w.b1), w.b2);
    Peeled(w.b0, w.b1);
  }

  /** Reading native memory and storing it again changes nothing, on either host. */
  lemma StoredInverts(e: Endian, w: Word)
    ensures Stored(e, NativeUint32(e, w)) == w
  {
    Be32Inverts(w);
    Be32Inverts(Reversed(w));
  }

  // ---------------------------------------------------------------------
  // Keys
  // ---------------------------------------------------------------------

  datatype LpmKey = LpmKey(prefixlen: nat, tenantId: U32, ip: U32)

  function LpmKeyForPrefix(e: Endian, tid: U32, p: Prefix): (k: LpmKey)
    ensures 32 <= k.prefixlen <= 64
  {
    LpmKey(32 + p.bits, tid, NativeUint32(e, WireBytes(p.addr)))
  }

  /** The key lookup_zone probes with: all 64 bits, the address as it came off the wire. */
  function QueryKey(e: Endian, tid: U32, a: Addr): LpmKey { LpmKey(64, tid, NativeUint32(e, WireBytes(a))) }

  /** The data bytes of a key, read as one number most significant byte first. */
  function Data(e: Endian, k: LpmKey): nat { Be32(Stored(e, k.tenantId)) * 0x1_0000_0000 + Be32(Stored(e, k.ip)) }

  /** A stored key matches a query when its prefixlen leading data bits agree. */
  predicate KernelMatches(e: Endian, stored: LpmKey, query: LpmKey)
    requires stored.prefixlen <= 64
  {
    && stored.prefixlen <= query.prefixlen
    && Data(e, stored) / Pow2(64 - stored.prefixlen) == Data(e, query) / Pow2(64 - stored.prefixlen)
  }

  /** The address ends up as the low half of the data, whatever the host. */
  lemma DataIs(e: Endian, tid: U32, a: Addr, bits: nat)
    ensures Data(e, LpmKey(bits, tid, NativeUint32(e, WireBytes(a)))) == Be32(Stored(e, tid)) * 0x1_0000_0000 + a
  {
    StoredInverts(e, WireBytes(a));
    SplitInverts(a);
  }

  lemma TenantHalf(e: Endian, t: U32, u: U32)
    ensures Be32(Stored(e, t)) == Be32(Stored(e, u)) <==> t == u
  {
    Be32Inverts(Stored(e, t));
    Be32Inverts(Stored(e, u));
    SplitInverts(t);
    SplitInverts(u);
    assert Stored(e, t) == Stored(e, u) ==> Split(t) == Split(u);
  }

  /** Two rows share a kernel key only if they are the same row. */
  lemma LpmKeyInjective(e: Endian, t: U32, p: Prefix, u: U32, q: Prefix)
    ensures LpmKeyForPrefix(e, t, p) == LpmKeyForPrefix(e, u, q) <==> t == u && p == q
  {
    StoredInverts(e, WireBytes(p.addr));
    StoredInverts(e, WireBytes(q.addr));
    SplitInverts(p.addr);
    SplitInverts(q.addr);
  }

  /** What the byte layout is for: a row's key matches a probe exactly when the
      tenant is the same and the prefix contains the address. */
  lemma MatchesIffContains(e: Endian, t: U32, p: Prefix, u: U32, a: Addr)
    ensures KernelMatches(e, LpmKeyForPrefix(e, t, p), QueryKey(e, u, a)) <==> t == u && Contains(p, a)
  {
    hide Data, Pow2, Stored, Be32, NativeUint32, WireBytes;
    DataIs(e, t, p.addr, 32 + p.bits);
    DataIs(e, u, a, 64);
    TenantHalf(e, t, u);
    PowSum(p.bits, 32 - p.bits);
    Pow32();
    HalvesApart(Be32(Stored(e, t)), p.addr, Be32(Stored(e, u)), a, Pow2(p.bits), Block(p.bits));
  }

  lemma {:induction false} PowSum(m: nat, n: nat)
    ensures Pow2(m) * Pow2(n) == Pow2(m + n)
  {
    if m > 0 {
      PowSum(m - 1, n);
      Doubled(Pow2(m - 1), Pow2(n));
    }
  }

  lemma Doubled(a: nat, b: nat)
    ensures (2 * a) * b == 2 * (a * b)
  {
  }

  /** Dropping low bits of the address half compares tenants exactly and addresses
      by block. */
  lemma HalvesApart(t: nat, x: Addr, u: nat, y: Addr, hi: nat, b: nat)
    requires hi > 0 && b > 0 && hi * b == 0x1_0000_0000
    ensures (t * 0x1_0000_0000 + x) / b == (u * 0x1_0000_0000 + y) / b <==> t == u && x / b == y / b
  {
    Shifted(t, x, hi, b);
    Shifted(u, y, hi, b);
    Below(x, hi, b);
    Below(y, hi, b);
    if t * hi + x / b == u * hi + y / b {
      DigitsUnique(t, x / b, u, y / b, hi);
    }
  }

  lemma Shifted(t: nat, x: Addr, hi: nat, b: nat)
    requires b > 0 && hi * b == 0x1_0000_0000
    ensures (t * 0x1_0000_0000 + x) / b == t * hi + x / b
  {
    var q, r := x / b, x % b;
    assert t * 0x1_0000_0000 + x == (t * hi + q) * b + r by {
      assert t * (hi * b) == (t * hi) * b;
      assert (t * hi + q) * b == (t * hi) * b + q * b;
    }
    Quotient(t * hi + q, r, b);
  }

  lemma Quotient(q: nat, r: nat, b: nat)
    requires r < b
    ensures (q * b + r) / b == q
  {
    var n := q * b + r;
    var d := n / b;
    assert n == d * b + n % b;
    assert (q - d) * b == n % b - r;
    Scaled(q - d, b);
  }

  lemma Below(x: Addr, hi: nat, b: nat)
    requires b > 0 && hi * b == 0x1_0000_0000
    ensures x / b < hi
  {
    var q := x / b;
    assert q * b <= x;
    assert (q - hi) * b == q * b - hi * b;
    Scaled(q - hi, b);
  }

  lemma DigitsUnique(t: nat, x: nat, u: nat, y: nat, hi: nat)
    requires x < hi && y < hi && t * hi + x == u * hi + y
    ensures t == u && x == y
  {
    assert (t - u) * hi == y - x;
    Scaled(t - u, hi);
  }

  // ---------------------------------------------------------------------
  // The kernel map and what it answers
  // ---------------------------------------------------------------------

  predicate Fits(rows: Rows) { forall r :: r in rows ==> r.tid < 0x1_0000_0000 }

  function KeyFor(e: Endian, r: RowKey): LpmKey
    requires r.tid < 0x1_0000_0000
  {
    LpmKeyForPrefix(e, r.tid, r.prefix)
  }

  /** The kernel map holding rows: distinct rows have distinct keys. */
  ghost function Encoded(e: Endian, rows: Rows): map<LpmKey, ZoneCode>
    requires Fits(rows)
  {
    KeysDistinct(e, rows);
    map r | r in rows :: KeyFor(e, r) := rows[r]
  }

  lemma KeysDistinct(e: Endian, rows: Rows)
    requires Fits(rows)
    ensures forall r, s :: r in rows && s in rows && KeyFor(e, r) == KeyFor(e, s) ==> r == s
  {
    forall r, s | r in rows && s in rows && KeyFor(e, r) == KeyFor(e, s)
      ensures r == s
    {
      LpmKeyInjective(e, r.tid, r.prefix, s.tid, s.prefix);
    }
  }

  /** What a probe of the kernel map may answer: nothing exactly if no key matches,
      else the value of a matching key with no longer one. */
  ghost predicate Answers(e: Endian, kernel: map<LpmKey, ZoneCode>, query: LpmKey, zone: Option<ZoneCode>)
    requires forall k :: k in kernel ==> k.prefixlen <= 64
  {
    match zone
    case None => forall k :: k in kernel ==> !KernelMatches(e, k, query)
    case Some(z) =>
      exists k :: k in kernel && KernelMatches(e, k, query) && kernel[k] == z
        && forall j :: j in kernel && KernelMatches(e, j, query) ==> j.prefixlen <= k.prefixlen
  }

  /** The kernel map holds the rows' keys and no other. */
  lemma EncodedKeys(e: Endian, rows: Rows)
    requires Fits(rows)
    ensures forall r :: r in rows ==> KeyFor(e, r) in Encoded(e, rows) && Encoded(e, rows)[KeyFor(e, r)] == rows[r]
    ensures forall k :: k in Encoded(e, rows) ==> k.prefixlen <= 64 && exists r :: r in rows && KeyFor(e, r) == k
  {
    hide LpmKeyForPrefix;
    KeysDistinct(e, rows);
  }

  /** A row's key matches a probe exactly when the row holds the address; longer
      rows have longer keys. */
  lemma RowMatches(e: Endian, rows: Rows, tid: U32, a: Addr, r: RowKey)
    requires Fits(rows) && r in rows
    ensures KernelMatches(e, KeyFor(e, r), QueryKey(e, tid, a)) <==> Holds(rows, tid, a, r)
    ensures KeyFor(e, r).prefixlen == 32 + r.prefix.bits
  {
    hide KernelMatches, QueryKey, Contains, NativeUint32, WireBytes;
    MatchesIffContains(e, r.tid, r.prefix, tid, a);
  }

  /** A probe of the encoded map answers exactly what lookup over the rows does. */
  lemma ProbeIsLookup(e: Endian, rows: Rows, tid: U32, a: Addr, zone: Option<ZoneCode>)
    requires Fits(rows) && AllMasked(rows)
    ensures forall k :: k in Encoded(e, rows) ==> k.prefixlen <= 64
    ensures Answers(e, Encoded(e, rows), QueryKey(e, tid, a), zone) <==>
              match Lookup(rows, tid, a)
              case None => zone == None
              case Some(m) => zone == Some(m.zone)
  {
    EncodedKeys(e, rows);
    LookupIsLongest(rows, tid, a);
    hide *;
    var kernel, query := Encoded(e, rows), QueryKey(e, tid, a);
    match Lookup(rows, tid, a)
    case None => NothingAnswers(e, rows, tid, a, zone);
    case Some(m) => LongestAnswers(e, rows, tid, a, RowKey(tid, MaskTo(a, m.bits)), zone);
  }

  lemma NothingAnswers(e: Endian, rows: Rows, tid: U32, a: Addr, zone: Option<ZoneCode>)
    requires Fits(rows) && forall r :: !Holds(rows, tid, a, r)
    ensures forall k :: k in Encoded(e, rows) ==> k.prefixlen <= 64
    ensures Answers(e, Encoded(e, rows), QueryKey(e, tid, a), zone) <==> zone == None
  {
    EncodedKeys(e, rows);
    hide Encoded, KernelMatches, QueryKey, Holds, KeyFor;
    forall k | k in Encoded(e, rows)
      ensures !KernelMatches(e, k, QueryKey(e, tid, a))
    {
      var r :| r in rows && KeyFor(e, r) == k;
      RowMatches(e, rows, tid, a, r);
    }
  }

  lemma LongestAnswers(e: Endian, rows: Rows, tid: U32, a: Addr, best: RowKey, zone: Option<ZoneCode>)
    requires Fits(rows) && AllMasked(rows) && Holds(rows, tid, a, best)
    requires forall r :: Holds(rows, tid, a, r) ==> r.prefix.bits <= best.prefix.bits
    ensures forall k :: k in Encoded(e, rows) ==> k.prefixlen <= 64
    ensures Answers(e, Encoded(e, rows), QueryKey(e, tid, a), zone) <==> zone == Some(rows[best])
  {
    EncodedKeys(e, rows);
    hide Encoded, KernelMatches, QueryKey, KeyFor, IsMasked, Contains;
    var kernel, query := Encoded(e, rows), QueryKey(e, tid, a);
    RowMatches(e, rows, tid, a, best);
    forall k | k in kernel && KernelMatches(e, k, query)
      ensures k.prefixlen <= KeyFor(e, best).prefixlen
      ensures k.prefixlen == KeyFor(e, best).prefixlen ==> k == KeyFor(e, best)
    {
      var r :| r in rows && KeyFor(e, r) == k;
      RowMatches(e, rows, tid, a, r);
      if r.prefix.bits == best.prefix.bits {
        MaskedUnique(r.prefix, a);
        MaskedUnique(best.prefix, a);
      }
    }
  }
}
