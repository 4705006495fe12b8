/** Byte and packet amounts, sums of amounts over finite maps, and the one
    accumulation every bucket loop of the agent performs: add each entry of a
    map to the bucket its label names. */
module Amounts {

  datatype Amount = Amount(bytes: nat, packets: nat) {
    function Plus(o: Amount): (r: Amount)
      ensures r.bytes == bytes + o.bytes && r.packets == packets + o.packets
    { Amount(bytes + o.bytes, packets + o.packets) }
    predicate AtMost(o: Amount) { bytes <= o.bytes && packets <= o.packets }
    function Minus(o: Amount): (r: Amount)
      requires o.AtMost(this)
      ensures r.bytes + o.bytes == bytes && r.packets + o.packets == packets
    { Amount(bytes - o.bytes, packets - o.packets) }
  }

  const ZERO := Amount(0, 0)

  lemma PlusZero(a: Amount)
    ensures ZERO.Plus(a) == a && a.Plus(ZERO) == a
  {
  }

  lemma PlusCommutes(a: Amount, b: Amount)
    ensures a.Plus(b) == b.Plus(a)
  {
  }

  lemma PlusSwap(a: Amount, b: Amount, c: Amount)
    ensures a.Plus(b).Plus(c) == a.Plus(c).Plus(b)
  {
  }

  lemma AtMostTransitive(a: Amount, b: Amount, c: Amount)
    requires a.AtMost(b) && b.AtMost(c)
    ensures a.AtMost(c)
  {
  }

  /** A missing bucket, or a missing series, counts as zero. */
  function Get<K>(m: map<K, Amount>, k: K): Amount {
    if k in m then m[k] else ZERO
  }

  /** Adding to a bucket, creating it on first use. */
  function Credit<K>(m: map<K, Amount>, k: K, a: Amount): map<K, Amount> {
    m[k := Get(m, k).Plus(a)]
  }

  ghost function Sum<K>(m: map<K, Amount>): Amount
    decreases |m|
  {
    if m == map[] then ZERO
    else
      var k :| k in m;
      assert |m - {k}| < |m| by { assert (m - {k}).Keys == m.Keys - {k}; }
      m[k].Plus(Sum(m - {k}))
  }

  ghost function Keep<K(!new)>(m: map<K, Amount>, p: K -> bool): map<K, Amount> {
    map k | k in m && p(k) :: m[k]
  }

  lemma SumEmpty<K>()
    ensures Sum<K>(map[]) == ZERO
  {
  }

  /** Any entry may be taken out first: the sum does not depend on order. */
  lemma {:induction false} SumRemove<K>(m: map<K, Amount>, k: K)
    requires k in m
    ensures Sum(m) == m[k].Plus(Sum(m - {k}))
    decreases |m|, 1
  {
    var j :| j in m && Sum(m) == m[j].Plus(Sum(m - {j}));
    if j != k {
      Exchange(m, j, k);
    }
  }

  lemma {:induction false} Exchange<K>(m: map<K, Amount>, j: K, k: K)
    requires j in m && k in m && j != k
    ensures m[j].Plus(Sum(m - {j})) == m[k].Plus(Sum(m - {k}))
    decreases |m|, 0
  {
    hide Sum;
    assert |m - {j}| < |m| by { assert (m - {j}).Keys == m.Keys - {j}; }
    assert |m - {k}| < |m| by { assert (m - {k}).Keys == m.Keys - {k}; }
    SumRemove(m - {j}, k);
    SumRemove(m - {k}, j);
    assert m - {j} - {k} == m - {k} - {j};
  }

  lemma SumInsert<K>(m: map<K, Amount>, k: K, a: Amount)
    requires k !in m
    ensures Sum(m[k := a]) == Sum(m).Plus(a)
  {
    SumRemove(m[k := a], k);
    assert m[k := a] - {k} == m;
  }

  /** Overwriting an entry trades its old worth for the new one. */
  lemma SumSet<K>(m: map<K, Amount>, k: K, a: Amount)
    ensures Sum(m[k := a]).Plus(Get(m, k)) == Sum(m).Plus(a)
  {
    hide Sum;
    SumRemove(m[k := a], k);
    if k in m {
      SumRemove(m, k);
      assert m[k := a] - {k} == m - {k};
    } else {
      assert m[k := a] - {k} == m;
    }
  }

  lemma SumCredit<K>(m: map<K, Amount>, k: K, a: Amount)
    ensures Sum(Credit(m, k, a)) == Sum(m).Plus(a)
  {
    if k in m {
      SumRemove(Credit(m, k, a), k);
      SumRemove(m, k);
      assert Credit(m, k, a) - {k} == m - {k};
    } else {
      SumInsert(m, k, Get(m, k).Plus(a));
    }
  }

  lemma {:induction false} SumZero<K>(m: map<K, Amount>)
    requires forall k :: k in m ==> m[k] == ZERO
    ensures Sum(m) == ZERO
    decreases |m|
  {
    if m != map[] {
      var k :| k in m;
      assert |m - {k}| < |m| by { assert (m - {k}).Keys == m.Keys - {k}; }
      SumRemove(m, k);
      SumZero(m - {k});
    }
  }

  ghost function NonZeros<K(!new)>(m: map<K, Amount>): map<K, Amount> {
    map k | k in m && m[k] != ZERO :: m[k]
  }

  lemma SumNonZeros<K(!new)>(m: map<K, Amount>)
    ensures Sum(NonZeros(m)) == Sum(m)
  {
    hide Sum;
    var zeros := map k | k in m && m[k] == ZERO :: m[k];
    SumSplit(m, zeros, NonZeros(m));
    SumZero(zeros);
    PlusZero(Sum(NonZeros(m)));
  }

  lemma NonZerosAgree<K(!new)>(a: map<K, Amount>, b: map<K, Amount>)
    requires forall k :: Get(a, k) == Get(b, k)
    ensures NonZeros(a) == NonZeros(b)
  {
    assert forall k :: k in NonZeros(a) ==> Get(b, k) == a[k];
    assert forall k :: k in NonZeros(b) ==> Get(a, k) == b[k];
  }

  /** Only the non-zero entries matter to a sum. */
  lemma SumAgree<K(!new)>(a: map<K, Amount>, b: map<K, Amount>)
    requires forall k :: Get(a, k) == Get(b, k)
    ensures Sum(a) == Sum(b)
  {
    NonZerosAgree(a, b);
    hide Sum, Get, NonZeros;
    SumNonZeros(a);
    SumNonZeros(b);
  }

  /** Growing every entry, and adding entries, never lowers a sum. */
  lemma {:induction false} SumMono<K>(a: map<K, Amount>, b: map<K, Amount>)
    requires forall k :: k in a ==> k in b && a[k].AtMost(b[k])
    ensures Sum(a).AtMost(Sum(b))
    decreases |a|
  {
    if a != map[] {
      var k :| k in a;
      assert |a - {k}| < |a| by { assert (a - {k}).Keys == a.Keys - {k}; }
      SumRemove(a, k);
      SumRemove(b, k);
      SumMono(a - {k}, b - {k});
    }
  }

  /** A sum splits along any two-way partition of the keys. */
  lemma {:induction false} SumSplit<K>(m: map<K, Amount>, a: map<K, Amount>, b: map<K, Amount>)
    requires forall k :: k in m <==> k in a || k in b
    requires forall k :: k in a ==> k !in b && m[k] == a[k]
    requires forall k :: k in b ==> m[k] == b[k]
    ensures Sum(m) == Sum(a).Plus(Sum(b))
    decreases |a|
  {
    hide Sum;
    if a == map[] {
      assert m == b;
      SumEmpty<K>();
      PlusZero(Sum(b));
    } else {
      var k :| k in a;
      assert |a - {k}| < |a| by { assert (a - {k}).Keys == a.Keys - {k}; }
      SumRemove(m, k);
      SumRemove(a, k);
      SumSplit(m - {k}, a - {k}, b);
    }
  }

  // ---------------------------------------------------------------------
  // Accumulation into labelled buckets
  // ---------------------------------------------------------------------

  /** The part of m whose label is l. */
  ghost function Labelled<K(!new), L(!new)>(m: map<K, Amount>, f: K -> L, l: L): map<K, Amount> {
    map k | k in m && f(k) == l :: m[k]
  }

  ghost function Labels<K(!new), L(!new)>(m: map<K, Amount>, f: K -> L): set<L> {
    set k | k in m :: f(k)
  }

  /** Every entry of m added to the bucket its label names. This mentions no
      order of visits, and is the specification of each accumulation loop. */
  ghost function GroupFold<K(!new), L(!new)>(buckets: map<L, Amount>, m: map<K, Amount>, f: K -> L): map<L, Amount> {
    map l | l in buckets.Keys + Labels(m, f) :: Get(buckets, l).Plus(Sum(Labelled(m, f, l)))
  }

  lemma GroupFoldEmpty<K(!new), L(!new)>(buckets: map<L, Amount>, f: K -> L)
    ensures GroupFold(buckets, map[], f) == buckets
  {
  }

  lemma LabelledStep<K(!new), L(!new)>(m: map<K, Amount>, f: K -> L, k: K, a: Amount, l: L)
    requires k !in m
    ensures Sum(Labelled(m[k := a], f, l)) ==
            if l == f(k) then Sum(Labelled(m, f, l)).Plus(a) else Sum(Labelled(m, f, l))
  {
    hide Sum;
    if l == f(k) {
      assert Labelled(m[k := a], f, l) == Labelled(m, f, l)[k := a];
      SumInsert(Labelled(m, f, l), k, a);
    } else {
      assert Labelled(m[k := a], f, l) == Labelled(m, f, l);
    }
  }

  lemma LabelsStep<K(!new), L(!new)>(m: map<K, Amount>, f: K -> L, k: K, a: Amount)
    requires k !in m
    ensures Labels(m[k := a], f) == Labels(m, f) + {f(k)}
  {
  }

  lemma Unlabelled<K(!new), L(!new)>(m: map<K, Amount>, f: K -> L, l: L)
    requires l !in Labels(m, f)
    ensures Sum(Labelled(m, f, l)) == ZERO
  {
  }

  lemma PlusAssoc(a: Amount, b: Amount, c: Amount)
    ensures a.Plus(b).Plus(c) == a.Plus(b.Plus(c))
  {
  }

  /** What a bucket holds, present or not. */
  lemma GroupFoldGet<K(!new), L(!new)>(buckets: map<L, Amount>, m: map<K, Amount>, f: K -> L, l: L)
    ensures Get(GroupFold(buckets, m, f), l) == Get(buckets, l).Plus(Sum(Labelled(m, f, l)))
  {
    hide Sum, Labelled, Labels;
    if l !in GroupFold(buckets, m, f) {
      Unlabelled(m, f, l);
      PlusZero(ZERO);
    }
  }

  /** Visiting one more entry credits exactly one bucket. */
  lemma GroupFoldStep<K(!new), L(!new)>(buckets: map<L, Amount>, m: map<K, Amount>, f: K -> L, k: K, a: Amount)
    requires k !in m
    ensures GroupFold(buckets, m[k := a], f) == Credit(GroupFold(buckets, m, f), f(k), a)
  {
    LabelsStep(m, f, k, a);
    var g, g' := GroupFold(buckets, m, f), GroupFold(buckets, m[k := a], f);
    assert g'.Keys == Credit(g, f(k), a).Keys;
    hide Sum, Labelled, Labels, GroupFold;
    forall l | l in g'
      ensures g'[l] == Credit(g, f(k), a)[l]
    {
      LabelledStep(m, f, k, a, l);
      GroupFoldGet(buckets, m, f, l);
      GroupFoldGet(buckets, m[k := a], f, l);
      PlusAssoc(Get(buckets, l), Sum(Labelled(m, f, l)), a);
    }
  }

  ghost function Via<K(!new), L(!new)>(f: K -> L, p: L -> bool): K -> bool {
    k => p(f(k))
  }

  lemma KeepCredit<K(!new)>(m: map<K, Amount>, p: K -> bool, k: K, a: Amount)
    ensures p(k) ==> Keep(Credit(m, k, a), p) == Credit(Keep(m, p), k, a)
    ensures !p(k) ==> Keep(Credit(m, k, a), p) == Keep(m, p)
  {
  }

  lemma KeepInsert<K(!new)>(m: map<K, Amount>, p: K -> bool, k: K)
    requires k in m
    ensures p(k) ==> Keep(m, p) == Keep(m - {k}, p)[k := m[k]]
    ensures !p(k) ==> Keep(m, p) == Keep(m - {k}, p)
  {
  }

  /** Accumulating m into buckets adds exactly Sum(m), whatever the labels;
      restricted to labels satisfying p it adds exactly those entries. */
  lemma {:induction false} GroupFoldSum<K(!new), L(!new)>(buckets: map<L, Amount>, m: map<K, Amount>, f: K -> L,
                                                          p: L -> bool)
    ensures Sum(Keep(GroupFold(buckets, m, f), p)) == Sum(Keep(buckets, p)).Plus(Sum(Keep(m, Via(f, p))))
    decreases |m|
  {
    hide Sum;
    hide GroupFold;
    if m == map[] {
      GroupFoldEmpty(buckets, f);
      assert Keep(m, Via(f, p)) == map[];
      SumEmpty<K>();
    } else {
      var k :| k in m;
      var rest := m - {k};
      assert |rest| < |m| by { assert rest.Keys == m.Keys - {k}; }
      GroupFoldSum(buckets, rest, f, p);
      GroupFoldStep(buckets, rest, f, k, m[k]);
      assert rest[k := m[k]] == m;
      var g := GroupFold(buckets, rest, f);
      KeepCredit(g, p, f(k), m[k]);
      KeepInsert(m, Via(f, p), k);
      if p(f(k)) {
        SumCredit(Keep(g, p), f(k), m[k]);
        SumInsert(Keep(rest, Via(f, p)), k, m[k]);
      }
    }
  }

  lemma GroupFoldTotal<K(!new), L(!new)>(buckets: map<L, Amount>, m: map<K, Amount>, f: K -> L)
    ensures Sum(GroupFold(buckets, m, f)) == Sum(buckets).Plus(Sum(m))
  {
    hide Sum;
    var p: L -> bool := _ => true;
    GroupFoldSum(buckets, m, f, p);
    assert Keep(GroupFold(buckets, m, f), p) == GroupFold(buckets, m, f);
    assert Keep(buckets, p) == buckets;
    assert Keep(m, Via(f, p)) == m;
  }

  /** Accumulating into nothing. */
  lemma GroupFoldFreshGet<K(!new), L(!new)>(m: map<K, Amount>, f: K -> L, l: L)
    ensures Get(GroupFold(map[], m, f), l) == Sum(Labelled(m, f, l))
  {
    hide Sum, GroupFold;
    GroupFoldGet(map[], m, f, l);
    PlusZero(Sum(Labelled(m, f, l)));
  }

  lemma GroupFoldFreshSum<K(!new), L(!new)>(m: map<K, Amount>, f: K -> L, p: L -> bool)
    ensures Sum(Keep(GroupFold(map[], m, f), p)) == Sum(Keep(m, Via(f, p)))
  {
    hide Sum, GroupFold;
    GroupFoldSum(map[], m, f, p);
    assert Keep<L>(map[], p) == map[];
    SumEmpty<L>();
    PlusZero(Sum(Keep(m, Via(f, p))));
  }

  /** One more non-zero entry makes a different sum. */
  lemma StrictlyLess<K(!new)>(a: map<K, Amount>, b: map<K, Amount>, x: K)
    requires (forall k :: k in a ==> k in b && b[k] == a[k]) && x in b && x !in a && b[x] != ZERO
    ensures Sum(a) != Sum(b)
  {
    hide Sum;
    var rest := map k | k in b && k !in a :: b[k];
    SumSplit(b, a, rest);
    SumRemove(rest, x);
  }

  /** A subset is no larger. */
  lemma {:induction false} SubsetSize<T>(a: set<T>, b: set<T>)
    requires a <= b
    ensures |a| <= |b|
  {
    if a != {} {
      var x :| x in a;
      SubsetSize(a - {x}, b - {x});
    }
  }
}
