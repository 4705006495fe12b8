/** The order trie rows are emitted in: by tenant, then prefix, then zone. */
module TrieOrder {
  import opened Bpf
  import opened Ip
  import opened Trie

  /** The zone's number on the wire. */
  function Code(z: ZoneCode): nat {
    match z
    case External => 0
    case SameTenant => 1
    case OtherTenant => 2
    case Infra => 3
    case Miss => 4
    case Shared => 5
    case Multicast => 6
  }

  predicate StringLeq(a: string, b: string) {
    a == "" || (b != "" && (a[0] < b[0] || (a[0] == b[0] && StringLeq(a[1..], b[1..]))))
  }

  lemma {:induction false} StringTotal(a: string, b: string)
    ensures StringLeq(a, b) || StringLeq(b, a)
    ensures StringLeq(a, b) && StringLeq(b, a) ==> a == b
  {
    if a != "" && b != "" {
      StringTotal(a[1..], b[1..]);
      assert a == [a[0]] + a[1..] && b == [b[0]] + b[1..];
    }
  }

  lemma {:induction false} StringTransitive(a: string, b: string, c: string)
    requires StringLeq(a, b) && StringLeq(b, c)
    ensures StringLeq(a, c)
  {
    if a != "" && a[0] == b[0] == c[0] {
      StringTransitive(a[1..], b[1..], c[1..]);
    }
  }

  predicate PrefixLess(p: Prefix, q: Prefix) { p.addr < q.addr || (p.addr == q.addr && p.bits < q.bits) }

  predicate EntryLeq(x: TrieEntry, y: TrieEntry) {
    if x.tenantId != y.tenantId then StringLeq(x.tenantId, y.tenantId)
    else if x.prefix != y.prefix then PrefixLess(x.prefix, y.prefix)
    else Code(x.zone) <= Code(y.zone)
  }

  lemma EntryTotal(x: TrieEntry, y: TrieEntry)
    ensures EntryLeq(x, y) || EntryLeq(y, x)
  {
    hide StringLeq;
    StringTotal(x.tenantId, y.tenantId);
  }

  lemma EntryTransitive(x: TrieEntry, y: TrieEntry, z: TrieEntry)
    requires EntryLeq(x, y) && EntryLeq(y, z)
    ensures EntryLeq(x, z)
  {
    hide StringLeq, Code;
    if x.tenantId != y.tenantId && y.tenantId != z.tenantId {
      StringTransitive(x.tenantId, y.tenantId, z.tenantId);
      StringTotal(x.tenantId, y.tenantId);
    }
  }

  ghost predicate Sorted(es: seq<TrieEntry>) {
    forall i, j :: 0 <= i < j < |es| ==> EntryLeq(es[i], es[j])
  }

  /** e put in its place among sorted rows. */
  function Inserted(es: seq<TrieEntry>, e: TrieEntry): seq<TrieEntry> {
    if es == [] || EntryLeq(e, es[0]) then [e] + es else [es[0]] + Inserted(es[1..], e)
  }

  lemma {:induction false} InsertedSorts(es: seq<TrieEntry>, e: TrieEntry)
    requires Sorted(es)
    ensures Sorted(Inserted(es, e)) && multiset(Inserted(es, e)) == multiset(es) + multiset{e}
  {
    hide EntryLeq;
    if es != [] {
      assert es == [es[0]] + es[1..];
      if EntryLeq(e, es[0]) {
        forall j | 0 <= j < |es| ensures EntryLeq(e, es[j]) {
          if j > 0 { EntryTransitive(e, es[0], es[j]); }
        }
      } else {
        var rest := Inserted(es[1..], e);
        EntryTotal(e, es[0]);
        InsertedSorts(es[1..], e);
        forall j | 0 <= j < |rest| ensures EntryLeq(es[0], rest[j]) {
          assert rest[j] in multiset(rest);
        }
      }
    }
  }

  method SortEntries(es: seq<TrieEntry>) returns (out: seq<TrieEntry>)
    ensures Sorted(out) && multiset(out) == multiset(es)
  {
    hide Sorted, Inserted;
    out := [];
    NoneSorted();
    var i := 0;
    while i < |es|
      invariant 0 <= i <= |es| && Sorted(out) && multiset(out) == multiset(es[..i])
    {
      InsertedSorts(out, es[i]);
      assert es[..i + 1] == es[..i] + [es[i]];
      out := Inserted(out, es[i]);
      i := i + 1;
    }
    assert es[..i] == es;
  }

  lemma NoneSorted()
    ensures Sorted([])
  {
  }

  /** Of the rows of one tenant and prefix the one with the highest zone comes last. */
  ghost predicate ZonesAscend(es: seq<TrieEntry>) {
    forall i, j :: 0 <= i < j < |es| && es[i].tenantId == es[j].tenantId && es[i].prefix == es[j].prefix ==>
      Code(es[i].zone) <= Code(es[j].zone)
  }

  lemma SortedZonesAscend(es: seq<TrieEntry>)
    requires Sorted(es)
    ensures ZonesAscend(es)
  {
    hide StringLeq, Code;
  }
}
