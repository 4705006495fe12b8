/** The Collector's aggregation of one snapshot into the exposed families. */
module Collector {
  import opened Amounts
  import opened Bpf
  import opened Metadata
  import opened Billing
  import opened Series
  import opened State

  datatype PortKey = PortKey(server: string, port: string, tenant: string, extNet: string, zone: ZoneCode,
                             dir: Direction)
  datatype ProtoKey = ProtoKey(server: string, port: string, tenant: string, proto: L4Proto, dir: Direction)

  function PortKeyOf(k: FlowKey, a: Attribution): PortKey {
    PortKey(a.serverId, a.portId, a.tenant, a.externalNetwork, k.dstZone, k.direction)
  }

  function ProtoKeyOf(k: FlowKey, a: Attribution): ProtoKey {
    ProtoKey(a.serverId, a.portId, a.tenant, k.l4Proto, k.direction)
  }

  function LiveTenant(env: Env): FlowKey -> TenantKey { (k: FlowKey) => TenantKeyOf(k, RowOwner(env, k)) }
  function LiveServer(env: Env): FlowKey -> ServerKey { (k: FlowKey) => ServerKeyOf(k, RowOwner(env, k)) }
  function LivePort(env: Env): FlowKey -> PortKey { (k: FlowKey) => PortKeyOf(k, Resolve(env, k)) }
  function LiveProto(env: Env): FlowKey -> ProtoKey { (k: FlowKey) => ProtoKeyOf(k, Resolve(env, k)) }
  function Same<K>(): K -> K { (k: K) => k }

  /** Rows that resolve to a server: only these reach the three lower families. */
  ghost function Served(counts: map<FlowKey, Counter>, env: Env): map<FlowKey, Amount> {
    map k | k in counts && Resolve(env, k).serverId != "" :: counts[k].total.count
  }

  /** The five families of one snapshot. */
  datatype Families = Families(
    totals: map<TotalKey, Amount>, tenants: map<TenantKey, Amount>, servers: map<ServerKey, Amount>,
    ports: map<PortKey, Amount>, protos: map<ProtoKey, Amount>)

  ghost function FamiliesOf(l: Ledger, env: Env): Families {
    var tenants := GroupFold(GroupFold(map[], l.tenantSettled, Same()), Totals(l.counts), LiveTenant(env));
    var served := Served(l.counts, env);
    Families(
      GroupFold(GroupFold(map[], tenants, ToTotal()), l.totalSettled, Same()),
      tenants,
      GroupFold(GroupFold(map[], served, LiveServer(env)), l.serverSettled, Same()),
      GroupFold(map[], served, LivePort(env)),
      GroupFold(map[], served, LiveProto(env)))
  }

  /** One accumulation loop over a snapshot buffer, in any order. */
  method Accumulate<K(==,!new), L(==,!new)>(buckets: map<L, Amount>, m: map<K, Amount>, f: K -> L)
      returns (r: map<L, Amount>)
    ensures r == GroupFold(buckets, m, f)
  {
    hide GroupFold, Part;
    r := buckets;
    var todo := m.Keys;
    ghost var done: set<K> := {};
    assert Part(m, done) == map[] by { PartNone(m); }
    GroupFoldEmpty(buckets, f);
    while todo != {}
      invariant todo <= m.Keys && done == m.Keys - todo
      invariant r == GroupFold(buckets, Part(m, done), f)
      decreases |todo|
    {
      var k :| k in todo;
      PartStep(m, done, k);
      PartLacks(m, done, k);
      GroupFoldStep(buckets, Part(m, done), f, k, m[k]);
      r := Credit(r, f(k), m[k]);
      todo := todo - {k};
      done := done + {k};
    }
    PartAll(m, done);
  }

  lemma PartNone<K(!new)>(m: map<K, Amount>)
    ensures Part(m, {}) == map[]
  {
  }

  lemma PartAll<K(!new)>(m: map<K, Amount>, done: set<K>)
    requires m.Keys <= done
    ensures Part(m, done) == m
  {
  }

  lemma PartLacks<K(!new)>(m: map<K, Amount>, done: set<K>, k: K)
    requires k !in done
    ensures k !in Part(m, done)
  {
  }

  class MetricsCollector {
    var totalAgg: map<TotalKey, Amount>
    var agg: map<TenantKey, Amount>
    var serverAgg: map<ServerKey, Amount>
    var portAgg: map<PortKey, Amount>
    var protoAgg: map<ProtoKey, Amount>

    /** aggregate: the five folds in dependency order over one snapshot. */
    method Aggregate(l: Ledger, env: Env)
      modifies this
      ensures Abs() == FamiliesOf(l, env)
    {
      hide GroupFold, Totals, Served;
      totalAgg, agg, serverAgg, portAgg, protoAgg := map[], map[], map[], map[], map[];
      agg := Accumulate(agg, l.tenantSettled, Same());
      AggregateLiveRows(l.counts, env);
      LiveEnd(Abs(), l.counts, env);
      serverAgg := Accumulate(serverAgg, l.serverSettled, Same());
      totalAgg := Accumulate(totalAgg, agg, ToTotal());
      totalAgg := Accumulate(totalAgg, l.totalSettled, Same());
    }

    /** Each live row resolved once and credited to every family it belongs to. */
    method AggregateLiveRows(counts: map<FlowKey, Counter>, env: Env)
      modifies this
      ensures Abs() == PartlyLive(old(Abs()), counts, env, counts.Keys)
    {
      hide PartlyLive, CreditRow;
      ghost var f0 := Abs();
      var todo := counts.Keys;
      ghost var done: set<FlowKey> := {};
      LiveStart(f0, counts, env);
      while todo != {}
        invariant todo <= counts.Keys && done == counts.Keys - todo
        invariant Abs() == PartlyLive(f0, counts, env, done)
        decreases |todo|
      {
        var k :| k in todo;
        LiveStep(f0, counts, env, done, k);
        CreditOne(k, Resolve(env, k), counts[k].total.count);
        todo := todo - {k};
        done := done + {k};
      }
      assert done == counts.Keys;
    }

    ghost function Abs(): Families
      reads this
    {
      Families(totalAgg, agg, serverAgg, portAgg, protoAgg)
    }

    method CreditOne(k: FlowKey, a: Attribution, count: Amount)
      modifies this
      ensures Abs() == CreditRow(old(Abs()), k, a, count)
    {
      agg := Credit(agg, TenantKeyOf(k, OwnerOf(a)), count);
      if a.serverId != "" {
        serverAgg := Credit(serverAgg, ServerKeyOf(k, OwnerOf(a)), count);
        portAgg := Credit(portAgg, PortKeyOf(k, a), count);
        protoAgg := Credit(protoAgg, ProtoKeyOf(k, a), count);
      }
    }
  }

  function CreditRow(f: Families, k: FlowKey, a: Attribution, count: Amount): Families {
    var f1 := f.(tenants := Credit(f.tenants, TenantKeyOf(k, OwnerOf(a)), count));
    if a.serverId == "" then f1
    else f1.(servers := Credit(f.servers, ServerKeyOf(k, OwnerOf(a)), count),
             ports := Credit(f.ports, PortKeyOf(k, a), count),
             protos := Credit(f.protos, ProtoKeyOf(k, a), count))
  }

  /** The families once the live rows in done were credited. */
  ghost function PartlyLive(f: Families, counts: map<FlowKey, Counter>, env: Env, done: set<FlowKey>): Families {
    var served := Part(Served(counts, env), done);
    Families(f.totals,
             GroupFold(f.tenants, Part(Totals(counts), done), LiveTenant(env)),
             GroupFold(f.servers, served, LiveServer(env)),
             GroupFold(f.ports, served, LivePort(env)),
             GroupFold(f.protos, served, LiveProto(env)))
  }

  lemma LiveStart(f: Families, counts: map<FlowKey, Counter>, env: Env)
    ensures PartlyLive(f, counts, env, {}) == f
  {
    hide GroupFold;
    PartNone(Totals(counts));
    PartNone(Served(counts, env));
    GroupFoldEmpty(f.tenants, LiveTenant(env));
    GroupFoldEmpty(f.servers, LiveServer(env));
    GroupFoldEmpty(f.ports, LivePort(env));
    GroupFoldEmpty(f.protos, LiveProto(env));
  }

  lemma LiveStep(f: Families, counts: map<FlowKey, Counter>, env: Env, done: set<FlowKey>, k: FlowKey)
    requires k in counts && k !in done
    ensures PartlyLive(f, counts, env, done + {k}) == CreditRow(PartlyLive(f, counts, env, done), k, Resolve(env, k),
                                                                counts[k].total.count)
  {
    var rows, served, count := Totals(counts), Served(counts, env), counts[k].total.count;
    RowFacts(counts, env, k);
    hide GroupFold, Part, Resolve, Totals, Served, Credit;
    PartStep(rows, done, k);
    PartLacks(rows, done, k);
    PartStep(served, done, k);
    PartLacks(served, done, k);
    GroupFoldStep(f.tenants, Part(rows, done), LiveTenant(env), k, count);
    if k in served {
      GroupFoldStep(f.servers, Part(served, done), LiveServer(env), k, count);
      GroupFoldStep(f.ports, Part(served, done), LivePort(env), k, count);
      GroupFoldStep(f.protos, Part(served, done), LiveProto(env), k, count);
    }
  }

  lemma LiveEnd(f: Families, counts: map<FlowKey, Counter>, env: Env)
    ensures Part(Totals(counts), counts.Keys) == Totals(counts)
            && Part(Served(counts, env), counts.Keys) == Served(counts, env)
  {
  }

  lemma RowFacts(counts: map<FlowKey, Counter>, env: Env, k: FlowKey)
    requires k in counts
    ensures k in Totals(counts) && Totals(counts)[k] == counts[k].total.count
    ensures k in Served(counts, env) <==> Resolve(env, k).serverId != ""
    ensures k in Served(counts, env) ==> Served(counts, env)[k] == counts[k].total.count
  {
  }

  // ---------------------------------------------------------------------
  // What the families mean, and that they agree
  // ---------------------------------------------------------------------

  lemma SameFold<K(!new)>(m: map<K, Amount>)
    ensures GroupFold(map[], m, Same()) == m
  {
    hide Sum;
    var g := GroupFold<K, K>(map[], m, Same());
    assert forall k :: k in m ==> k in Amounts.Labels<K, K>(m, Same());
    forall k | k in m
      ensures k in g && g[k] == m[k]
    {
      assert Labelled<K, K>(m, Same(), k) == map[k := m[k]];
      SumInsert<K>(map[], k, m[k]);
      SumEmpty<K>();
    }
  }

  /** Each family member holds exactly the value its series is defined to have. */
  lemma FamiliesAreSeries(l: Ledger, env: Env, s: Series)
    ensures match s
            case Total(t) => Get(FamiliesOf(l, env).totals, t) == Value(l, env, s)
            case Tenant(t) => Get(FamiliesOf(l, env).tenants, t) == Value(l, env, s)
            case Server(v) => Get(FamiliesOf(l, env).servers, v) == Value(l, env, s)
  {
    match s
    case Total(t) => TotalIsValue(l, env, t);
    case Tenant(t) => TenantIsValue(l, env, t);
    case Server(v) => ServerIsValue(l, env, v);
  }

  lemma TenantFamily(l: Ledger, env: Env)
    ensures FamiliesOf(l, env).tenants == GroupFold(l.tenantSettled, Totals(l.counts), LiveTenant(env))
  {
    hide GroupFold;
    SameFold(l.tenantSettled);
  }

  lemma TenantLive(counts: map<FlowKey, Counter>, env: Env, t: TenantKey)
    ensures Labelled(Totals(counts), LiveTenant(env), t) == Live(counts, env, Tenant(t))
  {
    hide RowOwner;
  }

  lemma TenantIsValue(l: Ledger, env: Env, t: TenantKey)
    ensures Get(FamiliesOf(l, env).tenants, t) == Value(l, env, Tenant(t))
  {
    assert Value(l, env, Tenant(t)) == Sum(Live(l.counts, env, Tenant(t))).Plus(Get(l.tenantSettled, t)) by {
      hide Sum, Live, Get;
    }
    hide *;
    TenantFamily(l, env);
    TenantLive(l.counts, env, t);
    GroupFoldGet(l.tenantSettled, Totals(l.counts), LiveTenant(env), t);
    PlusCommutes(Sum(Live(l.counts, env, Tenant(t))), Get(l.tenantSettled, t));
  }

  lemma ServerIsValue(l: Ledger, env: Env, v: ServerKey)
    ensures Get(FamiliesOf(l, env).servers, v) == Value(l, env, Server(v))
  {
    ServerLive(l.counts, env, v);
    hide Sum, GroupFold, Served, Live, Labelled, Get;
    GroupFoldGet(GroupFold(map[], Served(l.counts, env), LiveServer(env)), l.serverSettled, Same(), v);
    GroupFoldFreshGet(Served(l.counts, env), LiveServer(env), v);
    SameLabelled(l.serverSettled, v);
  }

  lemma ServerLive(counts: map<FlowKey, Counter>, env: Env, v: ServerKey)
    ensures Labelled(Served(counts, env), LiveServer(env), v) == Live(counts, env, Server(v))
    ensures Keep(Served(counts, env), Via(LivePort(env), PortOf(v))) ==
            Labelled(Served(counts, env), LiveServer(env), v)
  {
    hide Resolve;
  }

  lemma SameLabelled<K(!new)>(m: map<K, Amount>, k: K)
    ensures Sum(Labelled(m, Same(), k)) == Get(m, k)
  {
    hide Sum;
    SumEmpty<K>();
    if k in m {
      assert Labelled<K, K>(m, Same(), k) == map[k := m[k]];
      SumInsert<K>(map[], k, m[k]);
    } else {
      assert Labelled<K, K>(m, Same(), k) == map[];
    }
  }

  lemma TotalLive(counts: map<FlowKey, Counter>, env: Env, t: TotalKey)
    ensures Keep(Totals(counts), Via(LiveTenant(env), TotalIs(t))) == Live(counts, env, Total(t))
  {
    hide RowOwner;
  }

  lemma TotalIsValue(l: Ledger, env: Env, t: TotalKey)
    ensures Get(FamiliesOf(l, env).totals, t) == Value(l, env, Total(t))
  {
    var live := Sum(Live(l.counts, env, Total(t)));
    var settled := Sum(Keep(l.tenantSettled, TotalIs(t)));
    assert Value(l, env, Total(t)) == live.Plus(settled.Plus(Get(l.totalSettled, t))) by {
      hide Sum, Live, Get, Keep;
    }
    hide *;
    TotalTierAgrees(l, env, t);
    TenantFamily(l, env);
    GroupFoldSum(l.tenantSettled, Totals(l.counts), LiveTenant(env), TotalIs(t));
    TotalLive(l.counts, env, t);
    PlusCommutes(live, settled);
    PlusAssoc(live, settled, Get(l.totalSettled, t));
  }

  /** A total series is its tenants' series summed, plus the total absorber. */
  lemma TotalTierAgrees(l: Ledger, env: Env, t: TotalKey)
    ensures var f := FamiliesOf(l, env);
            Get(f.totals, t) == Sum(Keep(f.tenants, TotalIs(t))).Plus(Get(l.totalSettled, t))
  {
    hide Sum, GroupFold, Labelled, Keep, Get, ToTotal, Same, LiveTenant, Totals, Served, LiveServer, LivePort,
        LiveProto;
    var tenants := FamiliesOf(l, env).tenants;
    GroupFoldGet(GroupFold(map[], tenants, ToTotal()), l.totalSettled, Same(), t);
    GroupFoldFreshGet(tenants, ToTotal(), t);
    SameLabelled(l.totalSettled, t);
    TotalLabelled(tenants, t);
  }

  lemma TotalLabelled(tenants: map<TenantKey, Amount>, t: TotalKey)
    ensures Labelled(tenants, ToTotal(), t) == Keep(tenants, TotalIs(t))
  {
  }

  ghost function PortOf(v: ServerKey): PortKey -> bool {
    (p: PortKey) => ServerKey(p.server, p.tenant, p.extNet, p.zone, p.dir) == v
  }

  /** A server series is its ports' series summed, plus the server absorber. */
  lemma ServerTierAgrees(l: Ledger, env: Env, v: ServerKey)
    ensures var f := FamiliesOf(l, env);
            Get(f.servers, v) == Sum(Keep(f.ports, PortOf(v))).Plus(Get(l.serverSettled, v))
  {
    ServerLive(l.counts, env, v);
    hide Sum, GroupFold, Served, Live, Keep, Labelled, Via;
    var served := Served(l.counts, env);
    GroupFoldGet(GroupFold(map[], served, LiveServer(env)), l.serverSettled, Same(), v);
    GroupFoldFreshGet(served, LiveServer(env), v);
    SameLabelled(l.serverSettled, v);
    GroupFoldFreshSum(served, LivePort(env), PortOf(v));
  }

  ghost function PortIs(server: string, port: string, tenant: string, dir: Direction): PortKey -> bool {
    (p: PortKey) => p.server == server && p.port == port && p.tenant == tenant && p.dir == dir
  }

  ghost function ProtoIs(server: string, port: string, tenant: string, dir: Direction): ProtoKey -> bool {
    (p: ProtoKey) => p.server == server && p.port == port && p.tenant == tenant && p.dir == dir
  }

  /** Summed over protocols, the breakdown is the port family summed over zone and
      external network. */
  lemma ProtoTierAgrees(l: Ledger, env: Env, server: string, port: string, tenant: string, dir: Direction)
    ensures var f := FamiliesOf(l, env);
            Sum(Keep(f.protos, ProtoIs(server, port, tenant, dir))) ==
                Sum(Keep(f.ports, PortIs(server, port, tenant, dir)))
  {
    hide *;
    var served := Served(l.counts, env);
    ProtoFamilies(l, env);
    GroupFoldFreshSum(served, LivePort(env), PortIs(server, port, tenant, dir));
    GroupFoldFreshSum(served, LiveProto(env), ProtoIs(server, port, tenant, dir));
    SameFlows(served, env, server, port, tenant, dir);
  }

  lemma ProtoFamilies(l: Ledger, env: Env)
    ensures FamiliesOf(l, env).ports == GroupFold(map[], Served(l.counts, env), LivePort(env))
    ensures FamiliesOf(l, env).protos == GroupFold(map[], Served(l.counts, env), LiveProto(env))
  {
    hide GroupFold, Served;
  }

  lemma SameFlows(served: map<FlowKey, Amount>, env: Env, server: string, port: string, tenant: string, dir: Direction)
    ensures Keep(served, Via(LivePort(env), PortIs(server, port, tenant, dir)))
            == Keep(served, Via(LiveProto(env), ProtoIs(server, port, tenant, dir)))
  {
    hide Resolve;
  }
}
